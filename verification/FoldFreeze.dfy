// src/nodes/llm/validation_strategist.py: the cross-validation folds are checked, written once, and
// not written again by the strategist. Every generated script runs in the workspace and may write or
// delete the fold file itself; src/nodes/llm/data_analyst.py runs one without any guard, first in
// phase 1 and again on a critic's retry.
module FoldFreeze {
  import opened Common
  import opened CriticLoop
  import opened LabStates

  // One element of fold_indices; a number that is not a plain int is None.
  datatype Fold = Malformed | Fold(train: seq<Option<int>>, val: seq<Option<int>>)

  // The required keys of a fold configuration; a field of the wrong type is None.
  datatype Payload = Payload(strategy: string, nFolds: Option<int>, seed: Option<int>, folds: Option<seq<Fold>>)

  // --- the shape check -------------------------------------------------------------

  ghost predicate RowIndices(entries: seq<Option<int>>) {
    entries != [] && forall i :: 0 <= i < |entries| ==> entries[i].Some? && entries[i].value >= 0
  }

  ghost predicate Disjoint(a: seq<Option<int>>, b: seq<Option<int>>) {
    forall x :: x in a ==> x !in b
  }

  ghost predicate SoundFold(f: Fold) {
    f.Fold? && RowIndices(f.train) && RowIndices(f.val) && Disjoint(f.train, f.val)
  }

  // What may be frozen: as many folds as announced, at least one, each with non-empty, disjoint
  // training and validation rows.
  ghost predicate SoundFolds(p: Payload) {
    && p.seed.Some?
    && p.folds.Some?
    && p.nFolds == Some(|p.folds.value|)
    && p.folds.value != []
    && forall i :: 0 <= i < |p.folds.value| ==> SoundFold(p.folds.value[i])
  }

  // Row by row: the rows of a sound fold are non-negative integers, and no row is both trained on and
  // validated on.
  lemma SoundFoldIff(f: Fold)
    ensures SoundFold(f) <==>
      && f.Fold? && |f.train| > 0 && |f.val| > 0
      && (forall j :: 0 <= j < |f.train| ==> f.train[j].Some? && f.train[j].value >= 0)
      && (forall k :: 0 <= k < |f.val| ==> f.val[k].Some? && f.val[k].value >= 0)
      && forall j, k :: 0 <= j < |f.train| && 0 <= k < |f.val| ==> f.train[j] != f.val[k]
  {
    if f.Fold? {
      DisjointIff(f.train, f.val);
    }
  }

  lemma DisjointIff(a: seq<Option<int>>, b: seq<Option<int>>)
    ensures Disjoint(a, b) <==> forall j, k :: 0 <= j < |a| && 0 <= k < |b| ==> a[j] != b[k]
  {
    if Disjoint(a, b) {
      forall j, k | 0 <= j < |a| && 0 <= k < |b| ensures a[j] != b[k] {
        assert a[j] in a && b[k] in b;
      }
    }
  }

  // A configuration is sound exactly when it has a seed and announces the number of its folds, and
  // there is one and each is sound.
  lemma SoundFoldsIff(p: Payload)
    ensures SoundFolds(p) <==>
      && p.seed.Some? && p.folds.Some? && p.nFolds.Some?
      && 0 < p.nFolds.value == |p.folds.value|
      && forall i :: 0 <= i < |p.folds.value| ==> SoundFold(p.folds.value[i])
  {
    hide SoundFold;
  }

  // _validate_index_list
  method ValidateIndexList(entries: seq<Option<int>>) returns (ok: bool)
    ensures ok <==> RowIndices(entries)
  {
    if entries == [] {
      return false;
    }
    for i := 0 to |entries|
      invariant forall j :: 0 <= j < i ==> entries[j].Some? && entries[j].value >= 0
    {
      if entries[i].None? || entries[i].value < 0 {
        return false;
      }
    }
    return true;
  }

  // _validate_fold_config_shape
  method ValidateFoldConfigShape(p: Payload) returns (ok: bool)
    ensures ok <==> SoundFolds(p)
  {
    if p.nFolds.None? || p.nFolds.value <= 0 || p.seed.None? || p.folds.None? || p.folds.value == [] {
      return false;
    }
    var folds := p.folds.value;
    for i := 0 to |folds|
      invariant forall j :: 0 <= j < i ==> SoundFold(folds[j])
    {
      if folds[i].Malformed? {
        return false;
      }
      var train := ValidateIndexList(folds[i].train);
      var val := ValidateIndexList(folds[i].val);
      if !train || !val {
        return false;
      }
      var overlap := set x | x in folds[i].train && x in folds[i].val;
      if overlap != {} {
        assert exists x :: x in overlap;
        return false;
      }
      assert forall x :: x in folds[i].train && x in folds[i].val ==> x in overlap;
    }
    return |folds| == p.nFolds.value;
  }

  // --- the file --------------------------------------------------------------------

  // What stands in validation/fold_config.json: a payload, or any other text.
  datatype Content = Folds(payload: Payload) | Other(text: string)

  datatype Writer = TheStrategist | AScript

  datatype File = File(content: Content, writer: Writer)

  // What an execution does to the file.
  datatype Effect = Untouched | Leaves(content: Option<Content>)

  // What it prints: nothing usable, or a payload.
  datatype Output = Failed | NotAPayload | Printed(payload: Payload)

  datatype Script = Script(effect: Effect, output: Output)

  function Affected(file: Option<File>, effect: Effect): Option<File> {
    match effect
    case Untouched => file
    case Leaves(None) => None
    case Leaves(Some(content)) => Some(File(content, AScript))
  }

  ghost predicate PrintsSound(script: Script) {
    script.output.Printed? && SoundFolds(script.output.payload)
  }

  const WRITTEN := Returned([], map["validation_config_path" := Plain("validation/fold_config.json")])

  // _write_output, as its caller sees it; the script is None when the reply holds no code.
  ghost function Strategist(file: Option<File>, script: Option<Script>): (Option<File>, TargetRun) {
    if file.Some? then (file, FoldsAlreadyFrozen)
    else if script.None? then (None, Crashed)
    else if PrintsSound(script.value) then (Some(File(Folds(script.value.output.payload), TheStrategist)), WRITTEN)
    else (Affected(None, script.value.effect), Crashed)
  }

  class FoldFile {
    var file: Option<File>

    constructor ()
      ensures file == None
    {
      file := None;
    }

    method Execute(effect: Effect)
      modifies this
      ensures file == Affected(old(file), effect)
    {
      file := Affected(file, effect);
    }

    // ValidationStrategistNode._write_output
    method WriteOutput(script: Option<Script>) returns (run: TargetRun)
      modifies this
      ensures (file, run) == Strategist(old(file), script)
    {
      if file.Some? {
        return FoldsAlreadyFrozen;
      }
      if script.None? {
        return Crashed;
      }
      Execute(script.value.effect);
      if !script.value.output.Printed? {
        return Crashed;
      }
      var sound := ValidateFoldConfigShape(script.value.output.payload);
      if !sound {
        return Crashed;
      }
      file := Some(File(Folds(script.value.output.payload), TheStrategist));
      return WRITTEN;
    }
  }

  // --- any sequence of node calls --------------------------------------------------

  // A call as far as the file is concerned: a script without a guard, the strategist, or neither.
  datatype NodeCall = RunsScript(effect: Effect) | CallsStrategist(script: Option<Script>) | RunsNothing

  ghost function Step(file: Option<File>, call: NodeCall): Option<File> {
    match call
    case RunsScript(effect) => Affected(file, effect)
    case CallsStrategist(script) => Strategist(file, script).0
    case RunsNothing => file
  }

  ghost function FileAfter(file: Option<File>, calls: nat -> NodeCall, n: nat): Option<File> {
    if n == 0 then file else Step(FileAfter(file, calls, n - 1), calls(n - 1))
  }

  // A strategist call over an existing file runs nothing and changes nothing, so among strategist
  // calls the file never changes once it is there.
  lemma {:induction false} FoldsNeverChange(file: Option<File>, calls: nat -> NodeCall, m: nat, n: nat)
    requires m <= n && FileAfter(file, calls, m).Some?
    requires forall i :: m <= i < n ==> calls(i).CallsStrategist?
    ensures FileAfter(file, calls, n) == FileAfter(file, calls, m)
    decreases n
  {
    if m < n {
      FoldsNeverChange(file, calls, m, n - 1);
    }
  }

  ghost predicate Sound(content: Content) {
    content.Folds? && SoundFolds(content.payload)
  }

  ghost predicate Checked(file: Option<File>) {
    file.Some? ==> file.value.writer == TheStrategist && Sound(file.value.content)
  }

  // The script that runs in this call leaves a file of its own, and nothing is written over it.
  ghost predicate LeavesItsOwn(file: Option<File>, call: NodeCall) {
    match call
    case RunsScript(effect) => effect.Leaves? && effect.content.Some?
    case CallsStrategist(script) =>
      file.None? && script.Some? && script.value.effect.Leaves? && script.value.effect.content.Some?
      && !PrintsSound(script.value)
    case RunsNothing => false
  }

  lemma StepIsCheckedIff(file: Option<File>, call: NodeCall)
    requires Checked(file)
    ensures Checked(Step(file, call)) <==> !LeavesItsOwn(file, call)
  {
  }

  // Starting without a file: what stands in it has at every point passed the shape check if and only
  // if no script that ran left the file itself, except where the strategist wrote over it.
  lemma {:induction false} FrozenFoldsAreCheckedIff(calls: nat -> NodeCall, n: nat)
    ensures (forall m :: 0 <= m <= n ==> Checked(FileAfter(None, calls, m))) <==>
              forall j :: 0 <= j < n ==> !LeavesItsOwn(FileAfter(None, calls, j), calls(j))
  {
    StartIsChecked(calls);
    hide FileAfter, Checked, LeavesItsOwn, Step;
    if n > 0 {
      FrozenFoldsAreCheckedIff(calls, n - 1);
      FileStep(None, calls, n);
      if Checked(FileAfter(None, calls, n - 1)) {
        StepIsCheckedIff(FileAfter(None, calls, n - 1), calls(n - 1));
      }
    }
  }

  lemma StartIsChecked(calls: nat -> NodeCall)
    ensures Checked(FileAfter(None, calls, 0))
  {
  }

  lemma FileStep(file: Option<File>, calls: nat -> NodeCall, n: nat)
    requires n > 0
    ensures FileAfter(file, calls, n) == Step(FileAfter(file, calls, n - 1), calls(n - 1))
  {
  }

  // What the strategist wrote is sound wherever it still stands, whatever scripts did before.
  lemma {:induction false} StrategistFoldsAreSound(calls: nat -> NodeCall, n: nat)
    ensures
      var file := FileAfter(None, calls, n);
      file.Some? && file.value.writer == TheStrategist ==> Sound(file.value.content)
  {
    if n > 0 {
      StrategistFoldsAreSound(calls, n - 1);
    }
  }

  // Phase 1 up to the strategist: the folds are the strategist's sound payload if and only if the data
  // analyst's script left no file and the strategist's script printed such a payload.
  lemma PhaseOneFreezesIff(analyst: Effect, script: Script)
    ensures
      var (file, run) := Strategist(Affected(None, analyst), Some(script));
      && (run == WRITTEN <==> Affected(None, analyst).None? && PrintsSound(script))
      && (run == WRITTEN ==>
            script.output.Printed? && file == Some(File(Folds(script.output.payload), TheStrategist)))
  {
  }

  // A data analyst's script that writes anything at all to the file freezes it unchecked: the
  // strategist, sound payload or not, only reports it frozen.
  lemma GarbageFreezes(script: Option<Script>) returns (analyst: Effect, file: File)
    ensures Affected(None, analyst) == Some(file) && !Sound(file.content)
    ensures Strategist(Some(file), script) == (Some(file), FoldsAlreadyFrozen)
  {
    file := File(Other("not json"), AScript);
    analyst := Leaves(Some(file.content));
  }

  // --- a critic's review -----------------------------------------------------------

  const STRATEGIST := "validation_strategist"
  const ANALYST := "data_analyst"

  function CallOf(target: string, script: Option<Script>): NodeCall {
    if target == STRATEGIST then CallsStrategist(script)
    else if target == ANALYST && script.Some? then RunsScript(script.value.effect)
    else RunsNothing
  }

  // The file at the head of cycle n, when each cycle before it re-invoked its target.
  ghost function FileAt(file: Option<File>, cs: nat -> Cycle, scripts: nat -> Option<Script>, n: nat): Option<File> {
    if n == 0 then file
    else Step(FileAt(file, cs, scripts, n - 1), CallOf(cs(n - 1).judgement.target, scripts(n - 1)))
  }

  // The strategist's runs are those its guard and its scripts give.
  ghost predicate RunsAsCalled(file: Option<File>, cs: nat -> Cycle, scripts: nat -> Option<Script>) {
    forall i: nat :: cs(i).judgement.target == STRATEGIST ==>
      cs(i).run == Strategist(FileAt(file, cs, scripts, i), scripts(i)).1
  }

  // While the file is there no cycle iterates on the strategist, and the first one to insist on it with
  // budget left ends the review in a forced pass.
  lemma FrozenStrategistIsNotRetried(cfg: Config, cs: nat -> Cycle, n: nat, file: Option<File>, scripts: nat -> Option<Script>)
    requires cfg.frozenTargets == {STRATEGIST} && RunsAsCalled(file, cs, scripts)
    requires FileAt(file, cs, scripts, n).Some? && cs(n).judgement.target == STRATEGIST
    ensures !Retries(cfg, cs, n)
    ensures
      !cs(n).unreadable && cs(n).judgement.verdict == Iterate && Visits(cs, n, STRATEGIST) < cfg.maxRetries ==>
        Concluded(cfg, cs, n) ==
        Reviewed(Iterates(cs, n) + [Attempt(Pass, NodeText, STRATEGIST, FoldsFrozen)],
                 Gathered(cs, n) + [cs(n).message], map[])
  {
  }

  // At the head of cycle i the file still holds what it held when the review began.
  ghost predicate Kept(file: File, cs: nat -> Cycle, scripts: nat -> Option<Script>, i: nat) {
    var now := FileAt(Some(file), cs, scripts, i);
    now.Some? && now.value.content == file.content
  }

  // Cycle i does not retry a data analyst whose script changes what the file holds.
  predicate Harmless(cs: nat -> Cycle, scripts: nat -> Option<Script>, i: nat, content: Content) {
    cs(i).judgement.target == ANALYST && scripts(i).Some? ==>
      scripts(i).value.effect.Untouched? || scripts(i).value.effect == Leaves(Some(content))
  }

  lemma RetryKeepsFoldsIff(cfg: Config, cs: nat -> Cycle, n: nat, file: File, scripts: nat -> Option<Script>)
    requires cfg.frozenTargets == {STRATEGIST} && Retries(cfg, cs, n) && RunsAsCalled(Some(file), cs, scripts)
    requires Kept(file, cs, scripts, n)
    ensures Kept(file, cs, scripts, n + 1) <==> Harmless(cs, scripts, n, file.content)
  {
    assert STRATEGIST[0] != ANALYST[0];
    if cs(n).judgement.target == STRATEGIST {
      FrozenStrategistIsNotRetried(cfg, cs, n, Some(file), scripts);
    }
  }

  // A review keeps the folds, from cycle to cycle, if and only if no script of a retried data analyst
  // changes or deletes them.
  lemma {:induction false} ReviewKeepsFoldsIff(cfg: Config, cs: nat -> Cycle, n: nat, file: File, scripts: nat -> Option<Script>)
    requires cfg.frozenTargets == {STRATEGIST} && AllRetry(cfg, cs, n) && RunsAsCalled(Some(file), cs, scripts)
    ensures (forall i :: 0 <= i <= n ==> Kept(file, cs, scripts, i)) <==>
              forall i :: 0 <= i < n ==> Harmless(cs, scripts, i, file.content)
  {
    assert Kept(file, cs, scripts, 0);
    hide Kept, Harmless, RunsAsCalled, Retries;
    if n > 0 {
      ReviewKeepsFoldsIff(cfg, cs, n - 1, file, scripts);
      if Kept(file, cs, scripts, n - 1) {
        RetryKeepsFoldsIff(cfg, cs, n - 1, file, scripts);
      }
    }
  }

  // And it can: one retry of the data analyst whose script overwrites the frozen file.
  lemma RetriedAnalystReplacesFolds(cfg: Config, file: File)
    returns (cs: nat -> Cycle, scripts: nat -> Option<Script>)
    requires cfg.frozenTargets == {STRATEGIST} && cfg.maxRetries > 0 && ANALYST in cfg.targets
    ensures Normalized(cfg, cs) && AllRetry(cfg, cs, 1) && RunsAsCalled(Some(file), cs, scripts)
    ensures !Kept(file, cs, scripts, 1)
  {
    var replaced := if file.content == Other("") then Other("again") else Other("");
    cs := (i: nat) => Cycle("", false, Judgement(Iterate, NothingSaid, ANALYST), Returned([], map[]));
    scripts := (i: nat) => Some(Script(Leaves(Some(replaced)), Failed));
    assert STRATEGIST[0] != ANALYST[0];
    assert FileAt(Some(file), cs, scripts, 0) == Some(file);
    assert FileAt(Some(file), cs, scripts, 1) == Step(Some(file), CallOf(cs(0).judgement.target, scripts(0)));
    assert Visits(cs, 0, ANALYST) == 0;
  }
}
