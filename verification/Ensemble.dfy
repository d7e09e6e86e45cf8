// src/nodes/llm/ensemble_specialist.py's node-injected base experiments and the check
// src/nodes/llm/_experiment_design.py makes of them before an ensemble design may be written.
module Ensemble {
  import opened Common
  import opened Text
  import opened ExperimentPaths
  import opened LabStates
  import opened ScoreEvaluation
  import opened Pipeline

  datatype BaseExperiment = BaseExperiment(experimentId: string, oofPath: string)

  // The `oof_path` of each directory whose results.json reads as an object.
  type OofFields = map<string, OofField>

  function ExperimentId(entry: Entry): string {
    if entry.id != "" then entry.id else "experiment_" + Decimal(entry.iteration)
  }

  function DirFromEntry(entry: Entry, root: seq<string>): string {
    match RecordedDir(Some(entry.path), root)
    case Some(dir) => dir
    case None => ExpDir(entry.iteration)
  }

  function OofPathFor(entry: Entry, fields: OofFields, root: seq<string>): string {
    var dir := DirFromEntry(entry, root);
    EnsembleOof(dir, dir in fields, if dir in fields then fields[dir] else None, root)
  }

  // _build_base_experiments
  function BaseExperiments(entries: seq<Entry>, fields: OofFields, root: seq<string>): seq<BaseExperiment> {
    seq(|entries|, i requires 0 <= i < |entries| =>
      BaseExperiment(ExperimentId(entries[i]), OofPathFor(entries[i], fields, root)))
  }

  // An entry goes by its recorded id and directory, and by its number where it has none.
  lemma EntryIs(entry: Entry, root: seq<string>)
    ensures ExperimentId(entry) == if |entry.id| > 0 then entry.id else "experiment_" + Decimal(entry.iteration)
    ensures DirFromEntry(entry, root) ==
      if RecordedDir(Some(entry.path), root).Some? then RecordedDir(Some(entry.path), root).value
      else "experiments/exp_" + Decimal(entry.iteration)
  {
    assert "experiments/" + ("exp_" + Decimal(entry.iteration)) == "experiments/exp_" + Decimal(entry.iteration);
  }

  datatype DesignError = Empty | BlankField | SharedOofPath

  ghost predicate Filled(value: seq<BaseExperiment>) {
    forall i :: 0 <= i < |value| ==> value[i].experimentId != "" && value[i].oofPath != ""
  }

  ghost predicate DistinctOof(value: seq<BaseExperiment>) {
    forall i, j :: 0 <= i < j < |value| ==> value[i].oofPath != value[j].oofPath
  }

  // _validate_base_experiments: accepts exactly the non-empty lists of filled entries that never
  // name one predictions file twice, and changes nothing.
  method ValidateBaseExperiments(value: seq<BaseExperiment>) returns (r: Result<seq<BaseExperiment>, DesignError>)
    ensures r.Ok? <==> value != [] && Filled(value) && DistinctOof(value)
    ensures r.Ok? ==> r.value == value
    ensures r == Err(Empty) <==> value == []
    ensures r == Err(SharedOofPath) ==> !DistinctOof(value)
    ensures r == Err(BlankField) ==> !Filled(value)
  {
    if value == [] {
      return Err(Empty);
    }
    var validated: seq<BaseExperiment> := [];
    var seen: map<string, string> := map[];
    for i := 0 to |value|
      invariant validated == value[..i]
      invariant Filled(value[..i]) && DistinctOof(value[..i])
      invariant forall path :: path in seen <==> exists j :: 0 <= j < i && value[j].oofPath == path
    {
      var entry := value[i];
      if entry.experimentId == "" || entry.oofPath == "" {
        return Err(BlankField);
      }
      if entry.oofPath in seen {
        return Err(SharedOofPath);
      }
      seen := seen[entry.oofPath := entry.experimentId];
      validated := validated + [BaseExperiment(entry.experimentId, entry.oofPath)];
      assert value[..i + 1] == value[..i] + [entry];
    }
    assert value[..|value|] == value;
    return Ok(validated);
  }

  lemma IndexedEntryPath(entries: seq<Entry>, i: nat, fields: OofFields, root: seq<string>)
    requires Indexed(entries) && i < |entries|
    requires ExpDir(i) in fields
    ensures ExperimentId(entries[i]) == ExpName(i)
    ensures OofPathFor(entries[i], fields, root) == EnsembleOof(ExpDir(i), true, fields[ExpDir(i)], root)
  {
    RecordedExpDir(i, root);
  }

  lemma EnsembleOofIsNotBlank(oof: OofField, k: nat, root: seq<string>)
    requires CoderOof(oof, k, root).Some?
    ensures EnsembleOof(ExpDir(k), true, oof, root) != ""
  {
    EnsembleReadsWhatCoderChecked(oof, k, root);
    assert Split("", '/') == [""];
    assert Parts("") == [];
  }

  ghost predicate CanBeEnsembled(entries: seq<Entry>, fields: OofFields, root: seq<string>) {
    && entries != []
    && forall i :: 0 <= i < |entries| ==> ExpDir(i) in fields && CoderOof(fields[ExpDir(i)], i, root).Some?
  }

  // At any point of any run, if each recorded results.json still names an out-of-fold file that
  // coder's own check accepts, the ensemble over all experiments so far passes validation.
  lemma RunCanBeEnsembled(max: int, root: seq<string>, outside: nat -> Outside, n: nat, fields: OofFields)
    requires max > 0 && RunAfter(max, root, outside, n).Ok?
    requires CanBeEnsembled(RunAfter(max, root, outside, n).value.world.state.experiments, fields, root)
    ensures
      var value := BaseExperiments(RunAfter(max, root, outside, n).value.world.state.experiments, fields, root);
      value != [] && Filled(value) && DistinctOof(value)
  {
    RunKeepsInv(max, root, outside, n);
    var entries := RunAfter(max, root, outside, n).value.world.state.experiments;
    IndexedCanBeEnsembled(entries, root, fields);
  }

  lemma IndexedCanBeEnsembled(entries: seq<Entry>, root: seq<string>, fields: OofFields)
    requires Indexed(entries)
    requires forall i :: 0 <= i < |entries| ==> ExpDir(i) in fields && CoderOof(fields[ExpDir(i)], i, root).Some?
    ensures Filled(BaseExperiments(entries, fields, root)) && DistinctOof(BaseExperiments(entries, fields, root))
  {
    forall i | 0 <= i < |entries|
      ensures ExperimentId(entries[i]) != "" && OofPathFor(entries[i], fields, root) != ""
    {
      IndexedEntryPath(entries, i, fields, root);
      EnsembleOofIsNotBlank(fields[ExpDir(i)], i, root);
      assert |ExpName(i)| >= 4;
    }
    forall i, j | 0 <= i < j < |entries|
      ensures OofPathFor(entries[i], fields, root) != OofPathFor(entries[j], fields, root)
    {
      IndexedEntryPath(entries, i, fields, root);
      IndexedEntryPath(entries, j, fields, root);
      OofPathsDistinct(i, fields[ExpDir(i)], j, fields[ExpDir(j)], root);
    }
  }
}
