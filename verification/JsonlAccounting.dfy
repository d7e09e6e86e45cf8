// src/observability/jsonl_callback.py: token usage of LLM calls is gathered per enclosing chain run
// and reported in that run's end record. Callback traces are arbitrary: hooks may come in any order,
// repeat, or miss their counterpart.
module JsonlAccounting {
  import opened Common

  type RunId = nat

  // Token counts as extracted from a response: None is "unknown", not zero.
  datatype Usage = Usage(tokensIn: Option<nat>, tokensOut: Option<nat>, model: Option<string>)

  datatype NodeInfo = Unknown | Node(name: string, iteration: string, phase: string)

  datatype Record = StartRecord(node: NodeInfo) | EndRecord(node: NodeInfo, usage: Usage)

  const NO_USAGE := Usage(None, None, None)

  // One hook call. isNode is _is_real_node_event's answer.
  datatype Event =
    | ChainStart(run: RunId, isNode: bool, info: NodeInfo)
    | ChainEnd(run: RunId)
    | ChainError(run: RunId)
    | LlmStart(run: RunId, parent: Option<RunId>, model: Option<string>)
    | LlmEnd(run: RunId, tokensIn: Option<nat>, tokensOut: Option<nat>)
    | LlmError(run: RunId)

  function SumOptional(a: Option<nat>, b: Option<nat>): Option<nat> {
    if a.None? && b.None? then None
    else Some((if a.Some? then a.value else 0) + (if b.Some? then b.value else 0))
  }

  function AddUsage(bucket: Usage, u: Usage): Usage {
    Usage(SumOptional(bucket.tokensIn, u.tokensIn), SumOptional(bucket.tokensOut, u.tokensOut),
          if bucket.model.Some? then bucket.model else u.model)
  }

  // --- the handler -----------------------------------------------------------------

  datatype State = State(
    starts: map<RunId, NodeInfo>,
    parents: map<RunId, Option<RunId>>,
    models: map<RunId, Option<string>>,
    buckets: map<RunId, Usage>,
    skipped: set<RunId>,
    log: seq<Record>)

  const INITIAL := State(map[], map[], map[], map[], {}, [])

  function Lookup<V>(m: map<RunId, V>, run: RunId, default: V): V {
    if run in m then m[run] else default
  }

  function Step(s: State, e: Event): State {
    match e
    case ChainStart(run, isNode, info) =>
      if !isNode then s.(skipped := s.skipped + {run})
      else s.(starts := s.starts[run := info], log := s.log + [StartRecord(info)])
    case ChainEnd(run) =>
      if run in s.skipped then s.(skipped := s.skipped - {run})
      else
        s.(starts := s.starts - {run},
           buckets := s.buckets - {run},
           log := s.log + [EndRecord(Lookup(s.starts, run, Unknown), Lookup(s.buckets, run, NO_USAGE))])
    case ChainError(run) =>
      s.(starts := s.starts - {run}, buckets := s.buckets - {run}, skipped := s.skipped - {run})
    case LlmStart(run, parent, model) =>
      s.(parents := s.parents[run := parent], models := s.models[run := model])
    case LlmEnd(run, tokensIn, tokensOut) =>
      var parent := Lookup(s.parents, run, None);
      var u := Usage(tokensIn, tokensOut, Lookup(s.models, run, None));
      var s' := s.(parents := s.parents - {run}, models := s.models - {run});
      if parent.None? then s'
      else s'.(buckets := s.buckets[parent.value := AddUsage(Lookup(s.buckets, parent.value, NO_USAGE), u)])
    case LlmError(run) =>
      s.(parents := s.parents - {run}, models := s.models - {run})
  }

  class JsonlCallbackHandler {
    var starts: map<RunId, NodeInfo>
    var llmParent: map<RunId, Option<RunId>>
    var llmModel: map<RunId, Option<string>>
    var llmUsage: map<RunId, Usage>
    var skippedChainRuns: set<RunId>
    var log: seq<Record>

    ghost function View(): State
      reads this
    {
      State(starts, llmParent, llmModel, llmUsage, skippedChainRuns, log)
    }

    constructor ()
      ensures View() == INITIAL
    {
      starts, llmParent, llmModel, llmUsage, skippedChainRuns, log := map[], map[], map[], map[], {}, [];
    }

    method OnChainStart(run: RunId, isNode: bool, info: NodeInfo)
      modifies this
      ensures View() == Step(old(View()), ChainStart(run, isNode, info))
    {
      if !isNode {
        skippedChainRuns := skippedChainRuns + {run};
        return;
      }
      starts := starts[run := info];
      log := log + [StartRecord(info)];
    }

    method OnChainEnd(run: RunId)
      modifies this
      ensures View() == Step(old(View()), ChainEnd(run))
    {
      if run in skippedChainRuns {
        skippedChainRuns := skippedChainRuns - {run};
        return;
      }
      var node := if run in starts then starts[run] else Unknown;
      starts := starts - {run};
      var usage := NO_USAGE;
      if run in llmUsage {
        usage := llmUsage[run];
      }
      llmUsage := llmUsage - {run};
      log := log + [EndRecord(node, usage)];
    }

    method OnChainError(run: RunId)
      modifies this
      ensures View() == Step(old(View()), ChainError(run))
    {
      starts := starts - {run};
      llmUsage := llmUsage - {run};
      skippedChainRuns := skippedChainRuns - {run};
    }

    method OnLlmStart(run: RunId, parent: Option<RunId>, model: Option<string>)
      modifies this
      ensures View() == Step(old(View()), LlmStart(run, parent, model))
    {
      llmParent := llmParent[run := parent];
      llmModel := llmModel[run := model];
    }

    method OnLlmEnd(run: RunId, tokensIn: Option<nat>, tokensOut: Option<nat>)
      modifies this`llmParent, this`llmModel, this`llmUsage
      ensures View() == Step(old(View()), LlmEnd(run, tokensIn, tokensOut))
    {
      ghost var buckets := llmUsage;
      var parent := if run in llmParent then llmParent[run] else None;
      var model := if run in llmModel then llmModel[run] else None;
      llmParent := llmParent - {run};
      llmModel := llmModel - {run};
      if parent.Some? {
        if parent.value !in llmUsage {
          llmUsage := llmUsage[parent.value := NO_USAGE];
        }
        var bucket := llmUsage[parent.value];
        assert bucket == Lookup(buckets, parent.value, NO_USAGE);
        bucket := bucket.(tokensIn := SumOptional(bucket.tokensIn, tokensIn));
        bucket := bucket.(tokensOut := SumOptional(bucket.tokensOut, tokensOut));
        bucket := bucket.(model := if bucket.model.Some? then bucket.model else model);
        llmUsage := llmUsage[parent.value := bucket];
        assert llmUsage == buckets[parent.value := bucket];
      }
    }

    method OnLlmError(run: RunId)
      modifies this
      ensures View() == Step(old(View()), LlmError(run))
    {
      llmParent := llmParent - {run};
      llmModel := llmModel - {run};
    }
  }

  function After(trace: seq<Event>): State {
    if trace == [] then INITIAL else Step(After(trace[..|trace| - 1]), trace[|trace| - 1])
  }

  // --- what a trace means, without the handler's maps ------------------------------

  // The start of call `run` that is still open after the trace, if any.
  function OpenCall(trace: seq<Event>, run: RunId): Option<Event> {
    if trace == [] then None
    else
      var e := trace[|trace| - 1];
      if e.LlmStart? && e.run == run then Some(e)
      else if (e.LlmEnd? || e.LlmError?) && e.run == run then None
      else OpenCall(trace[..|trace| - 1], run)
  }

  // Whether the trace has marked `run` as plumbing and not used the mark up.
  function MarkedPlumbing(trace: seq<Event>, run: RunId): bool {
    if trace == [] then false
    else
      var e := trace[|trace| - 1];
      if e.ChainStart? && e.run == run && !e.isNode then true
      else if (e.ChainEnd? || e.ChainError?) && e.run == run then false
      else MarkedPlumbing(trace[..|trace| - 1], run)
  }

  // What the last event contributes, and to which chain run.
  function Contribution(before: seq<Event>, e: Event): Option<(RunId, Usage)> {
    if !e.LlmEnd? then None
    else
      match OpenCall(before, e.run)
      case Some(LlmStart(_, Some(parent), model)) => Some((parent, Usage(e.tokensIn, e.tokensOut, model)))
      case _ => None
  }

  predicate Reports(before: seq<Event>, e: Event, chain: RunId) {
    e.ChainEnd? && e.run == chain && !MarkedPlumbing(before, chain)
  }

  predicate Discards(e: Event, chain: RunId) {
    e.ChainError? && e.run == chain
  }

  // The contributions to a chain run not yet reported or discarded, in order.
  function Pending(trace: seq<Event>, chain: RunId): seq<Usage> {
    if trace == [] then []
    else
      var before, e := trace[..|trace| - 1], trace[|trace| - 1];
      if Reports(before, e, chain) || Discards(e, chain) then []
      else
        match Contribution(before, e)
        case Some((parent, u)) => if parent == chain then Pending(before, chain) + [u] else Pending(before, chain)
        case None => Pending(before, chain)
  }

  // Which of the two token counts.
  datatype Side = In | Out

  function Count(u: Usage, side: Side): Option<nat> {
    if side == In then u.tokensIn else u.tokensOut
  }

  function Known(u: Usage, side: Side): nat {
    var c := Count(u, side);
    if c.Some? then c.value else 0
  }

  function SumKnown(us: seq<Usage>, side: Side): nat {
    if us == [] then 0 else SumKnown(us[..|us| - 1], side) + Known(us[|us| - 1], side)
  }

  // The first model named.
  ghost predicate NamesFirst(model: Option<string>, us: seq<Usage>) {
    && (model.None? <==> forall i :: 0 <= i < |us| ==> us[i].model.None?)
    && (model.Some? ==> exists i :: 0 <= i < |us| && us[i].model == model && forall j :: 0 <= j < i ==> us[j].model.None?)
  }

  // What a report over these contributions must say: unknown exactly when every count is unknown,
  // else the sum of the known ones; and the first model named.
  ghost predicate Summarizes(u: Usage, us: seq<Usage>) {
    && (forall side :: Count(u, side).None? <==> forall i :: 0 <= i < |us| ==> Count(us[i], side).None?)
    && (forall side :: Known(u, side) == SumKnown(us, side))
    && NamesFirst(u.model, us)
  }

  // In figures: an unknown count adds nothing.
  lemma KnownTokens(u: Usage)
    ensures Count(u, In) == u.tokensIn && Count(u, Out) == u.tokensOut
    ensures Known(u, In) == match u.tokensIn case Some(n) => n case None => 0
    ensures Known(u, Out) == match u.tokensOut case Some(n) => n case None => 0
  {
  }

  lemma NothingIsSummarized()
    ensures Summarizes(NO_USAGE, [])
  {
  }

  lemma CountsAdd(bucket: Usage, us: seq<Usage>, u: Usage, side: Side)
    requires Count(bucket, side).None? <==> forall i :: 0 <= i < |us| ==> Count(us[i], side).None?
    requires Known(bucket, side) == SumKnown(us, side)
    ensures
      var b, all := AddUsage(bucket, u), us + [u];
      && (Count(b, side).None? <==> forall i :: 0 <= i < |all| ==> Count(all[i], side).None?)
      && Known(b, side) == SumKnown(all, side)
  {
    var all := us + [u];
    assert all[..|us|] == us && all[|us|] == u;
    assert forall i :: 0 <= i < |us| ==> all[i] == us[i];
    assert Count(AddUsage(bucket, u), side) == SumOptional(Count(bucket, side), Count(u, side));
  }

  lemma ModelAdds(model: Option<string>, us: seq<Usage>, u: Usage)
    requires NamesFirst(model, us)
    ensures NamesFirst(if model.Some? then model else u.model, us + [u])
  {
    var all := us + [u];
    assert all[|us|] == u;
    assert forall i :: 0 <= i < |us| ==> all[i] == us[i];
    if model.Some? {
      var i :| 0 <= i < |us| && us[i].model == model && forall j :: 0 <= j < i ==> us[j].model.None?;
      assert all[i].model == model;
    }
  }

  lemma AddUsageSummarizes(bucket: Usage, us: seq<Usage>, u: Usage)
    requires Summarizes(bucket, us)
    ensures Summarizes(AddUsage(bucket, u), us + [u])
  {
    hide NamesFirst, SumKnown;
    ModelAdds(bucket.model, us, u);
    hide AddUsage;
    forall side
      ensures Known(AddUsage(bucket, u), side) == SumKnown(us + [u], side)
      ensures Count(AddUsage(bucket, u), side).None? <==>
                forall i :: 0 <= i < |us + [u]| ==> Count((us + [u])[i], side).None?
    {
      CountsAdd(bucket, us, u, side);
    }
  }

  // --- the handler agrees with the trace -------------------------------------------

  ghost predicate CallsAgree(trace: seq<Event>) {
    var s := After(trace);
    && s.models.Keys == s.parents.Keys
    && (forall run :: run in s.parents <==> OpenCall(trace, run).Some?)
    && forall run :: run in s.parents ==> OpenCall(trace, run) == Some(LlmStart(run, s.parents[run], s.models[run]))
  }

  lemma {:induction false} CallsAgreeAlways(trace: seq<Event>)
    ensures CallsAgree(trace)
  {
    hide AddUsage, Lookup;
    if trace != [] {
      CallsAgreeAlways(trace[..|trace| - 1]);
    }
  }

  lemma {:induction false} MarksAgreeAlways(trace: seq<Event>)
    ensures forall run :: run in After(trace).skipped <==> MarkedPlumbing(trace, run)
  {
    if trace != [] {
      MarksAgreeAlways(trace[..|trace| - 1]);
    }
  }

  // A bucket is held exactly while contributions are pending, and sums them up.
  ghost predicate BucketFits(s: State, trace: seq<Event>, chain: RunId) {
    var us := Pending(trace, chain);
    (chain in s.buckets <==> us != []) && Summarizes(Lookup(s.buckets, chain, NO_USAGE), us)
  }

  lemma {:induction false} BucketsAgreeAlways(trace: seq<Event>, chain: RunId)
    ensures BucketFits(After(trace), trace, chain)
  {
    hide Summarizes, OpenCall, CallsAgree;
    NothingIsSummarized();
    if trace != [] {
      var before, e := trace[..|trace| - 1], trace[|trace| - 1];
      BucketsAgreeAlways(before, chain);
      CallsAgreeAlways(before);
      MarksAgreeAlways(before);
      ContributionSeen(before, e);
      var s := After(before);
      var c := Contribution(before, e);
      if c.Some? && c.value.0 == chain {
        AddUsageSummarizes(Lookup(s.buckets, chain, NO_USAGE), Pending(before, chain), c.value.1);
      }
    }
  }

  // The handler's own bookkeeping finds the contribution the trace implies.
  lemma ContributionSeen(before: seq<Event>, e: Event)
    requires CallsAgree(before)
    ensures
      var s, s', c := After(before), Step(After(before), e), Contribution(before, e);
      && (c.Some? ==>
            s'.buckets == s.buckets[c.value.0 := AddUsage(Lookup(s.buckets, c.value.0, NO_USAGE), c.value.1)])
      && (c.None? && e.LlmEnd? ==> s'.buckets == s.buckets)
  {
    if e.LlmEnd? {
      var s := After(before);
      assert e.run in s.parents <==> OpenCall(before, e.run).Some?;
    }
  }

  // The node the last start of `run` named, unless the run has ended since.
  function StartedNode(trace: seq<Event>, run: RunId): NodeInfo {
    if trace == [] then Unknown
    else
      var before, e := trace[..|trace| - 1], trace[|trace| - 1];
      if e.ChainStart? && e.run == run && e.isNode then e.info
      else if Reports(before, e, run) || Discards(e, run) then Unknown
      else StartedNode(before, run)
  }

  lemma {:induction false} StartsAgreeAlways(trace: seq<Event>, run: RunId)
    ensures Lookup(After(trace).starts, run, Unknown) == StartedNode(trace, run)
  {
    if trace != [] {
      var before := trace[..|trace| - 1];
      StartsAgreeAlways(before, run);
      MarksAgreeAlways(before);
      hide OpenCall, AddUsage, Contribution;
    }
  }

  // Every end record names the node its chain run started as and reports exactly what the run's LLM
  // calls contributed since its last report.
  lemma EndRecordIsExact(before: seq<Event>, chain: RunId)
    requires !MarkedPlumbing(before, chain)
    ensures
      var s, s' := After(before), Step(After(before), ChainEnd(chain));
      && |s'.log| == |s.log| + 1 && s'.log[..|s.log|] == s.log
      && s'.log[|s.log|].EndRecord?
      && s'.log[|s.log|].node == StartedNode(before, chain)
      && Summarizes(s'.log[|s.log|].usage, Pending(before, chain))
  {
    MarksAgreeAlways(before);
    StartsAgreeAlways(before, chain);
    BucketsAgreeAlways(before, chain);
  }

  // The other hooks: a node's start is recorded as it is, and nothing else writes a record.
  lemma OtherRecords(before: seq<Event>, e: Event)
    requires e.ChainEnd? ==> MarkedPlumbing(before, e.run)
    ensures
      var s, s' := After(before), Step(After(before), e);
      s'.log == s.log + if e.ChainStart? && e.isNode then [StartRecord(e.info)] else []
  {
    MarksAgreeAlways(before);
  }

  // --- conservation ----------------------------------------------------------------

  function Gained(before: seq<Event>, e: Event, side: Side): nat {
    var c := Contribution(before, e);
    if c.Some? then Known(c.value.1, side) else 0
  }

  // Tokens of ended LLM calls that had a parent.
  function Contributed(trace: seq<Event>, side: Side): nat {
    if trace == [] then 0
    else
      var before := trace[..|trace| - 1];
      Contributed(before, side) + Gained(before, trace[|trace| - 1], side)
  }

  // Tokens in emitted end records.
  function Emitted(log: seq<Record>, side: Side): nat {
    if log == [] then 0
    else
      Emitted(log[..|log| - 1], side) +
      if log[|log| - 1].EndRecord? then Known(log[|log| - 1].usage, side) else 0
  }

  // Tokens in buckets thrown away when their chain run failed.
  function Discarded(trace: seq<Event>, side: Side): nat {
    if trace == [] then 0
    else
      var before, e := trace[..|trace| - 1], trace[|trace| - 1];
      Discarded(before, side) +
      if e.ChainError? then Known(Lookup(After(before).buckets, e.run, NO_USAGE), side) else 0
  }

  // Tokens in buckets not yet reported, those under plumbing runs included.
  ghost function Held(buckets: map<RunId, Usage>, side: Side): nat
    decreases |buckets|
  {
    if buckets == map[] then 0
    else
      var k :| k in buckets;
      Known(buckets[k], side) + Held(buckets - {k}, side)
  }

  lemma {:induction false} HeldWithout(buckets: map<RunId, Usage>, k: RunId, side: Side)
    requires k in buckets
    ensures Held(buckets, side) == Known(buckets[k], side) + Held(buckets - {k}, side)
    decreases |buckets|
  {
    var j :| j in buckets && Held(buckets, side) == Known(buckets[j], side) + Held(buckets - {j}, side);
    if j != k {
      HeldWithout(buckets - {j}, k, side);
      HeldWithout(buckets - {k}, j, side);
      assert buckets - {j} - {k} == buckets - {k} - {j};
    }
  }

  lemma HeldUpdate(buckets: map<RunId, Usage>, k: RunId, u: Usage, side: Side)
    ensures Held(buckets[k := u], side) + Known(Lookup(buckets, k, NO_USAGE), side) == Held(buckets, side) + Known(u, side)
    ensures Held(buckets - {k}, side) + Known(Lookup(buckets, k, NO_USAGE), side) == Held(buckets, side)
  {
    HeldWithout(buckets[k := u], k, side);
    assert buckets[k := u] - {k} == buckets - {k};
    if k in buckets {
      HeldWithout(buckets, k, side);
    } else {
      assert buckets - {k} == buckets;
    }
  }

  // No token is lost or counted twice: what ended calls used is what end records report, plus what is
  // still held, plus what failed chain runs took with them.
  lemma {:induction false} TokensAreConserved(trace: seq<Event>, side: Side)
    ensures Contributed(trace, side) ==
            Emitted(After(trace).log, side) + Held(After(trace).buckets, side) + Discarded(trace, side)
  {
    if trace != [] {
      var before, e := trace[..|trace| - 1], trace[|trace| - 1];
      TokensAreConserved(before, side);
      CallsAgreeAlways(before);
      ContributionSeen(before, e);
      StepConserves(before, e, side);
    }
  }

  lemma CallEndConserves(before: seq<Event>, e: Event, side: Side)
    requires CallsAgree(before) && e.LlmEnd?
    ensures
      var s, s' := After(before), Step(After(before), e);
      Held(s'.buckets, side) == Held(s.buckets, side) + Gained(before, e, side)
  {
    hide OpenCall, After, AddUsage;
    ContributionSeen(before, e);
    var s, c := After(before), Contribution(before, e);
    if c.Some? {
      var (parent, usage) := c.value;
      var held := Lookup(s.buckets, parent, NO_USAGE);
      HeldUpdate(s.buckets, parent, AddUsage(held, usage), side);
      KnownAdds(held, usage, side);
    }
  }

  lemma KnownAdds(held: Usage, added: Usage, side: Side)
    ensures Known(AddUsage(held, added), side) == Known(held, side) + Known(added, side)
  {
  }

  lemma StepConserves(before: seq<Event>, e: Event, side: Side)
    requires CallsAgree(before)
    ensures
      var s, s' := After(before), Step(After(before), e);
      var gained := Gained(before, e, side);
      var dropped := if e.ChainError? then Known(Lookup(s.buckets, e.run, NO_USAGE), side) else 0;
      Emitted(s'.log, side) + Held(s'.buckets, side) + dropped ==
      Emitted(s.log, side) + Held(s.buckets, side) + gained
  {
    hide OpenCall, After;
    var s, s' := After(before), Step(After(before), e);
    if s'.log != s.log {
      assert s'.log[..|s.log|] == s.log;
    }
    match e
    case ChainEnd(run) => HeldUpdate(s.buckets, run, NO_USAGE, side);
    case ChainError(run) => HeldUpdate(s.buckets, run, NO_USAGE, side);
    case LlmEnd(_, _, _) => CallEndConserves(before, e, side);
    case _ =>
  }
}
