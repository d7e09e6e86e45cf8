// frontend/src/components/PipelineView.tsx: pipeline events become timeline entries; an end closes the
// oldest open start of its key. Event traces are arbitrary: a node may start several times, and ends
// may arrive without a start.
module Timeline {
  import opened Common

  type Key = string

  datatype Event = Event(
    phase: string, iteration: string, node: string, isStart: bool, durationMs: Option<int>, summary: Option<string>)

  function CorrelationKey(e: Event): Key {
    e.phase + "::" + e.iteration + "::" + e.node
  }

  datatype Entry = Entry(id: nat, node: string, done: bool, durationMs: Option<int>, summary: Option<string>)

  function Running(id: nat, e: Event): Entry {
    Entry(id, e.node, false, None, None)
  }

  function Done(id: nat, node: string, e: Event): Entry {
    Entry(id, node, true, e.durationMs, e.summary)
  }

  // timeline.map(...) in the closing branch
  function Close(timeline: seq<Entry>, id: nat, e: Event): seq<Entry> {
    seq(|timeline|, i requires 0 <= i < |timeline| =>
      if timeline[i].id == id then Done(id, timeline[i].node, e) else timeline[i])
  }

  function Queue(open: map<Key, seq<nat>>, key: Key): seq<nat> {
    if key in open then open[key] else []
  }

  datatype State = State(timeline: seq<Entry>, open: map<Key, seq<nat>>)

  function Step(s: State, e: Event, nextId: nat): State {
    var key := CorrelationKey(e);
    var queue := Queue(s.open, key);
    if e.isStart then
      State(s.timeline + [Running(nextId, e)], s.open[key := queue + [nextId]])
    else if queue == [] then
      s.(timeline := s.timeline + [Done(nextId, e.node, e)])
    else
      State(Close(s.timeline, queue[0], e), s.open[key := queue[1..]])
  }

  class OpenEntries {
    var queues: map<Key, seq<nat>>

    constructor ()
      ensures queues == map[]
    {
      queues := map[];
    }

    // applyEventToTimeline: the queues change in place, the timeline is a fresh one.
    method ApplyEvent(timeline: seq<Entry>, e: Event, nextId: nat) returns (updated: seq<Entry>)
      modifies this
      ensures State(updated, queues) == Step(State(timeline, old(queues)), e, nextId)
    {
      var key := CorrelationKey(e);
      if e.isStart {
        var queue := if key in queues then queues[key] else [];
        queue := queue + [nextId];
        queues := queues[key := queue];
        return timeline + [Running(nextId, e)];
      }
      if key !in queues || queues[key] == [] {
        return timeline + [Done(nextId, e.node, e)];
      }
      var openId := queues[key][0];
      queues := queues[key := queues[key][1..]];
      return Close(timeline, openId, e);
    }
  }

  // A whole trace; the id handed to event i is i.
  function After(trace: seq<Event>): State {
    if trace == [] then State([], map[])
    else Step(After(trace[..|trace| - 1]), trace[|trace| - 1], |trace| - 1)
  }

  // --- what the timeline should say ------------------------------------------------

  predicate StartsKey(e: Event, key: Key) {
    e.isStart && CorrelationKey(e) == key
  }

  predicate EndsKey(e: Event, key: Key) {
    !e.isStart && CorrelationKey(e) == key
  }

  // The starts of a key, by event number.
  function Starts(trace: seq<Event>, key: Key): (r: seq<nat>)
    ensures forall i :: 0 <= i < |r| ==> r[i] < |trace| && StartsKey(trace[r[i]], key)
    ensures forall i, j :: 0 <= i < j < |r| ==> r[i] < r[j]
  {
    if trace == [] then []
    else
      var r := Starts(trace[..|trace| - 1], key);
      if StartsKey(trace[|trace| - 1], key) then r + [|trace| - 1] else r
  }

  // The ends of a key that come while more starts than earlier such ends have been seen.
  function Matched(trace: seq<Event>, key: Key): (r: seq<nat>)
    ensures |r| <= |Starts(trace, key)|
    ensures forall i :: 0 <= i < |r| ==> r[i] < |trace| && EndsKey(trace[r[i]], key)
  {
    if trace == [] then []
    else
      var before := trace[..|trace| - 1];
      var r := Matched(before, key);
      if EndsKey(trace[|trace| - 1], key) && |r| < |Starts(before, key)| then r + [|trace| - 1] else r
  }

  // Events that get an entry of their own: starts, and ends that match no start.
  predicate HasEntry(trace: seq<Event>, i: nat)
    requires i < |trace|
  {
    trace[i].isStart ||
    |Matched(trace[..i], CorrelationKey(trace[i]))| == |Starts(trace[..i], CorrelationKey(trace[i]))|
  }

  // Event i's entry after the trace: the r-th start of its key is closed by the r-th matching end.
  function EntryOf(trace: seq<Event>, i: nat): Entry
    requires i < |trace|
  {
    var e := trace[i];
    var key := CorrelationKey(e);
    if !e.isStart then Entry(i, e.node, true, e.durationMs, e.summary)
    else
      var rank, ends := |Starts(trace[..i], key)|, Matched(trace, key);
      if rank < |ends| then
        Entry(i, e.node, true, trace[ends[rank]].durationMs, trace[ends[rank]].summary)
      else Entry(i, e.node, false, None, None)
  }

  function Shown(trace: seq<Event>, n: nat): seq<nat>
    requires n <= |trace|
  {
    if n == 0 then []
    else if HasEntry(trace, n - 1) then Shown(trace, n - 1) + [n - 1]
    else Shown(trace, n - 1)
  }

  function Expected(trace: seq<Event>): seq<Entry> {
    var shown := Shown(trace, |trace|);
    ShownInRange(trace, |trace|);
    seq(|shown|, k requires 0 <= k < |shown| => EntryOf(trace, shown[k]))
  }

  lemma {:induction false} ShownInRange(trace: seq<Event>, n: nat)
    requires n <= |trace|
    ensures forall k :: 0 <= k < |Shown(trace, n)| ==> Shown(trace, n)[k] < n && HasEntry(trace, Shown(trace, n)[k])
  {
    if n > 0 {
      ShownInRange(trace, n - 1);
    }
  }

  // --- the timeline says it --------------------------------------------------------

  // A start's place among the starts of its key is the number of starts of that key before it.
  lemma {:induction false} StartRank(trace: seq<Event>, key: Key, i: nat)
    requires i < |trace| && StartsKey(trace[i], key)
    ensures |Starts(trace[..i], key)| < |Starts(trace, key)|
    ensures Starts(trace, key)[|Starts(trace[..i], key)|] == i
  {
    hide CorrelationKey;
    var before := trace[..|trace| - 1];
    if i < |before| {
      StartRank(before, key, i);
      assert before[..i] == trace[..i];
    } else {
      assert trace[..i] == before;
    }
  }

  // What came before the last event is read off the same way with and without it.
  lemma {:induction false} ShownKeepsPrefix(before: seq<Event>, e: Event, n: nat)
    requires n <= |before|
    ensures Shown(before + [e], n) == Shown(before, n)
  {
    if n > 0 {
      ShownKeepsPrefix(before, e, n - 1);
      assert (before + [e])[..n - 1] == before[..n - 1];
    }
  }

  ghost predicate QueuesFit(s: State, trace: seq<Event>) {
    forall key :: Queue(s.open, key) == Starts(trace, key)[|Matched(trace, key)|..]
  }

  lemma QueuesStep(s: State, before: seq<Event>, e: Event)
    requires QueuesFit(s, before)
    ensures QueuesFit(Step(s, e, |before|), before + [e])
  {
    hide CorrelationKey;
    var trace, s' := before + [e], Step(s, e, |before|);
    assert trace[..|before|] == before;
    forall key ensures Queue(s'.open, key) == Starts(trace, key)[|Matched(trace, key)|..] {
      assert Queue(s.open, key) == Starts(before, key)[|Matched(before, key)|..];
      assert key != CorrelationKey(e) ==> Queue(s'.open, key) == Queue(s.open, key);
    }
  }

  lemma EntryKept(before: seq<Event>, e: Event, i: nat)
    requires i < |before|
    requires
      var key := CorrelationKey(before[i]);
      !EndsKey(e, key) || !before[i].isStart || |Matched(before, key)| == |Starts(before, key)|
      || |Starts(before[..i], key)| != |Matched(before, key)|
    ensures EntryOf(before + [e], i) == EntryOf(before, i)
  {
    hide CorrelationKey;
    var trace := before + [e];
    assert trace[..i] == before[..i] && trace[..|before|] == before;
  }

  lemma ClosingStep(before: seq<Event>, e: Event)
    requires !e.isStart && |Matched(before, CorrelationKey(e))| < |Starts(before, CorrelationKey(e))|
    ensures
      var key := CorrelationKey(e);
      Expected(before + [e]) == Close(Expected(before), Starts(before, key)[|Matched(before, key)|], e)
  {
    hide CorrelationKey;
    var trace, key, n := before + [e], CorrelationKey(e), |before|;
    var m := |Matched(before, key)|;
    var id := Starts(before, key)[m];
    assert trace[..n] == before;
    assert Matched(trace, key) == Matched(before, key) + [n];
    ShownKeepsPrefix(before, e, n);
    ShownInRange(before, n);
    var shown := Shown(before, n);
    assert Shown(trace, n + 1) == shown;
    forall k | 0 <= k < |shown|
      ensures EntryOf(trace, shown[k]) == Close(Expected(before), id, e)[k]
    {
      ClosingEntry(before, e, shown[k]);
      assert Expected(before)[k] == EntryOf(before, shown[k]);
    }
  }

  // An end closes the oldest start still open and leaves every other entry alone.
  lemma ClosingEntry(before: seq<Event>, e: Event, i: nat)
    requires i < |before|
    requires !e.isStart && |Matched(before, CorrelationKey(e))| < |Starts(before, CorrelationKey(e))|
    ensures
      var key := CorrelationKey(e);
      EntryOf(before + [e], i) ==
      if i == Starts(before, key)[|Matched(before, key)|] then Done(i, EntryOf(before, i).node, e) else EntryOf(before, i)
  {
    hide CorrelationKey;
    var key := CorrelationKey(e);
    var m := |Matched(before, key)|;
    if i == Starts(before, key)[m] {
      assert StartsKey(before[i], key);
      ClosedEntry(before, e, i);
    } else {
      if before[i].isStart && CorrelationKey(before[i]) == key {
        StartRank(before, key, i);
      }
      hide Matched, Starts, EntryOf;
      EntryKept(before, e, i);
    }
  }

  lemma ClosedEntry(before: seq<Event>, e: Event, i: nat)
    requires i < |before| && StartsKey(before[i], CorrelationKey(e))
    requires !e.isStart && |Matched(before, CorrelationKey(e))| < |Starts(before, CorrelationKey(e))|
    requires i == Starts(before, CorrelationKey(e))[|Matched(before, CorrelationKey(e))|]
    ensures EntryOf(before + [e], i) == Done(i, EntryOf(before, i).node, e)
  {
    hide CorrelationKey, Matched, Starts;
    var trace, key := before + [e], CorrelationKey(e);
    RankOfStart(before, key, |Matched(before, key)|);
    MatchingEnd(before, e);
    SamePrefix(before, e, i);
  }

  lemma RankOfStart(trace: seq<Event>, key: Key, m: nat)
    requires m < |Starts(trace, key)|
    ensures |Starts(trace[..Starts(trace, key)[m]], key)| == m
  {
    hide CorrelationKey, Starts;
    StartRank(trace, key, Starts(trace, key)[m]);
  }

  lemma MatchingEnd(before: seq<Event>, e: Event)
    requires !e.isStart && |Matched(before, CorrelationKey(e))| < |Starts(before, CorrelationKey(e))|
    ensures Matched(before + [e], CorrelationKey(e)) == Matched(before, CorrelationKey(e)) + [|before|]
  {
    hide CorrelationKey, Starts;
    assert (before + [e])[..|before|] == before;
  }

  lemma SamePrefix(before: seq<Event>, e: Event, i: nat)
    requires i < |before|
    ensures (before + [e])[..i] == before[..i] && (before + [e])[i] == before[i] && (before + [e])[|before|] == e
  {
  }

  lemma AppendingStep(before: seq<Event>, e: Event)
    requires e.isStart || |Matched(before, CorrelationKey(e))| == |Starts(before, CorrelationKey(e))|
    ensures
      Expected(before + [e]) ==
      Expected(before) + [if e.isStart then Running(|before|, e) else Done(|before|, e.node, e)]
  {
    hide CorrelationKey;
    var trace, n := before + [e], |before|;
    assert trace[..n] == before;
    ShownKeepsPrefix(before, e, n);
    ShownInRange(before, n);
    var shown := Shown(before, n);
    assert Shown(trace, n + 1) == shown + [n];
    forall k | 0 <= k < |shown| ensures EntryOf(trace, shown[k]) == EntryOf(before, shown[k]) {
      EntryKept(before, e, shown[k]);
    }
    assert EntryOf(trace, n) == if e.isStart then Running(n, e) else Done(n, e.node, e);
  }

  // After any trace the timeline holds, in event order, one entry per start and per unmatched end,
  // with the r-th start of a key closed by the r-th matching end and every other start still running;
  // and each key's queue holds the starts still open, oldest first.
  lemma {:induction false} TimelineIsExpected(trace: seq<Event>)
    ensures After(trace).timeline == Expected(trace)
    ensures QueuesFit(After(trace), trace)
  {
    hide CorrelationKey;
    if trace != [] {
      var before, e := trace[..|trace| - 1], trace[|trace| - 1];
      var key, s := CorrelationKey(e), After(before);
      assert trace == before + [e];
      TimelineIsExpected(before);
      QueuesStep(s, before, e);
      assert Queue(s.open, key) == Starts(before, key)[|Matched(before, key)|..];
      if e.isStart || Queue(s.open, key) == [] {
        AppendingStep(before, e);
      } else {
        ClosingStep(before, e);
      }
    }
  }

  // Which entries are running is what the queues say: id i is open under its key exactly when its
  // entry is a running one.
  lemma RunningEntriesAreQueued(trace: seq<Event>, i: nat)
    requires i < |trace|
    ensures i in Queue(After(trace).open, CorrelationKey(trace[i])) <==> !EntryOf(trace, i).done
  {
    hide CorrelationKey;
    var key := CorrelationKey(trace[i]);
    hide Expected, After;
    TimelineIsExpected(trace);
    var starts, m := Starts(trace, key), |Matched(trace, key)|;
    assert Queue(After(trace).open, key) == starts[m..];
    if trace[i].isStart {
      StartRank(trace, key, i);
      var rank := |Starts(trace[..i], key)|;
      if rank >= m {
        assert starts[m..][rank - m] == i;
      }
    }
  }

  // Events of one node in one phase and iteration share a key, a start and its end among them.
  lemma NodeSharesKey(a: Event, b: Event)
    requires a.phase == b.phase && a.iteration == b.iteration && a.node == b.node
    ensures CorrelationKey(a) == CorrelationKey(b)
  {
  }

  // Phases and iterations hold no colon, so the three parts can be read back from the key.
  lemma {:induction false} KeyIdentifiesNode(a: Event, b: Event)
    requires ':' !in a.phase && ':' !in a.iteration && ':' !in b.phase && ':' !in b.iteration
    requires CorrelationKey(a) == CorrelationKey(b)
    ensures a.phase == b.phase && a.iteration == b.iteration && a.node == b.node
  {
    var restA, restB := ":" + a.iteration + "::" + a.node, ":" + b.iteration + "::" + b.node;
    assert CorrelationKey(a) == a.phase + [':'] + restA;
    assert CorrelationKey(b) == b.phase + [':'] + restB;
    FirstColon(a.phase, restA, b.phase, restB);
    assert restA[1..] == a.iteration + [':'] + (":" + a.node);
    assert restB[1..] == b.iteration + [':'] + (":" + b.node);
    FirstColon(a.iteration, ":" + a.node, b.iteration, ":" + b.node);
    assert (":" + a.node)[1..] == a.node && (":" + b.node)[1..] == b.node;
  }

  lemma FirstColon(a: string, x: string, b: string, y: string)
    requires ':' !in a && ':' !in b
    requires a + [':'] + x == b + [':'] + y
    ensures a == b && x == y
  {
    var s := a + [':'] + x;
    assert s[|a|] == ':' && s[|b|] == ':';
    assert forall i :: 0 <= i < |a| ==> s[i] == a[i] != ':';
    assert forall i :: 0 <= i < |b| ==> s[i] == b[i] != ':';
    assert s[..|a|] == a && s[..|b|] == b;
    assert s[|a| + 1..] == x && s[|b| + 1..] == y;
  }
}
