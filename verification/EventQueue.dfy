// src/api/event_emitter.py, the tail of src/api/routers/runs.py's _run_and_track and the consumer of
// src/api/routers/events.py: worker threads hand events to the event loop, the loop puts them on a
// bounded queue that drops its oldest item when full, and one consumer drains it until STREAM_END.
module EventQueue {
  const MAXSIZE: nat := 1000

  datatype Item = Event(id: nat) | StreamEnd

  // put_event_dropping_oldest, as a function of the queue's content.
  function PutDropping(queue: seq<Item>, item: Item, maxsize: nat): seq<Item>
    requires maxsize > 0 && |queue| <= maxsize
  {
    if |queue| < maxsize then queue + [item] else queue[1..] + [item]
  }

  // An asyncio.Queue as seen from the loop's own thread.
  class BoundedQueue {
    const maxsize: nat
    var items: seq<Item>

    ghost predicate Valid()
      reads this
    {
      maxsize > 0 && |items| <= maxsize
    }

    constructor (maxsize: nat)
      requires maxsize > 0
      ensures Valid() && items == [] && this.maxsize == maxsize
    {
      this.maxsize := maxsize;
      items := [];
    }

    method PutNowait(item: Item) returns (ok: bool)
      requires Valid()
      modifies this`items
      ensures Valid() && ok == (|old(items)| < maxsize)
      ensures items == if ok then old(items) + [item] else old(items)
    {
      ok := |items| < maxsize;
      if ok {
        items := items + [item];
      }
    }

    method GetNowait() returns (ok: bool, item: Item)
      requires Valid()
      modifies this`items
      ensures Valid() && ok == (old(items) != [])
      ensures ok ==> old(items) == [item] + items
      ensures !ok ==> items == []
    {
      ok := items != [];
      item := StreamEnd;
      if ok {
        item, items := items[0], items[1..];
      }
    }

    // The item is never the one that gets lost.
    method PutEventDroppingOldest(item: Item)
      requires Valid()
      modifies this`items
      ensures Valid() && items == PutDropping(old(items), item, maxsize)
      ensures items[|items| - 1] == item
    {
      var ok := PutNowait(item);
      if !ok {
        var _, _ := GetNowait();
        var _ := PutNowait(item);
      }
    }
  }

  // --- one tracked run -------------------------------------------------------------

  // Callbacks waiting on the event loop, oldest first: a put from a worker thread, or the wake-up of
  // _run_and_track itself.
  datatype Callback = Put(item: Item) | Wake

  // Where _run_and_track stands. While it is in a thread, worker code runs and may emit; the thread's
  // return is handed to the loop behind everything the thread emitted.
  datatype Phase = Scheduled | Invoking | InvokeReturned | Snapshotting | SnapshotReturned | Finished

  // log: everything ever put, in order. delivered: what the consumer has taken.
  datatype State = State(
    phase: Phase, ready: seq<Callback>, queue: seq<Item>, log: seq<Item>, delivered: seq<Item>, closed: bool)

  const INITIAL := State(Scheduled, [Wake], [], [], [], false)

  // One atomic step of anybody. A step that is not possible changes nothing.
  datatype Action =
    | WorkerEmits(id: nat)      // call_soon_threadsafe from a hook
    | WorkerReturns             // the function given to to_thread returns or raises
    | LoopRuns(raises: bool)    // the oldest callback runs; raises: the awaited step raised
    | ConsumerGets

  predicate InThread(s: State) {
    s.phase == Invoking || s.phase == Snapshotting
  }

  function PutItem(s: State, item: Item): State
    requires |s.queue| <= MAXSIZE
  {
    s.(queue := PutDropping(s.queue, item, MAXSIZE), log := s.log + [item])
  }

  // _run_and_track resumed: into the next thread, or through `finally` to the end.
  function Resume(s: State, raises: bool): State
    requires |s.queue| <= MAXSIZE
  {
    if !raises && s.phase == Scheduled then s.(phase := Invoking)
    else if !raises && s.phase == InvokeReturned then s.(phase := Snapshotting)
    else PutItem(s, StreamEnd).(phase := Finished)
  }

  function Step(s: State, a: Action): State
    requires |s.queue| <= MAXSIZE
  {
    match a
    case WorkerEmits(id) => if InThread(s) then s.(ready := s.ready + [Put(Event(id))]) else s
    case WorkerReturns =>
      if InThread(s) then
        s.(phase := if s.phase == Invoking then InvokeReturned else SnapshotReturned, ready := s.ready + [Wake])
      else s
    case ConsumerGets =>
      if s.queue == [] || s.closed then s
      else s.(queue := s.queue[1..], delivered := s.delivered + [s.queue[0]], closed := s.queue[0] == StreamEnd)
    case LoopRuns(raises) =>
      if s.ready == [] then s
      else
        var rest := s.(ready := s.ready[1..]);
        match s.ready[0]
        case Put(item) => PutItem(rest, item)
        case Wake => Resume(rest, raises)
  }

  // --- the invariant ---------------------------------------------------------------

  predicate IsSubsequence(a: seq<Item>, b: seq<Item>) {
    if a == [] then true
    else if b == [] then false
    else if a[|a| - 1] == b[|b| - 1] then IsSubsequence(a[..|a| - 1], b[..|b| - 1])
    else IsSubsequence(a, b[..|b| - 1])
  }

  ghost predicate OnlyPuts(callbacks: seq<Callback>) {
    forall i :: 0 <= i < |callbacks| ==> callbacks[i].Put? && callbacks[i].item != StreamEnd
  }

  ghost predicate NoEnd(items: seq<Item>) {
    forall i :: 0 <= i < |items| ==> items[i] != StreamEnd
  }

  // The loop holds a wake-up exactly when nobody is in a thread and the run is not over, and it is
  // the newest callback.
  ghost predicate ReadyFits(s: State) {
    if InThread(s) then OnlyPuts(s.ready)
    else if s.phase == Finished then s.ready == []
    else s.ready != [] && s.ready[|s.ready| - 1] == Wake && OnlyPuts(s.ready[..|s.ready| - 1])
  }

  // STREAM_END has been put exactly when the run is over, once, last.
  ghost predicate EndFits(s: State) {
    if s.phase == Finished then
      s.log != [] && s.log[|s.log| - 1] == StreamEnd && NoEnd(s.log[..|s.log| - 1])
    else NoEnd(s.log)
  }

  // The queue is the newest part of the log; what was delivered comes, in order, from the rest.
  ghost predicate QueueFits(s: State) {
    && |s.queue| <= MAXSIZE
    && |s.queue| <= |s.log|
    && var gone := |s.log| - |s.queue|;
       s.queue == s.log[gone..] && IsSubsequence(s.delivered, s.log[..gone])
  }

  ghost predicate NeverLosesEnd(s: State) {
    && (s.closed <==> s.delivered != [] && s.delivered[|s.delivered| - 1] == StreamEnd)
    && (s.phase == Finished ==> s.queue != [] || s.closed)
    && (s.closed ==> s.phase == Finished && s.queue == [])
  }

  ghost predicate Inv(s: State) {
    ReadyFits(s) && EndFits(s) && QueueFits(s) && NeverLosesEnd(s)
  }

  lemma SubsequenceAppend(a: seq<Item>, b: seq<Item>, x: Item)
    requires IsSubsequence(a, b)
    ensures IsSubsequence(a + [x], b + [x])
  {
    assert (a + [x])[..|a|] == a && (b + [x])[..|b|] == b;
  }

  lemma {:induction false} SubsequenceSkip(a: seq<Item>, b: seq<Item>, x: Item)
    requires IsSubsequence(a, b)
    ensures IsSubsequence(a, b + [x])
    decreases |b|
  {
    assert (b + [x])[..|b|] == b;
    if a != [] && a[|a| - 1] == x {
      var a', b' := a[..|a| - 1], b[..|b| - 1];
      if b[|b| - 1] == x {
        SubsequenceSkip(a', b', x);
        assert b' + [x] == b;
      } else {
        SubsequenceDrop(a, b');
        SubsequenceSkip(a', b', b[|b| - 1]);
        assert b' + [b[|b| - 1]] == b;
      }
    }
  }

  lemma {:induction false} SubsequenceDrop(a: seq<Item>, b: seq<Item>)
    requires a != [] && IsSubsequence(a, b)
    ensures IsSubsequence(a[..|a| - 1], b)
    decreases |b|
  {
    var a', b' := a[..|a| - 1], b[..|b| - 1];
    assert b' + [b[|b| - 1]] == b;
    if a[|a| - 1] == b[|b| - 1] {
      SubsequenceSkip(a', b', b[|b| - 1]);
    } else {
      SubsequenceDrop(a, b');
      SubsequenceSkip(a', b', b[|b| - 1]);
    }
  }

  lemma PutKeepsQueue(s: State, item: Item)
    requires QueueFits(s)
    ensures QueueFits(PutItem(s, item))
  {
    hide IsSubsequence;
    var gone := |s.log| - |s.queue|;
    var s' := PutItem(s, item);
    if |s.queue| == MAXSIZE {
      SubsequenceSkip(s.delivered, s.log[..gone], s.log[gone]);
      assert s.log[..gone] + [s.log[gone]] == s'.log[..gone + 1];
    } else {
      assert s'.log[..gone] == s.log[..gone];
    }
  }

  lemma GetKeepsQueue(s: State)
    requires QueueFits(s)
    ensures QueueFits(Step(s, ConsumerGets))
  {
    hide IsSubsequence;
    if s.queue != [] && !s.closed {
      var gone := |s.log| - |s.queue|;
      OldestMoves(s.log, gone, s.delivered);
      assert s.queue[1..] == s.log[gone + 1..];
    }
  }

  lemma OldestMoves(log: seq<Item>, gone: nat, delivered: seq<Item>)
    requires gone < |log| && IsSubsequence(delivered, log[..gone])
    ensures IsSubsequence(delivered + [log[gone..][0]], log[..gone + 1])
  {
    SubsequenceAppend(delivered, log[..gone], log[gone]);
    assert log[..gone] + [log[gone]] == log[..gone + 1];
  }

  lemma GetKeepsInv(s: State)
    requires Inv(s)
    ensures Inv(Step(s, ConsumerGets))
  {
    hide IsSubsequence, QueueFits, Step;
    FirstIsOldest(s);
    GetKeepsQueue(s);
    GetIs(s);
    hide ReadyFits, EndFits;
    GetKeepsRest(s, Step(s, ConsumerGets));
  }

  lemma GetIs(s: State)
    requires |s.queue| <= MAXSIZE
    ensures
      Step(s, ConsumerGets) ==
      if s.queue == [] || s.closed then s
      else s.(queue := s.queue[1..], delivered := s.delivered + [s.queue[0]], closed := s.queue[0] == StreamEnd)
    ensures
      var t := Step(s, ConsumerGets);
      (ReadyFits(s) ==> ReadyFits(t)) && (EndFits(s) ==> EndFits(t))
  {
  }

  lemma GetKeepsRest(s: State, t: State)
    requires NeverLosesEnd(s)
    requires s.queue != [] && s.queue[0] == StreamEnd ==> s.phase == Finished && |s.queue| == 1
    requires t == if s.queue == [] || s.closed then s
                  else s.(queue := s.queue[1..], delivered := s.delivered + [s.queue[0]], closed := s.queue[0] == StreamEnd)
    requires s.phase == Finished && s.queue != [] ==> s.queue[|s.queue| - 1] == StreamEnd
    ensures NeverLosesEnd(t)
  {
  }

  // An end of stream at the head of the queue is its only item.
  lemma FirstIsOldest(s: State)
    requires QueueFits(s) && EndFits(s)
    ensures |s.queue| <= MAXSIZE
    ensures s.queue != [] && s.queue[0] == StreamEnd ==> s.phase == Finished && |s.queue| == 1
    ensures s.phase == Finished && s.queue != [] ==> s.queue[|s.queue| - 1] == StreamEnd
  {
    hide IsSubsequence;
    if s.queue != [] {
      var gone := |s.log| - |s.queue|;
      assert s.queue[0] == s.log[gone];
      assert gone < |s.log| - 1 ==> s.log[gone] == s.log[..|s.log| - 1][gone];
    }
  }

  lemma PutCallbackKeepsInv(s: State, raises: bool)
    requires Inv(s) && s.ready != [] && s.ready[0].Put?
    ensures Inv(Step(s, LoopRuns(raises)))
  {
    hide IsSubsequence;
    var rest := s.(ready := s.ready[1..]);
    PutKeepsQueue(rest, s.ready[0].item);
    if !InThread(s) {
      assert s.ready[..|s.ready| - 1][0] == s.ready[0];
      assert rest.ready[..|rest.ready| - 1] == s.ready[1..|s.ready| - 1];
    }
  }

  lemma WakeKeepsInv(s: State, raises: bool)
    requires Inv(s) && s.ready != [] && s.ready[0] == Wake
    ensures Inv(Step(s, LoopRuns(raises)))
  {
    WakeIsAlone(s);
    assert s.ready[1..] == [];
    EndKeepsInv(s.(ready := []));
  }

  // STREAM_END is put once, in `finally`, as the run's last item.
  lemma PutIsLast(s: State, item: Item)
    requires QueueFits(s)
    ensures PutItem(s, item).queue != []
  {
    hide IsSubsequence;
  }

  lemma EndKeepsInv(s: State)
    requires EndFits(s) && QueueFits(s) && NeverLosesEnd(s) && s.ready == [] && s.phase != Finished
    ensures Inv(PutItem(s, StreamEnd).(phase := Finished))
  {
    hide IsSubsequence, PutDropping;
    PutKeepsQueue(s, StreamEnd);
    PutIsLast(s, StreamEnd);
    hide QueueFits;
    assert PutItem(s, StreamEnd).log[..|s.log|] == s.log;
  }

  // By the time the wake-up runs, every put queued before it has run.
  lemma WakeIsAlone(s: State)
    requires ReadyFits(s) && s.ready != [] && s.ready[0] == Wake
    ensures s.ready == [Wake] && !InThread(s) && s.phase != Finished
  {
    assert s.ready == s.ready[..|s.ready| - 1] + [s.ready[|s.ready| - 1]];
  }

  lemma LoopKeepsInv(s: State, raises: bool)
    requires Inv(s)
    ensures Inv(Step(s, LoopRuns(raises)))
  {
    if s.ready != [] {
      match s.ready[0]
      case Put(_) => PutCallbackKeepsInv(s, raises);
      case Wake => WakeKeepsInv(s, raises);
    }
  }

  lemma WorkerKeepsInv(s: State, a: Action)
    requires Inv(s) && (a.WorkerEmits? || a.WorkerReturns?)
    ensures Inv(Step(s, a))
  {
    if a.WorkerReturns? && InThread(s) {
      assert (s.ready + [Wake])[..|s.ready|] == s.ready;
    }
  }

  lemma StepKeepsInv(s: State, a: Action)
    requires Inv(s)
    ensures Inv(Step(s, a))
  {
    match a
    case LoopRuns(raises) => LoopKeepsInv(s, raises);
    case ConsumerGets => GetKeepsInv(s);
    case _ => WorkerKeepsInv(s, a);
  }

  // --- every interleaving ----------------------------------------------------------

  ghost function After(actions: seq<Action>): (s: State)
    ensures Inv(s)
    decreases |actions|
  {
    if actions == [] then INITIAL
    else
      var s := After(actions[..|actions| - 1]);
      StepKeepsInv(s, actions[|actions| - 1]);
      Step(s, actions[|actions| - 1])
  }

  lemma AfterOneMore(actions: seq<Action>, a: Action)
    ensures After([]) == State(Scheduled, [Wake], [], [], [], false)
    ensures After(actions + [a]) == Step(After(actions), a)
  {
    assert (actions + [a])[..|actions|] == actions;
  }

  // Whatever the interleaving: the queue is bounded; delivered and queued items are, in order, among
  // those put; STREAM_END has been put once the run is over and only then, behind everything else, and is
  // still there to be consumed, or was the last thing consumed.
  lemma AnyInterleaving(actions: seq<Action>)
    ensures
      var s := After(actions);
      var seen := s.delivered + s.queue;
      && |s.queue| <= 1000
      && IsSubsequence(seen, s.log)
      && (StreamEnd in s.log <==> s.phase == Finished)
      && (s.phase == Finished ==> StreamEnd !in s.log[..|s.log| - 1] && seen != [] && seen[|seen| - 1] == StreamEnd)
  {
    InvIsOrderly(After(actions));
  }

  lemma InvIsOrderly(s: State)
    requires Inv(s)
    ensures
      var seen := s.delivered + s.queue;
      && |s.queue| <= MAXSIZE
      && IsSubsequence(seen, s.log)
      && (StreamEnd in s.log <==> s.phase == Finished)
      && (s.phase == Finished ==> StreamEnd !in s.log[..|s.log| - 1] && seen != [] && seen[|seen| - 1] == StreamEnd)
  {
    hide IsSubsequence, ReadyFits;
    var gone := |s.log| - |s.queue|;
    SubsequenceJoin(s.delivered, s.log[..gone], s.queue);
    assert s.log[..gone] + s.queue == s.log;
    if s.phase == Finished {
      assert s.log[|s.log| - 1] in s.log;
      if s.queue != [] {
        assert s.queue[|s.queue| - 1] == s.log[|s.log| - 1];
      }
    }
  }

  // How often worker code has returned.
  ghost function Returns(actions: seq<Action>): nat {
    if actions == [] then 0
    else
      var n := |actions| - 1;
      Returns(actions[..n]) + if actions[n].WorkerReturns? && InThread(After(actions[..n])) then 1 else 0
  }

  // As long as nothing raises, the run stands where its two threads have got it: it is over only once
  // both have run and returned.
  lemma {:induction false} PhaseCountsReturns(actions: seq<Action>)
    requires LoopRuns(true) !in actions
    ensures
      var returned := Returns(actions);
      match After(actions).phase
      case Scheduled => returned == 0
      case Invoking => returned == 0
      case InvokeReturned => returned == 1
      case Snapshotting => returned == 1
      case SnapshotReturned => returned == 2
      case Finished => returned == 2
  {
    if actions != [] {
      var n := |actions| - 1;
      assert actions == actions[..n] + [actions[n]];
      PhaseCountsReturns(actions[..n]);
      PhaseMoves(After(actions[..n]), actions[n]);
      hide Step, Inv;
    }
  }

  lemma PhaseMoves(s: State, a: Action)
    requires Inv(s) && a != LoopRuns(true)
    ensures
      var phase := Step(s, a).phase;
      if a.WorkerReturns? && InThread(s) then phase == if s.phase == Invoking then InvokeReturned else SnapshotReturned
      else if phase == s.phase then true
      else !InThread(s) && phase == match s.phase case Scheduled => Invoking case InvokeReturned => Snapshotting case _ => Finished
  {
    hide IsSubsequence, QueueFits, EndFits, NeverLosesEnd, PutDropping;
    if s.ready != [] && s.ready[0] == Wake {
      WakeIsAlone(s);
    }
  }

  lemma {:induction false} SubsequenceJoin(a: seq<Item>, b: seq<Item>, c: seq<Item>)
    requires IsSubsequence(a, b)
    ensures IsSubsequence(a + c, b + c)
    decreases |c|
  {
    hide IsSubsequence;
    if c == [] {
      assert a + c == a && b + c == b;
    } else {
      var c', x := c[..|c| - 1], c[|c| - 1];
      SubsequenceJoin(a, b, c');
      SubsequenceAppend(a + c', b + c', x);
      assert a + c' + [x] == a + c && b + c' + [x] == b + c;
    }
  }

  // --- nothing emitted is lost on the way ------------------------------------------

  // The events worker code emitted while it ran, in order.
  ghost function Emitted(actions: seq<Action>): seq<Item> {
    if actions == [] then []
    else
      var n := |actions| - 1;
      Emitted(actions[..n]) +
      if actions[n].WorkerEmits? && InThread(After(actions[..n])) then [Event(actions[n].id)] else []
  }

  function Events(items: seq<Item>): seq<Item> {
    if items == [] then []
    else
      var n := |items| - 1;
      Events(items[..n]) + if items[n].Event? then [items[n]] else []
  }

  // The puts still waiting on the loop.
  function Waiting(ready: seq<Callback>): seq<Item> {
    if ready == [] then []
    else
      var n := |ready| - 1;
      Waiting(ready[..n]) + if ready[n].Put? then [ready[n].item] else []
  }

  lemma EventsAppend(items: seq<Item>, item: Item)
    ensures Events(items + [item]) == Events(items) + if item.Event? then [item] else []
  {
    assert (items + [item])[..|items|] == items;
  }

  lemma WaitingAppend(ready: seq<Callback>, c: Callback)
    ensures Waiting(ready + [c]) == Waiting(ready) + if c.Put? then [c.item] else []
  {
    assert (ready + [c])[..|ready|] == ready;
  }

  lemma {:induction false} WaitingHead(ready: seq<Callback>)
    requires ready != []
    ensures Waiting(ready) == (if ready[0].Put? then [ready[0].item] else []) + Waiting(ready[1..])
  {
    var n := |ready| - 1;
    assert Waiting([]) == [];
    hide Waiting;
    assert ready == ready[..n] + [ready[n]];
    WaitingAppend(ready[..n], ready[n]);
    if n > 0 {
      WaitingHead(ready[..n]);
      assert ready[1..] == ready[..n][1..] + [ready[n]];
      WaitingAppend(ready[..n][1..], ready[n]);
    } else {
      assert ready[..0] == [] && ready[1..] == [];
    }
  }

  // Only events are ever put by a callback.
  ghost predicate PutsEvents(ready: seq<Callback>) {
    forall i :: 0 <= i < |ready| && ready[i].Put? ==> ready[i].item.Event?
  }

  // What was put and what waits to be put are together what was emitted.
  ghost predicate Accounted(s: State, emitted: seq<Item>) {
    PutsEvents(s.ready) && Events(s.log) + Waiting(s.ready) == emitted
  }

  lemma PutMovesEvent(s: State, raises: bool)
    requires Inv(s) && PutsEvents(s.ready) && s.ready != [] && s.ready[0].Put?
    ensures
      var s', item := Step(s, LoopRuns(raises)), s.ready[0].item;
      s'.ready == s.ready[1..] && s'.log == s.log + [item] && item.Event? && PutsEvents(s'.ready)
  {
    hide IsSubsequence, PutDropping;
  }

  lemma WakeMovesNoEvent(s: State, raises: bool)
    requires Inv(s) && PutsEvents(s.ready) && s.ready != [] && s.ready[0] == Wake
    ensures
      var s' := Step(s, LoopRuns(raises));
      s'.ready == s.ready[1..] && (s'.log == s.log || s'.log == s.log + [StreamEnd]) && PutsEvents(s'.ready)
  {
    hide IsSubsequence, PutDropping;
  }

  lemma LoopKeepsEvents(s: State, raises: bool)
    requires Inv(s) && PutsEvents(s.ready)
    ensures
      var s' := Step(s, LoopRuns(raises));
      PutsEvents(s'.ready) && Events(s'.log) + Waiting(s'.ready) == Events(s.log) + Waiting(s.ready)
  {
    hide Step, Inv, Events, Waiting, PutsEvents;
    if s.ready == [] {
      NothingToRun(s, raises);
    } else {
      WaitingHead(s.ready);
      EventsAppend(s.log, StreamEnd);
      match s.ready[0]
      case Put(item) =>
        PutMovesEvent(s, raises);
        EventsAppend(s.log, item);
      case Wake =>
        WakeMovesNoEvent(s, raises);
    }
  }

  lemma NothingToRun(s: State, raises: bool)
    requires Inv(s) && s.ready == []
    ensures Step(s, LoopRuns(raises)) == s
  {
    hide IsSubsequence, ReadyFits, EndFits, NeverLosesEnd;
  }

  lemma WorkerMoves(s: State, a: Action)
    requires Inv(s) && PutsEvents(s.ready) && !a.LoopRuns?
    ensures
      var s' := Step(s, a);
      && s'.log == s.log && PutsEvents(s'.ready)
      && s'.ready == s.ready +
         if !InThread(s) then [] else if a.WorkerEmits? then [Put(Event(a.id))]
         else if a.WorkerReturns? then [Wake] else []
  {
    hide IsSubsequence, QueueFits, EndFits, NeverLosesEnd, ReadyFits;
  }

  lemma WorkerKeepsEvents(s: State, a: Action)
    requires Inv(s) && PutsEvents(s.ready) && !a.LoopRuns?
    ensures
      var s', emitted := Step(s, a), if a.WorkerEmits? && InThread(s) then [Event(a.id)] else [];
      PutsEvents(s'.ready) && Events(s'.log) + Waiting(s'.ready) == Events(s.log) + Waiting(s.ready) + emitted
  {
    hide *;
    WorkerMoves(s, a);
    WaitingAppend(s.ready, Wake);
    if a.WorkerEmits? {
      WaitingAppend(s.ready, Put(Event(a.id)));
    }
    assert s.ready + [] == s.ready;
  }

  lemma {:induction false} AllAccounted(actions: seq<Action>)
    ensures Accounted(After(actions), Emitted(actions))
  {
    if actions == [] {
      NothingEmitted();
    } else {
      var n := |actions| - 1;
      AllAccounted(actions[..n]);
      var s := After(actions[..n]);
      if actions[n].LoopRuns? {
        LoopKeepsEvents(s, actions[n].raises);
      } else {
        WorkerKeepsEvents(s, actions[n]);
      }
    }
  }

  lemma NothingEmitted()
    ensures Accounted(After([]), Emitted([]))
  {
    assert Waiting([Wake]) == [] by {
      assert [Wake][..0] == [];
    }
  }

  // Once a run is over everything its workers emitted has been put, in order, and then STREAM_END.
  lemma EverythingEmittedIsPut(actions: seq<Action>)
    ensures
      var s := After(actions);
      s.phase == Finished ==> s.log == Emitted(actions) + [StreamEnd]
  {
    AllAccounted(actions);
    if After(actions).phase == Finished {
      FinishedLog(After(actions));
    }
  }

  lemma FinishedLog(s: State)
    requires Inv(s) && s.phase == Finished
    ensures s.ready == [] && s.log == Events(s.log) + [StreamEnd]
  {
    var before := s.log[..|s.log| - 1];
    assert s.log == before + [StreamEnd];
    hide *;
    OnlyEvents(before);
    EventsAppend(before, StreamEnd);
  }

  lemma {:induction false} OnlyEvents(items: seq<Item>)
    requires NoEnd(items)
    ensures Events(items) == items
  {
    if items != [] {
      OnlyEvents(items[..|items| - 1]);
    }
  }

  lemma GetMoves(s: State)
    requires Inv(s) && s.phase == Finished && s.queue != []
    ensures |s.queue| <= MAXSIZE
    ensures
      var t := Step(s, ConsumerGets);
      && Inv(t) && t.phase == Finished && |t.queue| == |s.queue| - 1
      && t.delivered + t.queue == s.delivered + s.queue
  {
    hide IsSubsequence, ReadyFits, EndFits;
    GetKeepsInv(s);
    GetShifts(s);
    hide Inv, Step;
  }

  lemma GetShifts(s: State)
    requires Inv(s) && s.queue != []
    ensures
      var t := Step(s, ConsumerGets);
      t.phase == s.phase && !s.closed && t.queue == s.queue[1..] && t.delivered == s.delivered + [s.queue[0]]
    ensures |s.queue| <= MAXSIZE
  {
    hide IsSubsequence, ReadyFits, EndFits;
  }

  lemma NothingToGet(s: State)
    requires Inv(s) && s.phase == Finished && s.queue == []
    ensures s.closed && Drain(s, 0) == s
  {
    hide IsSubsequence, ReadyFits, EndFits;
  }

  // A consumer that keeps reading after the run is over receives everything still queued, in order,
  // and then stops at STREAM_END.
  lemma {:induction false} ConsumerDrains(s: State)
    requires Inv(s) && s.phase == Finished
    ensures
      var t := Drain(s, |s.queue|);
      t.closed && t.queue == [] && t.delivered == s.delivered + s.queue
    decreases |s.queue|
  {
    hide Inv, Step;
    if s.queue == [] {
      NothingToGet(s);
      assert s.delivered + s.queue == s.delivered;
    } else {
      GetMoves(s);
      ConsumerDrains(Step(s, ConsumerGets));
    }
  }

  function Drain(s: State, n: nat): State
    requires |s.queue| <= MAXSIZE
    decreases n
  {
    if n == 0 then s else Drain(Step(s, ConsumerGets), n - 1)
  }

  // --- what gets lost --------------------------------------------------------------

  // Everything is put on one queue of 1000 places: how often an item came when all were taken.
  ghost function Overflows(actions: seq<Action>): nat {
    if actions == [] then 0
    else
      var n := |actions| - 1;
      var s, t := After(actions[..n]), After(actions);
      Overflows(actions[..n]) + if |s.queue| == 1000 && t.log != s.log then 1 else 0
  }

  // Exactly one item is lost each time, and none otherwise.
  lemma {:induction false} OnlyOverflowsLose(actions: seq<Action>)
    ensures
      var s := After(actions);
      |s.log| == |s.delivered| + |s.queue| + Overflows(actions)
  {
    if actions != [] {
      var n := |actions| - 1;
      OnlyOverflowsLose(actions[..n]);
      assert actions == actions[..n] + [actions[n]];
      AfterOneMore(actions[..n], actions[n]);
      StepLoses(After(actions[..n]), actions[n]);
      hide Step, Inv;
    }
  }

  lemma StepLoses(s: State, a: Action)
    requires Inv(s)
    ensures
      var t := Step(s, a);
      var lost := if |s.queue| == 1000 && t.log != s.log then 1 else 0;
      |t.log| - |s.log| == |t.delivered| - |s.delivered| + |t.queue| - |s.queue| + lost
  {
    hide IsSubsequence, EndFits, NeverLosesEnd;
    if a.LoopRuns? && s.ready != [] {
      PutCounts(s, if s.ready[0].Put? then s.ready[0].item else StreamEnd);
    }
  }

  lemma PutCounts(s: State, item: Item)
    requires |s.queue| <= MAXSIZE
    ensures
      var t := PutItem(s, item);
      |t.log| == |s.log| + 1 && t.log != s.log && |t.queue| == if |s.queue| == 1000 then 1000 else |s.queue| + 1
  {
  }

  // --- progress --------------------------------------------------------------------

  // How much the threads and the loop still have to do.
  function Left(s: State): nat {
    |s.ready| + match s.phase
      case Scheduled => 10
      case Invoking => 8
      case InvokeReturned => 6
      case Snapshotting => 4
      case SnapshotReturned => 2
      case Finished => 0
  }

  // Until the run is over something is left to do; doing it brings the end nearer, and only an event
  // emitted takes it one callback further away.
  lemma StepsAreProgress(s: State, a: Action)
    requires Inv(s)
    ensures s.phase == Finished <==> !InThread(s) && s.ready == []
    ensures
      var t := Step(s, a);
      match a
      case LoopRuns(_) => if s.ready != [] then Left(t) < Left(s) else t == s
      case WorkerReturns => if InThread(s) then Left(t) < Left(s) else t == s
      case WorkerEmits(_) => if InThread(s) then Left(t) == Left(s) + 1 else t == s
      case ConsumerGets => Left(t) == Left(s)
  {
    hide IsSubsequence, QueueFits, EndFits, NeverLosesEnd, PutDropping;
    if s.ready != [] && s.ready[0] == Wake {
      WakeIsAlone(s);
    }
  }

  // So nothing that has happened keeps a run from ending: threads that return and a loop that goes on
  // end it, within a bound known at any moment.
  lemma {:induction false} EveryRunCanEnd(actions: seq<Action>) returns (more: seq<Action>)
    ensures After(actions + more).phase == Finished
    ensures |more| <= Left(After(actions))
    decreases Left(After(actions))
  {
    hide Step, Inv, Left;
    var s := After(actions);
    more := [];
    assert actions + more == actions;
    if s.phase != Finished {
      var a := if InThread(s) then WorkerReturns else LoopRuns(false);
      StepsAreProgress(s, a);
      AfterOneMore(actions, a);
      var rest := EveryRunCanEnd(actions + [a]);
      more := [a] + rest;
      assert actions + more == actions + [a] + rest;
    }
  }

  // A step of the run that raises ends it at once: STREAM_END is put and nothing more is started.
  lemma RaisingEndsRun(s: State)
    requires Inv(s) && s.ready != [] && s.ready[0] == Wake
    ensures
      var t := Step(s, LoopRuns(true));
      t.phase == Finished && t.ready == [] && t.log == s.log + [StreamEnd]
  {
    hide IsSubsequence, QueueFits, EndFits, NeverLosesEnd, PutDropping;
    WakeIsAlone(s);
  }
}
