// Whole runs whose phases 5 are coder calls under a critic: what experiment i records against what
// evaluation i reads.
module RunScores {
  import opened Common
  import opened ExperimentPaths
  import opened Implementation
  import opened LabStates
  import opened Pipeline
  import opened ScoreEvaluation
  import opened StateGraphs
  import opened TopLevelGraph
  import Coder

  // --- which superstep runs which phase --------------------------------------------

  // One phase is executed per superstep, the first in the second.
  predicate OnTime(r: Run, n: nat) {
    match r.at
    case Start => n == 0
    case At(_) => n == |r.word| + 1
    case End => true
  }

  lemma {:induction false} LoopsLength(k: nat)
    ensures |Loops(k)| == 3 + 3 * k
  {
    if k > 0 {
      LoopsLength(k - 1);
    }
  }

  // So the i-th phase 5 is executed in superstep 5 + 3 * i and the i-th phase 6 in the next.
  lemma LoopIsOnTime(r: Run, n: nat, max: int)
    requires Inv(r, max) && OnTime(r, n)
    ensures r.at == At(Implementation) ==> n == 5 + 3 * |r.world.history|
    ensures r.at == At(Evaluation) ==> n == 6 + 3 * |r.world.history|
  {
    hide Loops, Kept;
    LoopsLength(|r.world.history|);
  }

  lemma StepIsOnTime(r: Run, n: nat, max: int, root: seq<string>, x: Outside)
    requires Step(r, root, x).Ok? && Inv(Step(r, root, x).value, max) && OnTime(r, n)
    ensures OnTime(Step(r, root, x).value, n + 1)
  {
    hide RunPhase, Next, Kept, Loops;
  }

  // --- what the world gains in a superstep -----------------------------------------

  // Entry i was drawn in the i-th phase 5.
  ghost predicate EntriesDrawn(experiments: seq<Entry>, outside: nat -> Outside) {
    forall i :: 0 <= i < |experiments| ==>
      experiments[i].cvScore == outside(5 + 3 * i).cvScore && experiments[i].model == outside(5 + 3 * i).model
  }

  // Evaluation i read what the i-th phase 6 found.
  ghost predicate EvaluationsDrawn(h: seq<Evaluated>, outside: nat -> Outside) {
    forall i :: 0 <= i < |h| ==>
      && h[i].raw == FiniteOf(Get(ResultsAt(outside(6 + 3 * i).files, ExpDir(i)), "cv_score"))
      && h[i].direction == DirectionFor(outside(6 + 3 * i).metric)
  }

  ghost predicate Drawn(w: World, outside: nat -> Outside) {
    EntriesDrawn(w.state.experiments, outside) && EvaluationsDrawn(w.history, outside)
  }

  lemma StepRecords(r: Run, root: seq<string>, x: Outside)
    requires Step(r, root, x).Ok?
    ensures
      var s, s' := r.world.state, Step(r, root, x).value.world.state;
      if r.at == At(Implementation) then
        s'.experiments == s.experiments + [Entry(ExpName(s.currentIteration), CoderDir(s.currentIteration), x.cvScore, s.currentIteration, x.model)]
      else
        s'.experiments == s.experiments
  {
    hide Evaluate, Next, ExpName, CoderDir;
  }

  lemma StepEvaluates(r: Run, root: seq<string>, x: Outside)
    requires Step(r, root, x).Ok?
    ensures
      Step(r, root, x).value.world.history ==
      if r.at == At(Evaluation) then EvaluateIteration(r.world, root, x).history else r.world.history
  {
    hide EvaluateIteration, Next, RecordExperiment;
  }

  lemma EntryIsDrawn(experiments: seq<Entry>, e: Entry, outside: nat -> Outside)
    requires EntriesDrawn(experiments, outside)
    requires e.cvScore == outside(5 + 3 * |experiments|).cvScore && e.model == outside(5 + 3 * |experiments|).model
    ensures EntriesDrawn(experiments + [e], outside)
  {
  }

  lemma EvaluationIsDrawn(h: seq<Evaluated>, e: Evaluated, outside: nat -> Outside)
    requires EvaluationsDrawn(h, outside)
    requires e.raw == FiniteOf(Get(ResultsAt(outside(6 + 3 * |h|).files, ExpDir(|h|)), "cv_score"))
    requires e.direction == DirectionFor(outside(6 + 3 * |h|).metric)
    ensures EvaluationsDrawn(h + [e], outside)
  {
    hide ExpDir, ResultsAt, FiniteOf, DirectionFor;
  }

  lemma InvCounts(r: Run, max: int)
    requires Inv(r, max)
    ensures
      var s, k := r.world.state, |r.world.history|;
      && s.currentIteration == k && Indexed(s.experiments)
      && |s.experiments| == k + (if r.at == At(Evaluation) then 1 else 0)
  {
    hide OnCourse;
  }

  lemma RecordingIsDrawn(r: Run, n: nat, max: int, root: seq<string>, outside: nat -> Outside)
    requires Inv(r, max) && OnTime(r, n) && EntriesDrawn(r.world.state.experiments, outside)
    requires Step(r, root, outside(n)).Ok?
    ensures EntriesDrawn(Step(r, root, outside(n)).value.world.state.experiments, outside)
  {
    hide *;
    LoopIsOnTime(r, n, max);
    StepRecords(r, root, outside(n));
    InvCounts(r, max);
    if r.at == At(Implementation) {
      var s, x := r.world.state, outside(n);
      var k := s.currentIteration;
      EntryIsDrawn(s.experiments, Entry(ExpName(k), CoderDir(k), x.cvScore, k, x.model), outside);
    }
  }

  lemma EvaluatingIsDrawn(w: World, root: seq<string>, x: Outside, outside: nat -> Outside)
    requires Indexed(w.state.experiments) && |w.state.experiments| == w.state.currentIteration + 1
    requires w.state.currentIteration == |w.history| && x == outside(6 + 3 * |w.history|)
    requires EvaluationsDrawn(w.history, outside)
    ensures EvaluationsDrawn(EvaluateIteration(w, root, x).history, outside)
  {
    hide *;
    EvaluationEntry(w, root, x);
    var dir := ExpDir(|w.history|);
    var e := Evaluated(FiniteOf(Get(ResultsAt(x.files, dir), "cv_score")), DirectionFor(x.metric), dir);
    EvaluationIsDrawn(w.history, e, outside);
  }

  lemma EvaluationStepIsDrawn(r: Run, n: nat, max: int, root: seq<string>, outside: nat -> Outside)
    requires Inv(r, max) && OnTime(r, n) && EvaluationsDrawn(r.world.history, outside)
    requires Step(r, root, outside(n)).Ok?
    ensures EvaluationsDrawn(Step(r, root, outside(n)).value.world.history, outside)
  {
    hide *;
    LoopIsOnTime(r, n, max);
    StepEvaluates(r, root, outside(n));
    InvCounts(r, max);
    if r.at == At(Evaluation) {
      EvaluatingIsDrawn(r.world, root, outside(n), outside);
    }
  }

  lemma StepIsDrawn(r: Run, n: nat, max: int, root: seq<string>, outside: nat -> Outside)
    requires Inv(r, max) && OnTime(r, n) && Drawn(r.world, outside)
    requires Step(r, root, outside(n)).Ok?
    ensures Drawn(Step(r, root, outside(n)).value.world, outside)
  {
    hide Inv, OnTime, Step, EntriesDrawn, EvaluationsDrawn;
    RecordingIsDrawn(r, n, max, root, outside);
    EvaluationStepIsDrawn(r, n, max, root, outside);
  }

  ghost predicate Traced(r: Run, n: nat, max: int, outside: nat -> Outside) {
    Inv(r, max) && OnTime(r, n) && Drawn(r.world, outside)
  }

  lemma StepIsTraced(r: Run, n: nat, max: int, root: seq<string>, outside: nat -> Outside)
    requires max > 0 && Traced(r, n, max, outside)
    ensures Step(r, root, outside(n)).Ok? && Traced(Step(r, root, outside(n)).value, n + 1, max, outside)
  {
    hide Inv, Step, OnTime, Drawn;
    StepKeepsInv(r, max, root, outside(n));
    StepIsOnTime(r, n, max, root, outside(n));
    StepIsDrawn(r, n, max, root, outside);
  }

  lemma StartIsTraced(max: int, root: seq<string>, outside: nat -> Outside)
    requires max > 0
    ensures
      var r := RunAfter(max, root, outside, 0);
      r.Ok? && Traced(r.value, 0, max, outside)
  {
    StartKeepsInv(max, root, outside);
    hide Inv;
  }

  lemma {:induction false} RunIsTraced(max: int, root: seq<string>, outside: nat -> Outside, n: nat)
    requires max > 0
    ensures
      var r := RunAfter(max, root, outside, n);
      r.Ok? && Traced(r.value, n, max, outside)
  {
    hide Step, Traced;
    if n == 0 {
      StartIsTraced(max, root, outside);
    } else {
      RunIsTraced(max, root, outside, n - 1);
      StepIsTraced(RunAfter(max, root, outside, n - 1).value, n - 1, max, root, outside);
    }
  }

  // What a run holds is what it drew: entry i what the i-th phase 5 drew, under its own name and
  // directory, and report i the score that the i-th phase 6 found in that directory, under the polarity
  // of the metric it found.
  lemma RunHoldsWhatItDrew(max: int, root: seq<string>, outside: nat -> Outside, n: nat, i: nat)
    requires max > 0
    ensures RunAfter(max, root, outside, n).Ok?
    ensures
      var w := RunAfter(max, root, outside, n).value.world;
      && (i < |w.state.experiments| ==>
            w.state.experiments[i] == Entry(ExpName(i), ExpDir(i), outside(5 + 3 * i).cvScore, i, outside(5 + 3 * i).model))
      && (i < |w.history| ==>
            && ReportPath(i) in w.reports
            && var report, x := w.reports[ReportPath(i)], outside(6 + 3 * i);
               && report.raw == FiniteOf(Get(ResultsAt(x.files, ExpDir(i)), "cv_score"))
               && report.direction == DirectionFor(x.metric)
               && report.experimentDir == ExpDir(i))
  {
    RunIsTraced(max, root, outside, n);
    hide RunAfter, ReportPath, ExpDir, ExpName, FiniteOf, ResultsAt, DirectionFor, OnTime, OnCourse, Summarized;
  }

  // --- phases 5 made of coder calls ------------------------------------------------

  // One phase 5: where it starts, what it draws, and how often its critic has coder try again.
  datatype PhaseFive = PhaseFive(before: Before, draws: Draws, retries: nat)

  // The entry the graph records is the one coder's first call returned; what is then evaluated is what
  // the last call left.
  ghost predicate Feeds(p: PhaseFive, i: nat, recorded: Outside, read: Outside) {
    var first, last := After(p.before, p.draws, 0), After(p.before, p.draws, p.retries);
    && p.before.k == i && AllSucceed(p.before, p.draws, p.retries)
    && first.experiments == p.before.experiments + [Entry(ExpName(i), CoderDir(i), recorded.cvScore, i, recorded.model)]
    && ReadsFrom(read.files, last.files, i)
  }

  ghost predicate Follows(outside: nat -> Outside, phases: nat -> PhaseFive) {
    forall i: nat :: Feeds(phases(i), i, outside(5 + 3 * i), outside(6 + 3 * i))
  }

  lemma FedScores(p: PhaseFive, i: nat, recorded: Outside, read: Outside)
    requires Feeds(p, i, recorded, read)
    ensures ScoreWritten(p.before, p.draws, 0) == Some(recorded.cvScore)
    ensures ScoreWritten(p.before, p.draws, p.retries) == FiniteOf(Get(ResultsAt(read.files, ExpDir(i)), "cv_score"))
  {
    hide After, ScoreWritten, EntryOf, Coder.ScoreIn;
    CallAddsEntry(p.before, p.draws, 0);
    CallAddsEntry(p.before, p.draws, p.retries);
    hide AllSucceed;
    FedEntry(p.before.experiments, Entry(ExpName(i), CoderDir(i), recorded.cvScore, i, recorded.model), EntryOf(p.before, p.draws, 0));
    ReadScore(read.files, After(p.before, p.draws, p.retries).files, i);
  }

  lemma FedEntry(old_: seq<Entry>, a: Entry, b: Entry)
    requires old_ + [a] == old_ + [b]
    ensures a == b
  {
    assert (old_ + [a])[|old_|] == a;
  }

  lemma ReadScore(results: ResultFiles, files: Coder.Files, k: nat)
    requires ReadsFrom(results, files, k)
    ensures FiniteOf(Get(ResultsAt(results, ExpDir(k)), "cv_score")) == Coder.ScoreIn(files, k)
  {
    hide ExpDir, Coder.ResultsPath, ResultsAt;
  }

  // At any point of any run, for every experiment evaluated so far: it records the score the first
  // call's accepted script wrote, its report holds the one the last call's wrote, and the two agree if
  // and only if those scripts wrote the same.
  lemma RecordedAgainstRead(max: int, root: seq<string>, outside: nat -> Outside, phases: nat -> PhaseFive, n: nat, i: nat)
    requires max > 0 && Follows(outside, phases)
    requires RunAfter(max, root, outside, n).Ok? && i < |RunAfter(max, root, outside, n).value.world.history|
    ensures
      var w, p := RunAfter(max, root, outside, n).value.world, phases(i);
      && i < |w.state.experiments| && ReportPath(i) in w.reports
      && var recorded, read := w.state.experiments[i].cvScore, w.reports[ReportPath(i)].raw;
         && Some(recorded) == ScoreWritten(p.before, p.draws, 0)
         && read == ScoreWritten(p.before, p.draws, p.retries)
         && (read == Some(recorded) <==> ScoreWritten(p.before, p.draws, p.retries) == ScoreWritten(p.before, p.draws, 0))
  {
    RunIsTraced(max, root, outside, n);
    hide RunAfter, ScoreWritten, Feeds, OnTime, OnCourse, Summarized, Indexed, ReportPath, ExpDir, FiniteOf;
    assert Feeds(phases(i), i, outside(5 + 3 * i), outside(6 + 3 * i));
    FedScores(phases(i), i, outside(5 + 3 * i), outside(6 + 3 * i));
  }

  // --- a run in which they differ --------------------------------------------------

  function EveryPhase(i: nat, root: seq<string>): PhaseFive {
    PhaseFive(Before(i, root, map[], []), RetryDraws(i, 1), 1)
  }

  // Coder's first call scores 1, its retry leaves 2.
  function EveryStep(n: nat): Outside {
    var i := if n < 6 then 0 else (n - 6) / 3;
    Outside(map[], "xgboost", 1, map[ExpDir(i) := Results(2).fields], None)
  }

  lemma EveryPhaseRecords(i: nat, root: seq<string>)
    ensures
      var p := EveryPhase(i, root);
      && AllSucceed(p.before, p.draws, p.retries)
      && After(p.before, p.draws, 0).experiments == p.before.experiments + [EntryOf(p.before, p.draws, 0)]
      && EntryOf(p.before, p.draws, 0) == Entry(ExpName(i), CoderDir(i), 1, i, "xgboost")
  {
    var p := EveryPhase(i, root);
    RetryCall(p.before, 1, 0);
    RetryCall(p.before, 1, 1);
    assert p.draws.models(0) == "xgboost";
    hide RetryDraws, After, ExpName, CoderDir, Coder.ScoreIn, ScoreWritten;
    CallAddsEntry(p.before, p.draws, 0);
  }

  lemma EveryStepIsRead(i: nat, root: seq<string>)
    ensures
      var p := EveryPhase(i, root);
      ReadsFrom(EveryStep(6 + 3 * i).files, After(p.before, p.draws, p.retries).files, i)
  {
    var p := EveryPhase(i, root);
    EveryStepHolds(i);
    hide *;
    RetryCall(Before(i, root, map[], []), 1, 1);
    LeftIsRead(EveryStep(6 + 3 * i).files, After(Before(i, root, map[], []), RetryDraws(i, 1), 1).files, i, 2);
    EveryPhaseIs(i, root);
  }

  lemma EveryPhaseIs(i: nat, root: seq<string>)
    ensures EveryPhase(i, root) == PhaseFive(Before(i, root, map[], []), RetryDraws(i, 1), 1)
  {
  }

  lemma EveryStepHolds(i: nat)
    ensures ResultsAt(EveryStep(6 + 3 * i).files, ExpDir(i)) == Results(2).fields
  {
    hide ExpDir, Results;
  }

  lemma LeftIsRead(results: ResultFiles, files: Coder.Files, k: nat, score: Finite)
    requires LeftResults(files, k, score) && ResultsAt(results, ExpDir(k)) == Results(score).fields
    ensures ReadsFrom(results, files, k)
  {
    hide ExpDir, Coder.ResultsPath, ResultsAt;
  }

  lemma EveryPhaseFeeds(i: nat, root: seq<string>)
    ensures Feeds(EveryPhase(i, root), i, EveryStep(5 + 3 * i), EveryStep(6 + 3 * i))
  {
    EveryPhaseRecords(i, root);
    EveryStepIsRead(i, root);
    hide RetryDraws, After, EntryOf, ExpDir, ExpName, CoderDir, ReadsFrom, Results, AllSucceed;
  }

  lemma OneLoop(outside: nat -> Outside, root: seq<string>) returns (e: Evaluated)
    ensures IsAt(RunAfter(2, root, outside, 7), At(Design), [e])
  {
    hide *;
    FirstStep(2, root, outside);
    QuietStep(2, root, outside, 1, Understanding, []);
    QuietStep(2, root, outside, 2, Research, []);
    QuietStep(2, root, outside, 3, Baseline, []);
    QuietStep(2, root, outside, 4, Design, []);
    QuietStep(2, root, outside, 5, Implementation, []);
    EvaluationStep(2, root, outside, 6, []);
    var x, dir := outside(6), ExpDir(0);
    e := Evaluated(FiniteOf(Get(ResultsAt(x.files, dir), "cv_score")), DirectionFor(x.metric), dir);
    assert [] + [e] == [e];
  }

  // After its first loop the experiment says 1 where its report says 2.
  lemma RecordedCanDiffer(root: seq<string>) returns (outside: nat -> Outside, phases: nat -> PhaseFive)
    ensures Follows(outside, phases)
    ensures
      var r := RunAfter(2, root, outside, 7);
      && r.Ok? && |r.value.world.history| == 1 && |r.value.world.state.experiments| == 1
      && ReportPath(0) in r.value.world.reports
      && r.value.world.state.experiments[0].cvScore == 1 && r.value.world.reports[ReportPath(0)].raw == Some(2)
  {
    outside, phases := EveryStep, (i: nat) => EveryPhase(i, root);
    forall i: nat ensures Feeds(phases(i), i, outside(5 + 3 * i), outside(6 + 3 * i)) {
      EveryPhaseFeeds(i, root);
    }
    assert Follows(outside, phases);
    OneLoopDiffers(root, outside, phases);
  }

  lemma EveryPhaseWrites(i: nat, root: seq<string>)
    ensures
      var p := EveryPhase(i, root);
      ScoreWritten(p.before, p.draws, 0) == Some(1) && ScoreWritten(p.before, p.draws, p.retries) == Some(2)
  {
    EveryPhaseIs(i, root);
    hide *;
    var b := Before(i, root, map[], []);
    RetryCall(b, 1, 0);
    RetryCall(b, 1, 1);
    CallAddsEntry(b, RetryDraws(i, 1), 0);
    CallAddsEntry(b, RetryDraws(i, 1), 1);
  }

  lemma OneLoopDiffers(root: seq<string>, outside: nat -> Outside, phases: nat -> PhaseFive)
    requires Follows(outside, phases) && phases(0) == EveryPhase(0, root)
    ensures
      var r := RunAfter(2, root, outside, 7);
      && r.Ok? && |r.value.world.history| == 1 && |r.value.world.state.experiments| == 1
      && ReportPath(0) in r.value.world.reports
      && r.value.world.state.experiments[0].cvScore == 1 && r.value.world.reports[ReportPath(0)].raw == Some(2)
  {
    hide RunAfter, ReportPath, ScoreWritten, EveryPhase, Follows, Inv;
    var e := OneLoop(outside, root);
    EveryPhaseWrites(0, root);
    RunKeepsInv(2, root, outside, 7);
    InvCounts(RunAfter(2, root, outside, 7).value, 2);
    RecordedAgainstRead(2, root, outside, phases, 7, 0);
  }
}
