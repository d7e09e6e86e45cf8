// A whole run of the top-level graph from a fresh state. What the LLM nodes, the generated scripts
// and the files on disk contribute is arbitrary and may differ at every step; the skeleton keeps
// the phase order, the experiment index, the running best and termination.
module Pipeline {
  import opened Common
  import opened ExperimentPaths
  import opened LabStates
  import opened ScoreEvaluation
  import opened StateGraphs
  import opened TopLevelGraph

  // Everything one phase takes from outside the skeleton, short of an exception.
  datatype Outside = Outside(
    pointers: map<string, string>,
    model: string,
    cvScore: Finite,
    files: ReadableFiles,
    metric: Option<string>)

  datatype World = World(state: LabState, reports: map<string, Report>, history: seq<Evaluated>)

  // --- what each phase does to the fields the skeleton reads -----------------------

  // coder's delta; code_critic's own delta is messages only.
  function RecordExperiment(s: LabState, x: Outside): LabState {
    var k := s.currentIteration;
    s.(experiments := s.experiments + [Entry(ExpName(k), CoderDir(k), x.cvScore, k, x.model)])
  }

  // score_evaluator first, experiment_designer's increment last.
  function EvaluateIteration(w: World, root: seq<string>, x: Outside): World {
    var (delta, report) := Evaluate(w.state, root, x.files, x.metric);
    World(
      Apply(w.state, delta).(currentIteration := w.state.currentIteration + 1),
      w.reports[ReportPath(report.iteration) := report],
      w.history + [EvaluatedBy(report)])
  }

  // One phase subgraph, wrapped so that it stamps its own name.
  function RunPhase(p: Phase, w: World, root: seq<string>, x: Outside): World {
    var w' :=
      match p
      case Implementation => w.(state := RecordExperiment(w.state, x))
      case Evaluation => EvaluateIteration(w, root, x)
      case _ => w;
    w'.(state := w'.state.(phase := Some(p), pointers := w'.state.pointers + x.pointers))
  }

  // --- runs ------------------------------------------------------------------------

  datatype Run = Run(world: World, word: seq<Phase>, at: Node<Phase>)

  function Step(r: Run, root: seq<string>, x: Outside): Result<Run, GraphError> {
    match r.at
    case Start => Ok(r.(at := At(Understanding)))
    case End => Ok(r)
    case At(p) =>
      var w := RunPhase(p, r.world, root, x);
      match Next(p, w.state)
      case Err(e) => Err(e)
      case Ok(n) => Ok(Run(w, r.word + [p], n))
  }

  function RunAfter(max: int, root: seq<string>, outside: nat -> Outside, n: nat): Result<Run, GraphError> {
    if n == 0 then Ok(Run(World(NewState(max), map[], []), [], Start))
    else
      match RunAfter(max, root, outside, n - 1)
      case Err(e) => Err(e)
      case Ok(r) => Step(r, root, outside(n - 1))
  }

  // --- the invariant ---------------------------------------------------------------

  function Loops(k: nat): seq<Phase> {
    if k == 0 then [Understanding, Research, Baseline]
    else Loops(k - 1) + [Design, Implementation, Evaluation]
  }

  // Every phase leaves its stamp and what its nodes returned, and no other path or text.
  lemma PhaseReturns(p: Phase, w: World, root: seq<string>, x: Outside, key: string)
    ensures
      var s, s' := w.state, RunPhase(p, w, root, x).state;
      && s'.phase == Some(p)
      && (key in s'.pointers <==> key in x.pointers || key in s.pointers)
      && (key in s'.pointers ==> s'.pointers[key] == if key in x.pointers then x.pointers[key] else s.pointers[key])
  {
  }

  // Entry i is experiment i, recorded under its own name, directory and number.
  ghost predicate Indexed(experiments: seq<Entry>) {
    forall i :: 0 <= i < |experiments| ==>
      && experiments[i].id == ExpName(i)
      && experiments[i].path == ExpDir(i)
      && experiments[i].iteration == i
  }

  // Report i describes evaluation i, read from experiment i, without a warning; nothing was
  // overwritten.
  ghost predicate Filed(reports: map<string, Report>, h: seq<Evaluated>) {
    && (forall path :: path in reports ==> exists i :: 0 <= i < |h| && path == ReportPath(i))
    && forall i :: 0 <= i < |h| ==>
         && h[i].dir == ExpDir(i)
         && ReportPath(i) in reports
         && var report := reports[ReportPath(i)];
            && report.iteration == i && !report.warning
            && report.experimentDir == h[i].dir
            && report.raw == h[i].raw && report.direction == h[i].direction
  }

  ghost predicate Summarized(w: World) {
    && IsBestOf(w.history, w.state.bestScore, w.state.bestExperimentPath)
    && w.state.iterationsWithoutImprovement == |w.history| - LastImproving(w.history)
  }

  // How far into the phase word a run is after k completed loops.
  ghost predicate OnCourse(r: Run, k: nat, max: int) {
    var open := k == 0 || r.world.state.iterationsWithoutImprovement < max;
    match r.at
    case Start => k == 0 && r.word == []
    case At(Understanding) => k == 0 && r.word == []
    case At(Research) => k == 0 && r.word == [Understanding]
    case At(Baseline) => k == 0 && r.word == [Understanding, Research]
    case At(Design) => open && r.word == Loops(k)
    case At(Implementation) => open && r.word == Loops(k) + [Design]
    case At(Evaluation) => open && r.word == Loops(k) + [Design, Implementation]
    case At(Delivery) => k > 0 && r.word == Loops(k) && r.world.state.iterationsWithoutImprovement == max
    case End => k > 0 && r.word == Loops(k) + [Delivery] && r.world.state.iterationsWithoutImprovement == max
  }

  // Everything in the invariant but the phase word.
  ghost predicate Kept(w: World, max: int, recorded: bool) {
    var s, k := w.state, |w.history|;
    && s.maxIterations == max
    && s.currentIteration == k
    && |s.experiments| == k + (if recorded then 1 else 0)
    && Indexed(s.experiments)
    && Filed(w.reports, w.history)
    && Summarized(w)
  }

  ghost predicate Inv(r: Run, max: int) {
    Kept(r.world, max, r.at == At(Evaluation)) && OnCourse(r, |r.world.history|, max)
  }

  // In phase 6 of iteration k every lookup lands on experiment k.
  lemma ResolvesOwnExperiment(s: LabState, root: seq<string>, files: ResultFiles)
    requires Indexed(s.experiments) && |s.experiments| == s.currentIteration + 1
    ensures ReadResults(s, root, files).0 == ExpDir(s.currentIteration)
    ensures OutputIteration(s, root, ExpDir(s.currentIteration)) == (s.currentIteration, false)
  {
    PointerLeadsBack(s, root);
    SoleCandidate(s, root, files);
    NumberReadBack(s, root);
  }

  lemma PointerLeadsBack(s: LabState, root: seq<string>)
    requires Indexed(s.experiments) && |s.experiments| == s.currentIteration + 1
    ensures DirFromState(s, root) == Some(ExpDir(s.currentIteration))
  {
    hide RecordedDir, ExpDir;
    RecordedExpDir(s.currentIteration, root);
    assert s.experiments[s.currentIteration].path == ExpDir(s.currentIteration);
  }

  lemma NumberReadBack(s: LabState, root: seq<string>)
    requires DirFromState(s, root).Some?
    ensures OutputIteration(s, root, ExpDir(s.currentIteration)) == (s.currentIteration, false)
  {
    IterationRoundTrip("experiments/", s.currentIteration);
  }

  lemma OwnReport(s: LabState, root: seq<string>, files: ResultFiles, metric: Option<string>)
    requires Indexed(s.experiments) && |s.experiments| == s.currentIteration + 1
    ensures
      var report := Evaluate(s, root, files, metric).1;
      report.iteration == s.currentIteration && !report.warning
      && report.experimentDir == ExpDir(s.currentIteration)
  {
    hide Indexed, ReadResults, OutputIteration, ExpDir;
    ResolvesOwnExperiment(s, root, files);
  }

  lemma EvaluationKeepsSummary(w: World, root: seq<string>, x: Outside)
    requires Indexed(w.state.experiments) && |w.state.experiments| == w.state.currentIteration + 1
    requires w.state.currentIteration == |w.history|
    requires Filed(w.reports, w.history) && Summarized(w)
    ensures
      var w' := EvaluateIteration(w, root, x);
      Filed(w'.reports, w'.history) && Summarized(w')
  {
    hide ReportPath, ExpDir, Evaluate, Indexed, Filed, LastImproving;
    var (delta, report) := Evaluate(w.state, root, x.files, x.metric);
    OwnReport(w.state, root, x.files, x.metric);
    DeltaFollowsReport(w.state, root, x.files, x.metric);
    EvaluateExtendsHistory(w.history, w.state, EvaluatedBy(report), delta);
    FilesNextReport(w.reports, w.history, report);
  }

  lemma FilesNextReport(reports: map<string, Report>, h: seq<Evaluated>, report: Report)
    requires Filed(reports, h)
    requires report.iteration == |h| && !report.warning && report.experimentDir == ExpDir(|h|)
    ensures Filed(reports[ReportPath(|h|) := report], h + [EvaluatedBy(report)])
  {
    forall i | 0 <= i < |h| ensures ReportPath(i) != ReportPath(|h|) {
      if ReportPath(i) == ReportPath(|h|) {
        ReportPathInjective(i, |h|);
      }
    }
    assert (h + [EvaluatedBy(report)])[|h|] == EvaluatedBy(report);
  }

  lemma RecordingKeepsIndex(s: LabState, x: Outside)
    requires Indexed(s.experiments) && |s.experiments| == s.currentIteration
    ensures Indexed(RecordExperiment(s, x).experiments)
  {
    CoderDirIsExpDir(s.currentIteration);
  }

  lemma PhaseKeeps(p: Phase, w: World, max: int, root: seq<string>, x: Outside)
    requires Kept(w, max, p == Evaluation)
    ensures Kept(RunPhase(p, w, root, x), max, p == Implementation)
  {
    if p == Implementation {
      RecordingKeepsIndex(w.state, x);
    } else if p == Evaluation {
      EvaluationKeepsSummary(w, root, x);
    }
  }

  // No oracle can make a step fail or leave the invariant.
  lemma StepKeepsInv(r: Run, max: int, root: seq<string>, x: Outside)
    requires max > 0 && Inv(r, max)
    ensures Step(r, root, x).Ok? && Inv(Step(r, root, x).value, max)
  {
    if r.at.At? {
      PhaseKeeps(r.at.name, r.world, max, root, x);
      RoutingNeverFails(r.at.name, RunPhase(r.at.name, r.world, root, x).state);
      StepWord(r, max, root, x);
    }
  }

  lemma StepWord(r: Run, max: int, root: seq<string>, x: Outside)
    requires max > 0 && Inv(r, max) && r.at.At?
    requires Step(r, root, x).Ok?
    ensures var r' := Step(r, root, x).value; OnCourse(r', |r'.world.history|, max)
  {
    hide IsBestOf, LastImproving, Filed, Indexed, Evaluate;
    var r' := Step(r, root, x).value;
    var k := |r.world.history|;
    match r.at.name
    case Baseline => assert r'.word == Loops(0);
    case Evaluation =>
      assert r.word + [Evaluation] == Loops(k) + [Design, Implementation, Evaluation];
      assert r'.word == Loops(k + 1);
      CounterGrowsByOne(r.world, root, x);
    case _ =>
  }

  lemma CounterGrowsByOne(w: World, root: seq<string>, x: Outside)
    ensures EvaluateIteration(w, root, x).state.iterationsWithoutImprovement
            <= w.state.iterationsWithoutImprovement + 1
  {
  }

  lemma StartKeepsInv(max: int, root: seq<string>, outside: nat -> Outside)
    requires max > 0
    ensures RunAfter(max, root, outside, 0).Ok? && Inv(RunAfter(max, root, outside, 0).value, max)
  {
  }

  lemma {:induction false} RunKeepsInv(max: int, root: seq<string>, outside: nat -> Outside, n: nat)
    requires max > 0
    ensures RunAfter(max, root, outside, n).Ok? && Inv(RunAfter(max, root, outside, n).value, max)
  {
    hide Step, Inv;
    StartKeepsInv(max, root, outside);
    if n > 0 {
      RunKeepsInv(max, root, outside, n - 1);
      StepKeepsInv(RunAfter(max, root, outside, n - 1).value, max, root, outside(n - 1));
    }
  }

  // --- termination -----------------------------------------------------------------

  // How many finite scores lie above the running best.
  function Above(best: Best): nat {
    match best
    case NegInf => 2 * MAX_RANK + 1
    case Score(v) => MAX_RANK - v
  }

  function Patience(s: LabState): int {
    s.maxIterations - s.iterationsWithoutImprovement
  }

  // Each pass through phase 6 either uses up a score or uses up patience; only using up a score
  // restores patience.
  lemma LoopLowersMeasure(w: World, root: seq<string>, x: Outside)
    ensures
      var s, s' := w.state, EvaluateIteration(w, root, x).state;
      || (Above(s'.bestScore) < Above(s.bestScore) && Patience(s') == s.maxIterations)
      || (s'.bestScore == s.bestScore && Patience(s') == Patience(s) - 1)
  {
  }

  function Potential(s: LabState): int {
    Above(s.bestScore) * s.maxIterations + Patience(s)
  }

  lemma {:induction false} ProductDrops(a: nat, b: nat, m: nat)
    requires b < a
    ensures b * m + m <= a * m
  {
    assert a * m == (a - 1) * m + m;
    if b < a - 1 {
      ProductDrops(a - 1, b, m);
    }
  }

  lemma PhaseLowersPotential(p: Phase, w: World, root: seq<string>, x: Outside)
    requires w.state.maxIterations > 0
    ensures
      var s, s' := w.state, RunPhase(p, w, root, x).state;
      && s'.maxIterations == s.maxIterations
      && (p != Evaluation ==> Potential(s') == Potential(s) && Patience(s') == Patience(s))
      && (p == Evaluation && Patience(s) > 0 ==> Potential(s') < Potential(s))
  {
    var s, s' := w.state, RunPhase(p, w, root, x).state;
    if p == Evaluation {
      LoopLowersMeasure(w, root, x);
      if Above(s'.bestScore) < Above(s.bestScore) {
        ProductDrops(Above(s.bestScore), Above(s'.bestScore), s.maxIterations);
      }
    } else {
      assert s'.bestScore == s.bestScore;
    }
  }

  // An upper bound on the supersteps still to come.
  ghost function StepsLeft(r: Run): int {
    var p := 3 * Potential(r.world.state);
    match r.at
    case Start => p + 5
    case End => 0
    case At(Understanding) => p + 4
    case At(Research) => p + 3
    case At(Baseline) => p + 2
    case At(Design) => p + 1
    case At(Implementation) => p
    case At(Evaluation) => p - 1
    case At(Delivery) => 1
  }

  lemma StepLowersStepsLeft(r: Run, max: int, root: seq<string>, x: Outside)
    requires max > 0 && Inv(r, max) && r.at != End
    ensures Step(r, root, x).Ok? && 0 <= StepsLeft(Step(r, root, x).value) < StepsLeft(r)
  {
    hide Loops, Filed, Indexed, Summarized, EvaluateIteration;
    StepKeepsInv(r, max, root, x);
    var r' := Step(r, root, x).value;
    PotentialIsNatural(r.world.state);
    PotentialIsNatural(r'.world.state);
    CounterWithinPatience(r, max);
    CounterWithinPatience(r', max);
    if r.at.At? {
      PhaseLowersPotential(r.at.name, r.world, root, x);
    }
  }

  lemma CounterWithinPatience(r: Run, max: int)
    requires max > 0 && Inv(r, max)
    ensures Patience(r.world.state) == 0 <==> r.at == End || r.at == At(Delivery)
    ensures Patience(r.world.state) >= 0
  {
  }

  lemma PotentialIsNatural(s: LabState)
    requires s.maxIterations > 0
    ensures Potential(s) >= Patience(s)
  {
    assert Above(s.bestScore) * s.maxIterations >= 0;
  }

  lemma {:induction false} ReachesEnd(max: int, root: seq<string>, outside: nat -> Outside, n: nat)
    returns (m: nat)
    requires max > 0
    requires RunAfter(max, root, outside, n).Ok?
    ensures RunAfter(max, root, outside, m).Ok? && RunAfter(max, root, outside, m).value.at == End
    ensures m - n <= StepsLeft(RunAfter(max, root, outside, n).value)
    decreases StepsLeft(RunAfter(max, root, outside, n).value)
  {
    hide Step, Inv, Potential;
    RunKeepsInv(max, root, outside, n);
    var r := RunAfter(max, root, outside, n).value;
    if r.at == End {
      m := n;
    } else {
      StepLowersStepsLeft(r, max, root, outside(n));
      m := ReachesEnd(max, root, outside, n + 1);
    }
  }

  // Every run ends, whatever its oracles answer, within a bound known before it starts.
  lemma RunTerminates(max: int, root: seq<string>, outside: nat -> Outside) returns (n: nat)
    requires max > 0
    ensures RunAfter(max, root, outside, n).Ok? && RunAfter(max, root, outside, n).value.at == End
    ensures n <= 3 * ((2 * MAX_RANK + 2) * max) + 5
  {
    n := ReachesEnd(max, root, outside, 0);
    assert (2 * MAX_RANK + 1) * max + max == (2 * MAX_RANK + 2) * max;
  }

  // --- what a finished run delivers ------------------------------------------------

  // The phase word is p1 p2 p3 (p4 p5 p6)^k p7 with k > 0; the last improving evaluation was
  // followed by exactly max_iterations others; experiment, report and evaluation i are one and the
  // same; the best score is the maximum, credited to the first experiment that reached it.
  lemma FinishedRun(max: int, root: seq<string>, outside: nat -> Outside, n: nat)
    requires max > 0
    requires RunAfter(max, root, outside, n).Ok? && RunAfter(max, root, outside, n).value.at == End
    ensures
      var r := RunAfter(max, root, outside, n).value;
      var w, k := r.world, |r.world.history|;
      && k > 0 && r.word == Loops(k) + [Delivery]
      && k == LastImproving(w.history) + max
      && w.state.iterationsWithoutImprovement == max
      && IsBestOf(w.history, w.state.bestScore, w.state.bestExperimentPath)
      && |w.state.experiments| == k && Indexed(w.state.experiments)
      && Filed(w.reports, w.history)
  {
    RunKeepsInv(max, root, outside, n);
  }

  // A raw score, higher the better.
  function Signed(e: Evaluated): Option<int> {
    match e.raw
    case None => None
    case Some(raw) => Some(if e.direction == Maximize then raw else -raw)
  }

  // The best score in figures: it is missing exactly when nothing was ever scored; otherwise no
  // evaluation scored higher, and its path is that of the first experiment that scored as high.
  lemma BestIsGreatest(max: int, root: seq<string>, outside: nat -> Outside, n: nat)
    requires max > 0
    ensures RunAfter(max, root, outside, n).Ok?
    ensures
      var w := RunAfter(max, root, outside, n).value.world;
      match w.state.bestScore
      case NegInf => w.state.bestExperimentPath == "" && forall i :: 0 <= i < |w.history| ==> w.history[i].raw.None?
      case Score(best) =>
        && (forall i :: 0 <= i < |w.history| && Signed(w.history[i]).Some? ==> Signed(w.history[i]).value <= best)
        && exists j :: 0 <= j < |w.history| && Signed(w.history[j]) == Some(best)
             && w.state.bestExperimentPath == ExpDir(j)
             && forall i :: 0 <= i < j ==> Signed(w.history[i]) != Some(best)
  {
    RunKeepsInv(max, root, outside, n);
    var w := RunAfter(max, root, outside, n).value.world;
    BestOfKept(w, max);
  }

  lemma BestOfKept(w: World, max: int)
    requires Filed(w.reports, w.history) && IsBestOf(w.history, w.state.bestScore, w.state.bestExperimentPath)
    ensures
      match w.state.bestScore
      case NegInf => w.state.bestExperimentPath == "" && forall i :: 0 <= i < |w.history| ==> w.history[i].raw.None?
      case Score(best) =>
        && (forall i :: 0 <= i < |w.history| && Signed(w.history[i]).Some? ==> Signed(w.history[i]).value <= best)
        && exists j :: 0 <= j < |w.history| && Signed(w.history[j]) == Some(best)
             && w.state.bestExperimentPath == ExpDir(j)
             && forall i :: 0 <= i < j ==> Signed(w.history[i]) != Some(best)
  {
    hide ExpDir, ReportPath;
    var h := w.history;
    assert forall i :: 0 <= i < |h| ==>
      (Signed(h[i]).Some? <==> ScoreOf(h[i]).Some?) && (ScoreOf(h[i]).Some? ==> Signed(h[i]).value == ScoreOf(h[i]).value);
    if w.state.bestScore.Score? {
      var j :| 0 <= j < |h| && Improving(h, j) && ScoreOf(h[j]) == Some(w.state.bestScore.value) && w.state.bestExperimentPath == h[j].dir;
      assert h[j].dir == ExpDir(j);
    }
  }

  // The baseline is built once however long the loop runs.
  lemma {:induction false} BaselineRunsOnce(k: nat)
    ensures multiset(Loops(k) + [Delivery])[Baseline] == 1
  {
    if k > 0 {
      BaselineRunsOnce(k - 1);
    }
  }

  // --- the leaderboard comparison --------------------------------------------------

  // kaggle_client's de-normalized CV score, read after the final increment of the iteration.
  function CvFromState(s: LabState, reports: map<string, Report>): Option<Finite> {
    if s.currentIteration == 0 || ReportPath(s.currentIteration - 1) !in reports then None
    else
      match s.bestScore
      case NegInf => None
      case Score(best) =>
        Some(if reports[ReportPath(s.currentIteration - 1)].direction == Maximize then best else -best)
  }

  // The CV score the leaderboard is compared with is missing exactly when nothing was ever scored;
  // otherwise it is the raw score of the best experiment if and only if that experiment was scored
  // under the polarity in force at the end (or scored zero).
  ghost predicate CvFollowsBest(w: World) {
    var h, cv := w.history, CvFromState(w.state, w.reports);
    && h != []
    && (cv.None? <==> forall i :: 0 <= i < |h| ==> h[i].raw.None?)
    && (cv.Some? ==> exists j :: 0 <= j < |h| && Improving(h, j) && CvFollows(h, j, w.state.bestExperimentPath, cv))
  }

  ghost predicate CvFollows(h: seq<Evaluated>, j: nat, path: string, cv: Option<Finite>)
    requires j < |h|
  {
    h[j].dir == path && (cv == h[j].raw <==> h[j].direction == h[|h| - 1].direction || h[j].raw == Some(0))
  }

  lemma CvIsBestRawScore(max: int, root: seq<string>, outside: nat -> Outside, n: nat)
    requires max > 0
    ensures
      var r := RunAfter(max, root, outside, n);
      r.Ok? && (r.value.at == At(Delivery) || r.value.at == End) ==> CvFollowsBest(r.value.world)
  {
    hide RunAfter, CvFollowsBest, Inv;
    RunKeepsInv(max, root, outside, n);
    DeliveredCv(RunAfter(max, root, outside, n).value, max);
  }

  lemma DeliveredCv(r: Run, max: int)
    requires max > 0 && Inv(r, max)
    ensures r.at == At(Delivery) || r.at == End ==> CvFollowsBest(r.world)
  {
    hide CvFollowsBest, IsBestOf;
    if r.at == At(Delivery) || r.at == End {
      var last := LastReport(r.world, max);
      SummaryGivesCv(r.world);
    }
  }

  lemma SummaryGivesCv(w: World)
    requires IsBestOf(w.history, w.state.bestScore, w.state.bestExperimentPath) && w.history != []
    requires w.state.currentIteration > 0 && ReportPath(w.state.currentIteration - 1) in w.reports
    requires w.reports[ReportPath(w.state.currentIteration - 1)].direction == w.history[|w.history| - 1].direction
    ensures CvFollowsBest(w)
  {
    hide ReportPath, LastImproving;
    var h, s := w.history, w.state;
    if s.bestScore.Score? {
      var j :| 0 <= j < |h| && Improving(h, j) && ScoreOf(h[j]) == Some(s.bestScore.value) && s.bestExperimentPath == h[j].dir;
      assert CvFollows(h, j, s.bestExperimentPath, CvFromState(s, w.reports));
      assert h[j].raw.Some?;
    }
  }

  lemma LastReport(w: World, max: int) returns (last: Report)
    requires Kept(w, max, false) && w.history != []
    ensures ReportPath(w.state.currentIteration - 1) in w.reports
    ensures last == w.reports[ReportPath(w.state.currentIteration - 1)]
    ensures last.direction == w.history[|w.history| - 1].direction
  {
    last := w.reports[ReportPath(|w.history| - 1)];
  }

  // --- a run whose leaderboard comparison is wrong ---------------------------------

  // The state of a run that matters here.
  predicate IsAt(r: Result<Run, GraphError>, at: Node<Phase>, h: seq<Evaluated>) {
    r.Ok? && r.value.at == at && r.value.world.history == h
  }

  // Outside phase 6 a step leaves the history alone and takes the graph's next edge.
  lemma QuietStep(max: int, root: seq<string>, outside: nat -> Outside, n: nat, p: Phase, h: seq<Evaluated>)
    requires max > 0 && IsAt(RunAfter(max, root, outside, n), At(p), h)
    requires p == Research ==> h == []
    requires p != Evaluation && p != Delivery
    ensures
      var next := match p
        case Understanding => Research
        case Research => Baseline
        case Baseline => Design
        case Design => Implementation
        case _ => Evaluation;
      IsAt(RunAfter(max, root, outside, n + 1), At(next), h)
  {
    RunKeepsInv(max, root, outside, n);
  }

  // In phase 6 the evaluation is that of the experiment's own results.
  lemma EvaluationStep(max: int, root: seq<string>, outside: nat -> Outside, n: nat, h: seq<Evaluated>)
    requires max > 0 && IsAt(RunAfter(max, root, outside, n), At(Evaluation), h)
    ensures
      var x, dir := outside(n), ExpDir(|h|);
      var e := Evaluated(FiniteOf(Get(ResultsAt(x.files, dir), "cv_score")), DirectionFor(x.metric), dir);
      var counter := |h| + 1 - LastImproving(h + [e]);
      IsAt(RunAfter(max, root, outside, n + 1), At(if counter == max then Delivery else Design), h + [e])
  {
    RunKeepsInv(max, root, outside, n);
    RunKeepsInv(max, root, outside, n + 1);
    var r, x := RunAfter(max, root, outside, n).value, outside(n);
    assert RunAfter(max, root, outside, n + 1) == Step(r, root, x);
    hide RunAfter;
    StampedEvaluation(r, max, root, x);
  }

  lemma StampedEvaluation(r: Run, max: int, root: seq<string>, x: Outside)
    requires max > 0 && Inv(r, max) && r.at == At(Evaluation)
    requires Step(r, root, x).Ok? && Inv(Step(r, root, x).value, max)
    ensures
      var r', h, dir := Step(r, root, x).value, r.world.history, ExpDir(|r.world.history|);
      var e := Evaluated(FiniteOf(Get(ResultsAt(x.files, dir), "cv_score")), DirectionFor(x.metric), dir);
      && r'.world.history == h + [e]
      && r'.at == At(if |h| + 1 - LastImproving(h + [e]) == max then Delivery else Design)
  {
    EvaluationEntry(r.world, root, x);
    EvaluationMoves(r, root, x);
    hide Inv, Step;
    DeliversIff(Step(r, root, x).value, max);
  }

  lemma EvaluationMoves(r: Run, root: seq<string>, x: Outside)
    requires r.at == At(Evaluation) && Step(r, root, x).Ok?
    ensures Step(r, root, x).value.world.history == EvaluateIteration(r.world, root, x).history
    ensures Step(r, root, x).value.at in {At(Design), At(Delivery)}
  {
    hide EvaluateIteration;
  }

  // After an evaluation, delivery comes exactly when patience is used up.
  lemma DeliversIff(r: Run, max: int)
    requires max > 0 && Inv(r, max) && r.at in {At(Design), At(Delivery)} && r.world.history != []
    ensures r.at == At(if |r.world.history| - LastImproving(r.world.history) == max then Delivery else Design)
  {
    hide Indexed, Filed, IsBestOf, Loops, LastImproving;
  }

  lemma EvaluationEntry(w: World, root: seq<string>, x: Outside)
    requires Indexed(w.state.experiments) && |w.state.experiments| == w.state.currentIteration + 1
    ensures
      var dir := ExpDir(w.state.currentIteration);
      EvaluateIteration(w, root, x).history ==
      w.history + [Evaluated(FiniteOf(Get(ResultsAt(x.files, dir), "cv_score")), DirectionFor(x.metric), dir)]
  {
    hide ExpDir, DirectionFor, ReadResults, Evaluate, ReportPath, DirFromState;
    PointerLeadsBack(w.state, root);
    SoleCandidate(w.state, root, x.files);
    ReportReads(w.state, root, x.files, x.metric);
  }

  // Experiment 0 scores 5 under accuracy, experiment 1 scores 7 under RMSE.
  function TwoResults(): ReadableFiles {
    map[ExpDir(0) := map["cv_score" := JNumber(Some(5))], ExpDir(1) := map["cv_score" := JNumber(Some(7))]]
  }

  function MetricChanges(i: nat): Outside {
    Outside(map[], "xgboost", 5, TwoResults(), if i < 8 then None else Some("rmse"))
  }

  const FIRST: Evaluated := Evaluated(Some(5), Maximize, ExpDir(0))
  const SECOND: Evaluated := Evaluated(Some(7), Minimize, ExpDir(1))

  lemma TwoReadings()
    ensures FiniteOf(Get(ResultsAt(TwoResults(), ExpDir(0)), "cv_score")) == Some(5)
    ensures FiniteOf(Get(ResultsAt(TwoResults(), ExpDir(1)), "cv_score")) == Some(7)
    ensures DirectionFor(None) == Maximize && DirectionFor(Some("rmse")) == Minimize
  {
    if ExpDir(0) == ExpDir(1) {
      IterationRoundTrip("experiments/", 0);
      IterationRoundTrip("experiments/", 1);
    }
    hide ExpDir;
    var name := "rmse";
    assert name[1..] == "mse" && name[1..][1..] == "se" && name[1..][1..][1..] == "e" && name[1..][1..][1..][1..] == "";
    assert NormalizeMetric("e") == "e" && NormalizeMetric("se") == "se" && NormalizeMetric("mse") == "mse";
    assert NormalizeMetric(name) == "rmse";
  }

  lemma OneEvaluation(outside: nat -> Outside, root: seq<string>)
    requires forall i: nat :: outside(i) == MetricChanges(i)
    ensures IsAt(RunAfter(1, root, outside, 7), At(Design), [FIRST])
  {
    TwoReadings();
    OneImproves();
    hide RunAfter, TwoResults, DirectionFor, ExpDir, LastImproving, FiniteOf, IsAt;
    FirstStep(1, root, outside);
    QuietStep(1, root, outside, 1, Understanding, []);
    QuietStep(1, root, outside, 2, Research, []);
    QuietStep(1, root, outside, 3, Baseline, []);
    QuietStep(1, root, outside, 4, Design, []);
    QuietStep(1, root, outside, 5, Implementation, []);
    assert outside(6) == MetricChanges(6);
    assert [] + [FIRST] == [FIRST];
    EvaluationStep(1, root, outside, 6, []);
  }

  lemma TwoEvaluations(outside: nat -> Outside, root: seq<string>)
    requires forall i: nat :: outside(i) == MetricChanges(i)
    ensures IsAt(RunAfter(1, root, outside, 10), At(Delivery), [FIRST, SECOND])
  {
    OneEvaluation(outside, root);
    TwoReadings();
    OneImproves();
    assert outside(9) == MetricChanges(9);
    assert outside(9).files == TwoResults() && outside(9).metric == Some("rmse");
    hide *;
    QuietStep(1, root, outside, 7, Design, [FIRST]);
    QuietStep(1, root, outside, 8, Implementation, [FIRST]);
    assert [FIRST] + [SECOND] == [FIRST, SECOND];
    EvaluationStep(1, root, outside, 9, [FIRST]);
  }

  lemma FirstStep(max: int, root: seq<string>, outside: nat -> Outside)
    ensures IsAt(RunAfter(max, root, outside, 1), At(Understanding), [])
  {
    assert RunAfter(max, root, outside, 0) == Ok(Run(World(NewState(max), map[], []), [], Start));
  }

  lemma OneImproves()
    ensures LastImproving([FIRST]) == 1 && LastImproving([FIRST, SECOND]) == 1
    ensures Improving([FIRST, SECOND], 0) && !Improving([FIRST, SECOND], 1)
  {
    assert Improving([FIRST], 0);
    var h := [FIRST, SECOND];
    assert h[0] == FIRST && h[1] == SECOND;
  }

  // The comparison uses -5 where the best experiment scored 5: its polarity is the last report's.
  lemma CvCanBeWrong(root: seq<string>) returns (outside: nat -> Outside)
    ensures
      var r := RunAfter(1, root, outside, 10);
      && r.Ok? && r.value.at == At(Delivery)
      && r.value.world.state.bestExperimentPath == ExpDir(0)
      && FIRST.raw == Some(5) && r.value.world.history == [FIRST, SECOND]
      && CvFromState(r.value.world.state, r.value.world.reports) == Some(-5)
  {
    outside := MetricChanges;
    TwoEvaluations(outside, root);
    RunKeepsInv(1, root, outside, 10);
    var w := RunAfter(1, root, outside, 10).value.world;
    var last := LastReport(w, 1);
    FirstIsBest(w.state.bestScore, w.state.bestExperimentPath);
    hide RunAfter, ExpDir, Filed, Indexed, ReportPath, IsBestOf;
  }

  lemma FirstIsBest(best: Best, path: string)
    ensures IsBestOf([FIRST, SECOND], best, path) ==> best == Score(5) && path == ExpDir(0)
  {
    OneImproves();
    hide ExpDir, LastImproving;
    var h := [FIRST, SECOND];
    assert h[0] == FIRST && h[1] == SECOND;
  }
}
