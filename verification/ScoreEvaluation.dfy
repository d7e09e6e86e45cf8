// src/nodes/compute/score_evaluator.py with the readers of src/nodes/compute/_evaluation_common.py:
// find the experiment's results, normalize the score, update the running best and the counter that
// alone ends the pipeline's loop, and file a report.
module ScoreEvaluation {
  import opened Common
  import opened Text
  import opened ExperimentPaths
  import opened LabStates

  // --- metric polarity -------------------------------------------------------------

  const MINIMIZE_METRICS := {
    "rmse", "mse", "mae", "mape", "smape", "rmsle", "msle", "medae",
    "logloss", "crossentropy", "brier", "hammingloss", "wmae"
  }

  predicate IsAlphanumeric(c: char) {
    'a' <= c <= 'z' || '0' <= c <= '9'
  }

  function NormalizeMetric(name: string): string {
    if name == "" then ""
    else if IsAlphanumeric(LowerChar(name[0])) then [LowerChar(name[0])] + NormalizeMetric(name[1..])
    else NormalizeMetric(name[1..])
  }

  // problem_definition's success_metric: None when absent or not a string.
  function DirectionFor(metric: Option<string>): Direction {
    if metric.Some? && NormalizeMetric(metric.value) in MINIMIZE_METRICS then Minimize else Maximize
  }

  lemma {:induction false} NormalizeMetricConcat(a: string, b: string)
    ensures NormalizeMetric(a + b) == NormalizeMetric(a) + NormalizeMetric(b)
  {
    if a == "" {
      assert a + b == b;
    } else {
      assert (a + b)[1..] == a[1..] + b;
      NormalizeMetricConcat(a[1..], b);
    }
  }

  // A separator anywhere in the metric's name never changes the polarity.
  lemma SeparatorKeepsDirection(a: string, separator: char, b: string)
    requires !('a' <= separator <= 'z' || 'A' <= separator <= 'Z' || '0' <= separator <= '9')
    ensures DirectionFor(Some(a + [separator] + b)) == DirectionFor(Some(a + b))
  {
    NormalizeMetricConcat(a + [separator], b);
    NormalizeMetricConcat(a, [separator]);
    NormalizeMetricConcat(a, b);
    assert NormalizeMetric([separator]) == "" by {
      assert [separator][1..] == "";
    }
    assert NormalizeMetric(a + [separator] + b) == NormalizeMetric(a + b);
  }

  // Nor does letter case.
  lemma CaseKeepsDirection(a: string, capital: char, small: char, b: string)
    requires 'A' <= capital <= 'Z' && small as int == capital as int + 32
    ensures DirectionFor(Some(a + [capital] + b)) == DirectionFor(Some(a + [small] + b))
  {
    forall x: char ensures NormalizeMetric(a + [x] + b) == NormalizeMetric(a) + NormalizeMetric([x]) + NormalizeMetric(b) {
      NormalizeMetricConcat(a + [x], b);
      NormalizeMetricConcat(a, [x]);
    }
    assert LowerChar(capital) == small == LowerChar(small);
    assert [capital][1..] == "" && [small][1..] == "";
  }

  lemma {:induction false} PlainNameStays(name: string)
    requires forall i :: 0 <= i < |name| ==> IsAlphanumeric(name[i])
    ensures NormalizeMetric(name) == name
  {
    if name != "" {
      assert LowerChar(name[0]) == name[0];
      PlainNameStays(name[1..]);
    }
  }

  // Spelled in small letters and digits a metric is minimized exactly when it is one of these.
  lemma MinimizedIff(name: string)
    requires forall i :: 0 <= i < |name| ==> 'a' <= name[i] <= 'z' || '0' <= name[i] <= '9'
    ensures DirectionFor(Some(name)) == Minimize <==>
              name in {"rmse", "mse", "mae", "mape", "smape", "rmsle", "msle", "medae", "logloss", "crossentropy",
                       "brier", "hammingloss", "wmae"}
    ensures DirectionFor(None) == Maximize
  {
    PlainNameStays(name);
  }

  // --- finding the results ---------------------------------------------------------

  // results.json by directory; a directory without readable results has none.
  type ResultFiles = map<string, Fields>

  // Results no evaluation raises on.
  type ReadableFiles = files: ResultFiles |
    forall dir :: dir in files ==> !Get(files[dir], "cv_score").JHuge?
    witness map[]

  function ResultsAt(files: ResultFiles, dir: string): Fields {
    if dir in files then files[dir] else map[]
  }

  function LastEntry(s: LabState): Option<Entry> {
    if s.experiments == [] then None else Some(s.experiments[|s.experiments| - 1])
  }

  // experiment_dir_from_state
  function DirFromState(s: LabState, root: seq<string>): Option<string> {
    match LastEntry(s)
    case None => None
    case Some(entry) => RecordedDir(Some(entry.path), root)
  }

  // The usable candidates in order, each once.
  function Ordered(candidates: seq<Option<string>>): (r: seq<string>)
    ensures forall d :: d in r <==> Some(d) in candidates
    ensures forall i, j :: 0 <= i < j < |r| ==> r[i] != r[j]
  {
    if candidates == [] then []
    else
      var r, last := Ordered(candidates[..|candidates| - 1]), candidates[|candidates| - 1];
      if last.Some? && last.value !in r then r + [last.value] else r
  }

  // The state-recorded pointer, then the well-known directory of the current iteration.
  function Candidates(s: LabState, root: seq<string>): seq<Option<string>> {
    [DirFromState(s, root), Some(ExpDir(s.currentIteration))]
  }

  function CandidateDirs(s: LabState, root: seq<string>): (r: seq<string>)
    ensures r != []
  {
    assert Candidates(s, root)[1] == Some(ExpDir(s.currentIteration));
    assert ExpDir(s.currentIteration) in Ordered(Candidates(s, root));
    Ordered(Candidates(s, root))
  }

  method CandidateExperimentDirs(s: LabState, root: seq<string>) returns (ordered: seq<string>)
    ensures ordered == CandidateDirs(s, root)
  {
    ordered := KeepFirst(Candidates(s, root));
  }

  // The loop of candidate_experiment_dirs.
  method KeepFirst(candidates: seq<Option<string>>) returns (ordered: seq<string>)
    ensures ordered == Ordered(candidates)
  {
    ordered := [];
    for i := 0 to |candidates|
      invariant ordered == Ordered(candidates[..i])
    {
      assert candidates[..i + 1][..i] == candidates[..i];
      if candidates[i].Some? && candidates[i].value !in ordered {
        ordered := ordered + [candidates[i].value];
      }
    }
    assert candidates[..|candidates|] == candidates;
  }

  function FirstReadable(dirs: seq<string>, files: ResultFiles): Option<string> {
    if dirs == [] then None
    else if ResultsAt(files, dirs[0]) != map[] then Some(dirs[0])
    else FirstReadable(dirs[1..], files)
  }

  function ReadResults(s: LabState, root: seq<string>, files: ResultFiles): (string, Fields) {
    match FirstReadable(CandidateDirs(s, root), files)
    case Some(dir) => (dir, ResultsAt(files, dir))
    case None => (CandidateDirs(s, root)[0], map[])
  }

  method ReadExperimentResults(s: LabState, root: seq<string>, files: ResultFiles)
    returns (dir: string, results: Fields)
    ensures (dir, results) == ReadResults(s, root, files)
  {
    var candidates := CandidateExperimentDirs(s, root);
    for i := 0 to |candidates|
      invariant FirstReadable(candidates, files) == FirstReadable(candidates[i..], files)
    {
      results := ResultsAt(files, candidates[i]);
      if results != map[] {
        return candidates[i], results;
      }
      assert candidates[i..][1..] == candidates[i + 1..];
    }
    return candidates[0], map[];
  }

  // When the recorded pointer already is the well-known directory, only that one is tried.
  lemma SoleCandidate(s: LabState, root: seq<string>, files: ResultFiles)
    requires DirFromState(s, root) == Some(ExpDir(s.currentIteration))
    ensures
      var dir := ExpDir(s.currentIteration);
      ReadResults(s, root, files) == (dir, ResultsAt(files, dir))
  {
    var dir := ExpDir(s.currentIteration);
    OrderedTwice(dir);
    assert CandidateDirs(s, root) == [dir];
    assert FirstReadable([dir][1..], files) == None;
  }

  lemma OrderedTwice(dir: string)
    ensures Ordered([Some(dir), Some(dir)]) == [dir]
  {
    var c := [Some(dir), Some(dir)];
    assert c[..1] == [Some(dir)] && [Some(dir)][..0] == [];
    assert Ordered(c[..1]) == [dir];
  }

  // resolve_output_iteration: the number the report is filed under, and whether it carries the
  // "may describe different experiments" warning.
  function OutputIteration(s: LabState, root: seq<string>, dir: string): (nat, bool) {
    var declared := LastEntry(s);
    match IterationFromDir(dir)
    case Some(n) => (n, DirFromState(s, root).None? && declared.Some? && declared.value.iteration != n)
    case None => (if declared.Some? then declared.value.iteration else s.currentIteration, false)
  }

  // A report on exp_k is filed under k; on a directory without a number, under the last entry's or else
  // the current one. It warns exactly when the last entry names no usable directory and another number.
  lemma FiledUnder(s: LabState, root: seq<string>, k: nat, dir: string)
    ensures
      var (n, warning) := OutputIteration(s, root, ExpDir(k));
      && n == k
      && (warning <==>
            s.experiments != [] && s.experiments[|s.experiments| - 1].iteration != k
            && RecordedDir(Some(s.experiments[|s.experiments| - 1].path), root).None?)
    ensures IterationFromDir(dir).None? ==>
              OutputIteration(s, root, dir) ==
              (if s.experiments != [] then s.experiments[|s.experiments| - 1].iteration else s.currentIteration, false)
  {
    IterationRoundTrip("experiments/", k);
    hide IterationFromDir, RecordedDir;
  }

  // --- the node --------------------------------------------------------------------

  datatype Report = Report(
    iteration: nat,
    experimentDir: string,
    warning: bool,
    raw: Option<Finite>,
    normalized: Option<Finite>,
    direction: Direction,
    bestBefore: Best,
    bestAfter: Best,
    improvement: bool,
    counterAfter: nat)

  function ReportPath(iteration: nat): string {
    "reports/score_evaluation_" + Decimal(iteration) + ".json"
  }

  lemma ReportPathInjective(a: nat, b: nat)
    requires ReportPath(a) == ReportPath(b)
    ensures a == b
  {
    var p := "reports/score_evaluation_";
    assert ReportPath(a)[|p|..|ReportPath(a)| - 5] == Decimal(a);
    assert ReportPath(b)[|p|..|ReportPath(b)| - 5] == Decimal(b);
    DecimalInjective(a, b);
  }

  // The state delta; a field the delta does not hold is None.
  datatype Delta = Delta(
    counter: nat,
    lastScore: Option<Finite>,
    bestScore: Option<Finite>,
    bestPath: Option<string>)

  function Apply(s: LabState, d: Delta): LabState {
    s.(iterationsWithoutImprovement := d.counter,
       lastScore := if d.lastScore.Some? then d.lastScore.value else s.lastScore,
       bestScore := if d.bestScore.Some? then Score(d.bestScore.value) else s.bestScore,
       bestExperimentPath := if d.bestPath.Some? then d.bestPath.value else s.bestExperimentPath)
  }

  predicate Beats(score: Finite, best: Best) {
    best.NegInf? || best.value < score
  }

  // _coerce_finite_float, where it returns.
  function FiniteOf(value: Json): Option<Finite> {
    if value.JNumber? then value.rank else None
  }

  function Normalize(raw: Finite, direction: Direction): Finite {
    if direction == Maximize then raw else -raw
  }

  function Evaluate(s: LabState, root: seq<string>, files: ResultFiles, metric: Option<string>)
    : (Delta, Report)
  {
    var (dir, results) := ReadResults(s, root, files);
    var (iteration, warning) := OutputIteration(s, root, dir);
    var direction := DirectionFor(metric);
    match FiniteOf(Get(results, "cv_score"))
    case None =>
      var counter := s.iterationsWithoutImprovement + 1;
      (Delta(counter, None, None, None),
       Report(iteration, dir, warning, None, None, direction, s.bestScore, s.bestScore, false, counter))
    case Some(raw) =>
      var score := Normalize(raw, direction);
      var better := Beats(score, s.bestScore);
      var counter := if better then 0 else s.iterationsWithoutImprovement + 1;
      (Delta(counter, Some(score), if better then Some(score) else None, if better then Some(dir) else None),
       Report(iteration, dir, warning, Some(raw), Some(score), direction, s.bestScore,
              if better then Score(score) else s.bestScore, better, counter))
  }

  // What the report says was read.
  lemma ReportReads(s: LabState, root: seq<string>, files: ResultFiles, metric: Option<string>)
    ensures
      var report, (dir, results) := Evaluate(s, root, files, metric).1, ReadResults(s, root, files);
      && report.experimentDir == dir
      && report.raw == FiniteOf(Get(results, "cv_score"))
      && report.direction == DirectionFor(metric)
  {
    hide ReadResults, OutputIteration, DirectionFor, FiniteOf;
  }

  datatype ScoreOverflow = ScoreOverflow

  class Workspace {
    const root: seq<string>
    var results: ResultFiles
    var reports: map<string, Report>

    constructor (root: seq<string>, results: ResultFiles)
      ensures this.root == root && this.results == results && reports == map[]
    {
      this.root, this.results, reports := root, results, map[];
    }

    // ScoreEvaluatorNode.run: a score past every double raises before anything is written.
    method Run(s: LabState, metric: Option<string>) returns (r: Result<Delta, ScoreOverflow>)
      modifies this`reports
      ensures
        var (expected, report) := Evaluate(s, root, results, metric);
        if Get(ReadResults(s, root, results).1, "cv_score").JHuge? then
          r == Err(ScoreOverflow) && reports == old(reports)
        else
          r == Ok(expected) && reports == old(reports)[ReportPath(report.iteration) := report]
    {
      hide ReadResults, OutputIteration, ReportPath, DirectionFor, FiniteOf, Get;
      var dir, found := ReadExperimentResults(s, root, results);
      var (iteration, warning) := OutputIteration(s, root, dir);
      var direction := DirectionFor(metric);
      var read := Get(found, "cv_score");
      if read.JHuge? {
        return Err(ScoreOverflow);
      }
      var raw := FiniteOf(read);
      var before, counter := s.bestScore, s.iterationsWithoutImprovement;

      var score: Option<Finite> := None;
      var improvement := false;
      var after := before;
      var delta;
      if raw.None? {
        delta := Delta(counter + 1, None, None, None);
      } else {
        score := Some(Normalize(raw.value, direction));
        improvement := Beats(score.value, before);
        delta := Delta(if improvement then 0 else counter + 1, score, None, None);
        if improvement {
          delta := delta.(bestScore := score);
          delta := delta.(bestPath := Some(dir));
          after := Score(score.value);
        }
      }
      var report :=
        Report(iteration, dir, warning, raw, score, direction, before, after, improvement, delta.counter);
      reports := reports[ReportPath(iteration) := report];
      return Ok(delta);
    }
  }

  // --- what a history of evaluations amounts to ------------------------------------

  datatype Evaluated = Evaluated(raw: Option<Finite>, direction: Direction, dir: string)

  function ScoreOf(e: Evaluated): Option<Finite> {
    if e.raw.Some? then Some(Normalize(e.raw.value, e.direction)) else None
  }

  // Evaluation j scored strictly above everything before it.
  ghost predicate Improving(h: seq<Evaluated>, j: nat)
    requires j < |h|
  {
    && ScoreOf(h[j]).Some?
    && forall i :: 0 <= i < j && ScoreOf(h[i]).Some? ==> ScoreOf(h[i]).value < ScoreOf(h[j]).value
  }

  // How many evaluations it took to reach the last improving one; 0 when none improved.
  ghost function LastImproving(h: seq<Evaluated>): (n: nat)
    ensures n <= |h|
    ensures n > 0 ==> Improving(h, n - 1)
    ensures forall j :: n <= j < |h| ==> !Improving(h, j)
  {
    if h == [] then 0
    else if Improving(h, |h| - 1) then |h|
    else
      var n := LastImproving(h[..|h| - 1]);
      assert forall j :: 0 <= j < |h| - 1 ==> (Improving(h, j) <==> Improving(h[..|h| - 1], j));
      n
  }

  // best is the greatest score in h, and path names the first experiment that reached it.
  ghost predicate IsBestOf(h: seq<Evaluated>, best: Best, path: string) {
    match best
    case NegInf => path == "" && forall i :: 0 <= i < |h| ==> ScoreOf(h[i]).None?
    case Score(v) =>
      && (forall i :: 0 <= i < |h| && ScoreOf(h[i]).Some? ==> ScoreOf(h[i]).value <= v)
      && exists j :: 0 <= j < |h| && Improving(h, j) && ScoreOf(h[j]) == Some(v) && path == h[j].dir
  }

  // The history entry a report stands for.
  function EvaluatedBy(report: Report): Evaluated {
    Evaluated(report.raw, report.direction, report.experimentDir)
  }

  // The delta improves on the state exactly when the report's score beats the best before it.
  lemma DeltaFollowsReport(s: LabState, root: seq<string>, files: ResultFiles, metric: Option<string>)
    ensures
      var (d, report) := Evaluate(s, root, files, metric);
      var e := EvaluatedBy(report);
      var better := ScoreOf(e).Some? && Beats(ScoreOf(e).value, s.bestScore);
      && d.counter == (if better then 0 else s.iterationsWithoutImprovement + 1)
      && d.bestScore == (if better then ScoreOf(e) else None)
      && d.bestPath == (if better then Some(e.dir) else None)
  {
  }

  // And the report tells what the delta does: the best before and after it, whether that is news, and
  // the counter.
  lemma ReportTellsDelta(s: LabState, root: seq<string>, files: ResultFiles, metric: Option<string>)
    ensures
      var (d, report) := Evaluate(s, root, files, metric);
      && report.normalized == d.lastScore == ScoreOf(EvaluatedBy(report)) && report.counterAfter == d.counter
      && Apply(s, d).lastScore == (if report.normalized.Some? then report.normalized.value else s.lastScore)
      && report.bestBefore == s.bestScore && report.bestAfter == Apply(s, d).bestScore
      && (report.improvement <==> d.bestScore.Some?)
  {
  }

  // Of several directories the first with readable results is taken, and none only if none has any.
  lemma {:induction false} FirstReadableIff(dirs: seq<string>, files: ResultFiles)
    ensures FirstReadable(dirs, files).None? <==> forall i :: 0 <= i < |dirs| ==> ResultsAt(files, dirs[i]) == map[]
    ensures FirstReadable(dirs, files).Some? ==>
              exists k :: 0 <= k < |dirs| && FirstReadable(dirs, files) == Some(dirs[k]) && ResultsAt(files, dirs[k]) != map[]
                && forall i :: 0 <= i < k ==> ResultsAt(files, dirs[i]) == map[]
  {
    if dirs != [] {
      var rest := dirs[1..];
      FirstReadableIff(rest, files);
      assert forall i :: 0 < i < |dirs| ==> dirs[i] == rest[i - 1];
      if ResultsAt(files, dirs[0]) == map[] && FirstReadable(rest, files).Some? {
        var k :| 0 <= k < |rest| && FirstReadable(rest, files) == Some(rest[k]) && ResultsAt(files, rest[k]) != map[]
                 && forall i :: 0 <= i < k ==> ResultsAt(files, rest[i]) == map[];
        assert dirs[k + 1] == rest[k];
      }
    }
  }

  // One evaluation keeps the running summary exact.
  lemma EvaluateExtendsHistory(h: seq<Evaluated>, s: LabState, e: Evaluated, d: Delta)
    requires IsBestOf(h, s.bestScore, s.bestExperimentPath)
    requires s.iterationsWithoutImprovement == |h| - LastImproving(h)
    requires
      var better := ScoreOf(e).Some? && Beats(ScoreOf(e).value, s.bestScore);
      && d.counter == (if better then 0 else s.iterationsWithoutImprovement + 1)
      && d.bestScore == (if better then ScoreOf(e) else None)
      && d.bestPath == (if better then Some(e.dir) else None)
    ensures
      var s', h' := Apply(s, d), h + [e];
      && IsBestOf(h', s'.bestScore, s'.bestExperimentPath)
      && s'.iterationsWithoutImprovement == |h'| - LastImproving(h')
  {
    hide LastImproving;
    var s', h' := Apply(s, d), h + [e];
    assert h'[..|h|] == h;
    assert forall j :: 0 <= j < |h| ==> (Improving(h', j) <==> Improving(h, j));
    assert Improving(h', |h|) <==> ScoreOf(e).Some? && Beats(ScoreOf(e).value, s.bestScore);
    if s'.bestScore.Score? {
      if Improving(h', |h|) {
        assert h'[|h|] == e;
      } else {
        var j :| 0 <= j < |h| && Improving(h, j) && ScoreOf(h[j]) == Some(s.bestScore.value) && s.bestExperimentPath == h[j].dir;
        assert Improving(h', j);
      }
    }
  }
}
