// Phase 5: coder, then code_critic, which may re-invoke coder on its working copy of the state. What
// each call reads and leaves is arbitrary; the graph sees one experiment more, and the files of the
// last call.
module Implementation {
  import opened Common
  import opened CriticLoop
  import opened ExperimentPaths
  import opened LabStates
  import opened ScoreEvaluation
  import opened Text
  import Coder
  import JX = JsonExtraction
  import Pipeline

  // --- coder calls, one after another ----------------------------------------------

  // What the phase draws from outside: the turns of each coder call and the model its entry names, the
  // graph's own call first, and the reply of each review cycle.
  datatype Draws = Draws(turns: nat -> nat -> Coder.Turn, models: nat -> string, replies: nat -> Reply)

  // The phase's fixed surroundings: the iteration, the workspace root, and what was there before.
  datatype Before = Before(k: nat, root: seq<string>, files: Coder.Files, experiments: seq<Entry>)

  // The workspace and the working experiments after a coder call, and what the call came to.
  datatype Work = Work(files: Coder.Files, experiments: seq<Entry>, result: Result<Coder.Delta, Coder.CallError>)

  function JobOf(b: Before, d: Draws, c: nat): Coder.Job {
    Coder.Job(b.k, b.root, d.turns(c))
  }

  function CallCoder(b: Before, d: Draws, c: nat, files: Coder.Files, experiments: seq<Entry>): Work {
    var (after, r) := Coder.CoderRun(JobOf(b, d, c), files, experiments, d.models(c));
    Work(after, if r.Ok? then r.value.experiments else experiments, r)
  }

  // After calls 0 to c, each on what the one before it left.
  function After(b: Before, d: Draws, c: nat): Work {
    if c == 0 then CallCoder(b, d, 0, b.files, b.experiments)
    else CallCoder(b, d, c, After(b, d, c - 1).files, After(b, d, c - 1).experiments)
  }

  ghost predicate AllSucceed(b: Before, d: Draws, c: nat) {
    forall i :: 0 <= i <= c ==> After(b, d, i).result.Ok?
  }

  function FilesAt(b: Before, d: Draws, c: nat): Coder.Files {
    if c == 0 then b.files else After(b, d, c - 1).files
  }

  // The script of the attempt call c ended with, and the score it wrote into results.json.
  function ScoreWritten(b: Before, d: Draws, c: nat): Option<Finite> {
    Coder.ScoreWritten(d.turns(c)(Coder.Tries(JobOf(b, d, c), FilesAt(b, d, c)) - 1).script, b.k)
  }

  // The entry call c adds.
  function EntryOf(b: Before, d: Draws, c: nat): Entry {
    var score := Coder.ScoreIn(After(b, d, c).files, b.k);
    Entry(ExpName(b.k), CoderDir(b.k), if score.Some? then score.value else 0, b.k, d.models(c))
  }

  function EntriesOf(b: Before, d: Draws, n: nat): seq<Entry> {
    seq(n, i requires 0 <= i < n => EntryOf(b, d, i))
  }

  // A call that succeeds leaves on file the score its accepted script wrote, and adds the one entry
  // that says so.
  lemma CallAddsEntry(b: Before, d: Draws, c: nat)
    requires After(b, d, c).result.Ok?
    ensures Coder.ScoreIn(After(b, d, c).files, b.k) == ScoreWritten(b, d, c) == Some(EntryOf(b, d, c).cvScore)
    ensures After(b, d, c).experiments == (if c == 0 then b.experiments else After(b, d, c - 1).experiments) + [EntryOf(b, d, c)]
  {
    hide Coder.CoderRun, Coder.ScoreIn, Coder.ScoreWritten, Coder.CheckOf, Coder.Escapes, Coder.AllRejected;
    var files := FilesAt(b, d, c);
    var experiments := if c == 0 then b.experiments else After(b, d, c - 1).experiments;
    assert After(b, d, c) == CallCoder(b, d, c, files, experiments);
    Coder.CallRaisesIff(JobOf(b, d, c), files, experiments, d.models(c));
    Coder.AcceptedScoreIsWritten(JobOf(b, d, c), files, experiments, d.models(c));
  }

  // The working copy the reviews see grows by an entry with every call.
  lemma {:induction false} WorkingCopyGrows(b: Before, d: Draws, c: nat)
    requires AllSucceed(b, d, c)
    ensures After(b, d, c).experiments == b.experiments + EntriesOf(b, d, c + 1)
  {
    hide After, EntryOf, ScoreWritten, Coder.ScoreIn;
    CallAddsEntry(b, d, c);
    if c > 0 {
      WorkingCopyGrows(b, d, c - 1);
      assert EntriesOf(b, d, c + 1) == EntriesOf(b, d, c) + [EntryOf(b, d, c)];
    } else {
      assert EntriesOf(b, d, 1) == [EntryOf(b, d, 0)];
    }
  }

  // --- the review ------------------------------------------------------------------

  const CODER := "coder"
  const EXPERIMENTS := "experiments"

  function RunOf(w: Work): TargetRun {
    if w.result.Ok? then Returned(w.result.value.messages, map[EXPERIMENTS := Recorded(w.experiments)]) else Crashed
  }

  // The review's cycles: a retry in cycle i is coder call i + 1.
  function CyclesOf(b: Before, d: Draws): nat -> Cycle {
    (i: nat) => CycleOf(d.replies(i), [CODER], RunOf(After(b, d, i + 1)))
  }

  lemma CycleRuns(b: Before, d: Draws, i: nat)
    ensures CyclesOf(b, d)(i).run == RunOf(After(b, d, i + 1))
  {
    hide After, RunOf, ParseVerdict;
    assert CyclesOf(b, d)(i) == CycleOf(d.replies(i), [CODER], RunOf(After(b, d, i + 1)));
  }

  function Critic(maxRetries: int, window: int): Config {
    Config([CODER], maxRetries, window, {})
  }

  // How LangGraph merges a node's delta: messages are appended, other fields replaced.
  datatype GraphState = GraphState(messages: seq<Message>, fields: StateFields)

  function Merge(s: GraphState, messages: seq<Message>, fields: StateFields): GraphState {
    GraphState(s.messages + messages, s.fields + fields)
  }

  function AfterCoder(s: GraphState, b: Before, d: Draws): GraphState
    requires After(b, d, 0).result.Ok?
  {
    var delta := After(b, d, 0).result.value;
    Merge(s, delta.messages, map[EXPERIMENTS := Recorded(delta.experiments)])
  }

  lemma WorkHoldsResult(b: Before, d: Draws, c: nat)
    ensures After(b, d, c).result.Ok? ==> After(b, d, c).experiments == After(b, d, c).result.value.experiments
  {
    hide Coder.CoderRun;
  }

  // What every cycle head of the review works on.
  lemma {:induction false} WorkingFieldsHoldCopy(b: Before, d: Draws, s: GraphState, cfg: Config, n: nat)
    requires After(b, d, 0).result.Ok? && AllRetry(cfg, CyclesOf(b, d), n)
    ensures AllSucceed(b, d, n)
    ensures
      var fields := WorkingFields(AfterCoder(s, b, d).fields, CyclesOf(b, d), n);
      EXPERIMENTS in fields && fields[EXPERIMENTS] == Recorded(After(b, d, n).experiments)
  {
    hide After, CyclesOf, Visits;
    WorkHoldsResult(b, d, n);
    if n > 0 {
      WorkingFieldsHoldCopy(b, d, s, cfg, n - 1);
      assert Retries(cfg, CyclesOf(b, d), n - 1);
      CycleRuns(b, d, n - 1);
    }
  }

  // --- the phase -------------------------------------------------------------------

  // However often the critic has coder try again, the graph's experiments gain exactly the entry of
  // the graph's own coder call, while the review's working copy gained one per call and the score on
  // file is the one the last call's script wrote.
  lemma OneExperimentPerPhase(b: Before, d: Draws, s: GraphState, cfg: Config, n: nat, r: Outcome)
    requires EXPERIMENTS in s.fields && s.fields[EXPERIMENTS] == Recorded(b.experiments)
    requires After(b, d, 0).result.Ok? && EndsAt(cfg, CyclesOf(b, d), n, r) && r.Reviewed?
    ensures
      var after := Merge(AfterCoder(s, b, d), r.messages, r.fields);
      && EXPERIMENTS in after.fields
      && after.fields[EXPERIMENTS] == Recorded(b.experiments + [EntryOf(b, d, 0)])
      && (forall f :: f != EXPERIMENTS ==> (f in after.fields <==> f in s.fields))
      && (forall f :: f != EXPERIMENTS && f in s.fields ==> after.fields[f] == s.fields[f])
      && After(b, d, n).experiments == b.experiments + EntriesOf(b, d, n + 1)
      && Coder.ScoreIn(After(b, d, n).files, b.k) == ScoreWritten(b, d, n)
  {
    hide Coder.CoderRun, Coder.ScoreIn, ScoreWritten;
    CallAddsEntry(b, d, 0);
    WorkingFieldsHoldCopy(b, d, s, cfg, n);
    WorkingCopyGrows(b, d, n);
    CallAddsEntry(b, d, n);
    hide EntryOf;
    var last := ConcludingAttempt(cfg, CyclesOf(b, d), n);
    assert r.fields == map[];
  }

  // --- what the evaluator then reads -----------------------------------------------

  // results.json of iteration k, as score_evaluator reads it from these files.
  ghost predicate ReadsFrom(results: ResultFiles, files: Coder.Files, k: nat) {
    var path := Coder.ResultsPath(k);
    ResultsAt(results, ExpDir(k)) ==
    if path in files && files[path].content.Value? && files[path].content.json.JObject?
    then files[path].content.json.fields else map[]
  }

  lemma RawIsScoreIn(s: LabState, root: seq<string>, results: ResultFiles, metric: Option<string>, files: Coder.Files)
    requires Pipeline.Indexed(s.experiments) && |s.experiments| == s.currentIteration + 1
    requires ReadsFrom(results, files, s.currentIteration)
    ensures Evaluate(s, root, results, metric).1.raw == Coder.ScoreIn(files, s.currentIteration)
  {
    Pipeline.ResolvesOwnExperiment(s, root, results);
    hide ExpDir, OutputIteration, DirectionFor, ReadResults, Coder.ResultsPath;
    assert ReadResults(s, root, results).1 == ResultsAt(results, ExpDir(s.currentIteration));
  }

  // The evaluator reads the score the last coder call's accepted script wrote; it is the one recorded
  // with the experiment if and only if the first call's accepted script wrote the same.
  lemma RecordedScoreIsReadIff(b: Before, d: Draws, n: nat, s: LabState, results: ResultFiles, metric: Option<string>)
    requires AllSucceed(b, d, n)
    requires s.experiments == b.experiments + [EntryOf(b, d, 0)] && Pipeline.Indexed(s.experiments)
    requires s.currentIteration == b.k == |b.experiments|
    requires ReadsFrom(results, After(b, d, n).files, b.k)
    ensures
      var raw := Evaluate(s, b.root, results, metric).1.raw;
      && raw == ScoreWritten(b, d, n)
      && (raw == Some(s.experiments[b.k].cvScore) <==> ScoreWritten(b, d, n) == ScoreWritten(b, d, 0))
  {
    hide Coder.CoderRun, Coder.ScoreIn, ScoreWritten, Evaluate, ReadsFrom;
    CallAddsEntry(b, d, 0);
    CallAddsEntry(b, d, n);
    hide EntryOf;
    RawIsScoreIn(s, b.root, results, metric, After(b, d, n).files);
  }

  // --- a retry that moves the score ------------------------------------------------

  function Results(score: Finite): Json {
    JObject(map["cv_score" := JNumber(Some(score))])
  }

  predicate LeftResults(files: Coder.Files, k: nat, score: Finite) {
    Coder.ResultsPath(k) in files && files[Coder.ResultsPath(k)].content == JX.Value(Results(score))
  }

  // A script that leaves all three contract files.
  function GoodScript(k: nat, score: Finite): Coder.Script {
    Coder.Script(
      map[
        Coder.OofPath(k) := JX.Malformed, Coder.SubmissionPath(k) := JX.Malformed,
        Coder.ResultsPath(k) := JX.Value(Results(score))
      ],
      {}, 0, false)
  }

  function GoodTurn(k: nat, score: Finite): Coder.Turn {
    Coder.Turn(Coder.Scripted("", "x", ""), GoodScript(k, score))
  }

  lemma ContractPathsDiffer(k: nat)
    ensures Coder.ResultsPath(k) != Coder.SubmissionPath(k)
    ensures Coder.ResultsPath(k) != Coder.OofPath(k)
    ensures Coder.SubmissionPath(k) != Coder.OofPath(k)
  {
    hide ExpDir;
    assert |Coder.ResultsPath(k)| == |ExpDir(k)| + 13;
    assert |Coder.SubmissionPath(k)| == |ExpDir(k)| + 15;
    assert |Coder.OofPath(k)| == |ExpDir(k)| + 24;
  }

  lemma DefaultOofIsAccepted(k: nat, root: seq<string>)
    ensures CoderOof(None, k, root).Some?
  {
    ExpDirParts(k);
    ExpNameIsPlain(k);
    hide ExpDir, ExpName, Parts;
    assert ".." !in ["experiments", ExpName(k)] + [FALLBACK_OOF];
  }

  lemma GoodFilesPass(files: Coder.Files, k: nat, root: seq<string>, score: Finite)
    requires LeftResults(files, k, score)
    requires Coder.SubmissionPath(k) in files && Coder.OofPath(k) in files
    ensures Coder.ValidateRun(files, k, root, GoodScript(k, score)) == Coder.Accepted
    ensures Coder.ScoreIn(files, k) == Some(score)
  {
    var results := Results(score).fields;
    assert |"cv_score"| != |"metric"| && "cv_score"[0] != "oof_path"[0];
    assert Get(results, "cv_score") == JNumber(Some(score)) && Get(results, "metric") == JNull;
    assert Coder.OofFieldOf(results) == None;
    DefaultOofIsAccepted(k, root);
    Coder.DefaultOofPath(None, k, root);
    hide Coder.ResultsPath, Coder.SubmissionPath, Coder.OofPath, CoderOof, Results, Render;
  }

  lemma GoodTurnLeaves(job: Coder.Job, files: Coder.Files, score: Finite)
    requires job.turns(0) == GoodTurn(job.k, score)
    ensures
      var after := Coder.AttemptFiles(job, files, 0);
      && LeftResults(after, job.k, score)
      && Coder.SubmissionPath(job.k) in after && Coder.OofPath(job.k) in after
      && Coder.AttemptCheck(job, files, 0) == Coder.ValidateRun(after, job.k, job.root, GoodScript(job.k, score))
  {
    Coder.OneLetterScript();
    ContractPathsDiffer(job.k);
    assert '\0' !in "x";
    hide Coder.ExtractCode, Coder.Scripted, Coder.ResultsPath, Coder.SubmissionPath, Coder.OofPath, Coder.AttemptFiles, Coder.ValidateRun, Results;
    Coder.LeftByScript(job, files, 0, Coder.ResultsPath(job.k));
    Coder.LeftByScript(job, files, 0, Coder.SubmissionPath(job.k));
    Coder.LeftByScript(job, files, 0, Coder.OofPath(job.k));
  }

  lemma GoodTurnSucceeds(job: Coder.Job, files: Coder.Files, score: Finite)
    requires job.turns(0) == GoodTurn(job.k, score)
    ensures Coder.CheckOf(job, files, 0) == Coder.Accepted && Coder.Tries(job, files) == 1
    ensures LeftResults(Coder.FilesBefore(job, files, 1), job.k, score)
    ensures Coder.ScoreIn(Coder.FilesBefore(job, files, 1), job.k) == Some(score)
  {
    NothingRejected(job, files);
    hide *;
    GoodTurnLeaves(job, files, score);
    GoodFilesPass(Coder.AttemptFiles(job, files, 0), job.k, job.root, score);
    Coder.FilesStep(job, files, 0);
    Coder.TriesAre(job, files, 1);
  }

  lemma NothingRejected(job: Coder.Job, files: Coder.Files)
    ensures Coder.AllRejected(job, files, 0) && Coder.FilesBefore(job, files, 0) == files
  {
  }

  // The critic's first n replies are unreadable text, the next passes; every coder call succeeds at
  // once, the first scoring 1 and the rest 2.
  function RetryDraws(k: nat, n: nat): Draws {
    Draws(
      (c: nat) => (i: nat) => GoodTurn(k, if c == 0 then 1 else 2),
      (c: nat) => "xgboost",
      (i: nat) => if i < n then UNREADABLE else PassReply())
  }

  lemma RetryCall(b: Before, n: nat, c: nat)
    ensures After(b, RetryDraws(b.k, n), c).result.Ok?
    ensures EntryOf(b, RetryDraws(b.k, n), c).cvScore == if c == 0 then 1 else 2
    ensures LeftResults(After(b, RetryDraws(b.k, n), c).files, b.k, if c == 0 then 1 else 2)
  {
    var d := RetryDraws(b.k, n);
    assert d.turns(c)(0) == GoodTurn(b.k, if c == 0 then 1 else 2);
    hide RetryDraws, GoodTurn, After, EntryOf, LeftResults;
    GoodAfter(b, d, c, if c == 0 then 1 else 2);
  }

  lemma GoodAfter(b: Before, d: Draws, c: nat, score: Finite)
    requires d.turns(c)(0) == GoodTurn(b.k, score)
    ensures After(b, d, c).result.Ok? && EntryOf(b, d, c).cvScore == score
    ensures LeftResults(After(b, d, c).files, b.k, score)
  {
    var files := if c == 0 then b.files else After(b, d, c - 1).files;
    var experiments := if c == 0 then b.experiments else After(b, d, c - 1).experiments;
    assert After(b, d, c) == CallCoder(b, d, c, files, experiments);
    hide GoodTurn, CallCoder, Coder.ScoreIn, After, LeftResults;
    GoodCall(b, d, c, files, experiments, score);
  }

  // The review retries n times and then passes.
  ghost predicate RetriesTimes(b: Before, d: Draws, cfg: Config, n: nat) {
    && AllSucceed(b, d, n)
    && EndsAt(cfg, CyclesOf(b, d), n, Concluded(cfg, CyclesOf(b, d), n))
    && Concluded(cfg, CyclesOf(b, d), n).Reviewed?
  }

  // Whenever there is a retry the score on file can be another than the one recorded: here 2 where
  // the experiment says 1.
  lemma RetryMovesScore(b: Before, maxRetries: int, window: int, n: nat) returns (d: Draws)
    requires 0 < n <= maxRetries
    ensures RetriesTimes(b, d, Critic(maxRetries, window), n)
    ensures EntryOf(b, d, 0).cvScore == 1 && ScoreWritten(b, d, n) == Some(2)
  {
    d := RetryDraws(b.k, n);
    forall c: nat ensures After(b, d, c).result.Ok? && EntryOf(b, d, c).cvScore == if c == 0 then 1 else 2 {
      RetryCall(b, n, c);
    }
    CallAddsEntry(b, d, n);
    forall i: nat ensures Iterating(CyclesOf(b, d)(i)) <==> i < n {
      RetryReply(b, n, i);
    }
    RetryReply(b, n, n);
    hide RetryDraws, CyclesOf, After, EntryOf, ScoreWritten;
    RetriesThenPass(Critic(maxRetries, window), CyclesOf(b, d), n);
  }

  // Over every choice of replies and scripts with n retries, the recorded score and the one on file
  // agree if and only if n is zero.
  lemma ScoresAgreeIff(b: Before, maxRetries: int, window: int, n: nat)
    requires n <= maxRetries
    ensures (forall d :: RetriesTimes(b, d, Critic(maxRetries, window), n) ==> ScoreWritten(b, d, n) == ScoreWritten(b, d, 0))
       <==> n == 0
  {
    hide RetriesTimes, ScoreWritten, EntryOf;
    if n > 0 {
      var d := RetryMovesScore(b, maxRetries, window, n);
      RetriedCallsAddEntry(b, d, Critic(maxRetries, window), n);
    }
  }

  lemma RetriedCallsAddEntry(b: Before, d: Draws, cfg: Config, n: nat)
    requires RetriesTimes(b, d, cfg, n)
    ensures ScoreWritten(b, d, 0) == Some(EntryOf(b, d, 0).cvScore)
  {
    hide ScoreWritten, EntryOf, EndsAt, Concluded;
    CallAddsEntry(b, d, 0);
  }

  predicate Iterating(c: Cycle) {
    !c.unreadable && c.judgement.verdict == Iterate && c.judgement.target == CODER && c.run.Returned?
  }

  const UNREADABLE := Reply("hm", JX.Nothing)

  function PassReply(): Reply {
    Reply("ok", JX.Object(map["verdict" := JString("pass")]))
  }

  lemma UnreadableIterates(run: TargetRun)
    ensures
      var c := CycleOf(UNREADABLE, [CODER], run);
      !c.unreadable && c.judgement.verdict == Iterate && c.judgement.target == CODER && c.run == run
  {
    hide FeedbackOf;
  }

  lemma PassReplyPasses(run: TargetRun)
    ensures
      var c := CycleOf(PassReply(), [CODER], run);
      !c.unreadable && c.judgement.verdict == Pass
  {
    hide FeedbackOf;
  }

  lemma RetryReply(b: Before, n: nat, i: nat)
    ensures
      var c := CyclesOf(b, RetryDraws(b.k, n))(i);
      (Iterating(c) <==> i < n) && (i >= n ==> !c.unreadable && c.judgement.verdict == Pass)
  {
    hide After, EntryOf, CycleOf, RunOf;
    var d := RetryDraws(b.k, n);
    var run := RunOf(After(b, d, i + 1));
    assert d.replies(i) == if i < n then UNREADABLE else PassReply();
    hide RetryDraws;
    RetryCallReturns(b, n, i + 1);
    assert CyclesOf(b, d)(i) == CycleOf(d.replies(i), [CODER], run);
    UnreadableIterates(run);
    PassReplyPasses(run);
  }

  lemma RetryCallReturns(b: Before, n: nat, c: nat)
    ensures RunOf(After(b, RetryDraws(b.k, n), c)).Returned?
  {
    hide After, EntryOf, RetryDraws;
    RetryCall(b, n, c);
  }

  lemma {:induction false} VisitsCoder(cs: nat -> Cycle, n: nat)
    requires forall i :: 0 <= i < n ==> Iterating(cs(i))
    ensures Visits(cs, n, CODER) == n
  {
    if n > 0 {
      VisitsCoder(cs, n - 1);
    }
  }

  lemma RetriesThenPass(cfg: Config, cs: nat -> Cycle, n: nat)
    requires n <= cfg.maxRetries && !cs(n).unreadable && cs(n).judgement.verdict == Pass
    requires forall i :: 0 <= i < n ==> Iterating(cs(i))
    ensures EndsAt(cfg, cs, n, Concluded(cfg, cs, n)) && Concluded(cfg, cs, n).Reviewed?
  {
    forall i | 0 <= i < n ensures Retries(cfg, cs, i) {
      VisitsCoder(cs, i);
      assert Iterating(cs(i));
    }
  }

  lemma GoodCall(b: Before, d: Draws, c: nat, files: Coder.Files, experiments: seq<Entry>, score: Finite)
    requires d.turns(c)(0) == GoodTurn(b.k, score)
    ensures CallCoder(b, d, c, files, experiments).result.Ok?
    ensures LeftResults(CallCoder(b, d, c, files, experiments).files, b.k, score)
    ensures Coder.ScoreIn(CallCoder(b, d, c, files, experiments).files, b.k) == Some(score)
  {
    hide Coder.ScoreIn, Coder.CheckOf, Coder.FilesBefore, GoodTurn, LeftResults;
    GoodTurnSucceeds(JobOf(b, d, c), files, score);
  }
}
