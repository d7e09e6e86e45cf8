// src/nodes/llm/coder.py: generate a training script, run it, check what it left behind, and try
// again at most twice. Replies and scripts are arbitrary; a script may write or delete any file. What
// the gate does not catch leaves the node at once.
module Coder {
  import opened Common
  import opened Text
  import opened ExperimentPaths
  import opened LabStates
  import JX = JsonExtraction

  const MAX_EXECUTION_RETRIES: nat := 2
  const VALID_METRICS := {"accuracy", "r2", "rsquared", "score"}

  // --- the reply -------------------------------------------------------------------

  datatype Failure =
    | NoFence | ManyFences | EmptyScript
    | TimedOut | ExitCode(code: int)
    | ResultsUnreadable | ResultsNotAnObject
    | ScoreNotANumber | ScoreNotFinite | MetricUnknown
    | SubmissionMissing | OofMissing

  const FENCE := "```"

  // The end of the white space that starts at i.
  function SkipSpace(s: string, i: nat): (r: nat)
    requires i <= |s|
    ensures i <= r <= |s|
    ensures forall j :: i <= j < r ==> IsSpace(s[j])
    decreases |s| - i
  {
    if i < |s| && IsSpace(s[i]) then SkipSpace(s, i + 1) else i
  }

  // Where the body of a code fence opening at i starts: after the last newline of the white space
  // that follows the marker and the optional label.
  function BodyStart(s: string, i: nat): (r: Option<nat>)
    requires OccursAt(s, FENCE, i)
    ensures r.Some? ==> i + 3 < r.value <= |s|
  {
    var j := if OccursAt(s, "python", i + 3) then i + 9 else i + 3;
    var end := SkipSpace(s, j);
    match FindLast(s[j..end], "\n", end - j)
    case Some(k) => Some(j + k + 1)
    case None => None
  }

  // re.findall of the code-fence pattern from position i on.
  function FencedBlocks(s: string, i: nat): seq<string>
    requires i <= |s|
    decreases |s| - i
  {
    match Find(s, FENCE, i)
    case None => []
    case Some(open) =>
      match BodyStart(s, open)
      case None => FencedBlocks(s, open + 1)
      case Some(start) =>
        match Find(s, FENCE, start)
        case None => FencedBlocks(s, open + 1)
        case Some(close) => [s[start..close]] + FencedBlocks(s, close + 3)
  }

  function ExtractCode(content: string): Result<string, Failure> {
    var blocks := FencedBlocks(content, 0);
    if blocks == [] then Err(NoFence)
    else if |blocks| > 1 then Err(ManyFences)
    else if Strip(blocks[0]) == "" then Err(EmptyScript)
    else Ok(Strip(blocks[0]))
  }

  // A reply holding one labelled fence: prose around it, the fence closed right after the code.
  function Scripted(prose: string, code: string, trail: string): string {
    prose + (FENCE + "python\n") + (code + FENCE + trail)
  }

  lemma FindShifted(front: string, s: string, p: string, from: nat)
    ensures Find(front + s, p, |front| + from) ==
            match Find(s, p, from) case None => None case Some(k) => Some(|front| + k)
  {
    hide Find;
    var found := Find(s, p, from);
    forall i | |front| <= i ensures OccursAt(front + s, p, i) <==> OccursAt(s, p, i - |front|) {
      if i + |p| <= |front + s| {
        assert (front + s)[i..i + |p|] == s[i - |front|..i - |front| + |p|];
      }
    }
    FindDetermined(front + s, p, |front| + from, if found.Some? then Some(|front| + found.value) else None);
  }

  lemma FindDetermined(s: string, p: string, from: nat, k: Option<nat>)
    requires k.Some? ==> from <= k.value && OccursAt(s, p, k.value)
    requires forall i :: from <= i && (k.Some? ==> i < k.value) ==> !OccursAt(s, p, i)
    ensures Find(s, p, from) == k
  {
    var found := Find(s, p, from);
  }

  // The blank lines a code starts with are taken for part of the opening fence.
  lemma BodyStartsInCode(prose: string, code: string, trail: string) returns (pad: nat)
    ensures OccursAt(Scripted(prose, code, trail), FENCE, |prose|)
    ensures pad <= |code| && AllSpace(code[..pad])
    ensures BodyStart(Scripted(prose, code, trail), |prose|) == Some(|prose| + 10 + pad)
  {
    var s, j, bound := Scripted(prose, code, trail), |prose| + 9, |prose| + 10 + |code|;
    assert s[|prose|..|prose| + 3] == FENCE && s[|prose| + 3..j] == "python";
    assert s[j] == '\n' && s[bound] == '`';
    var end := SkipSpace(s, j);
    assert end > j && end <= bound;
    var line := s[j..end];
    OccursChar(line, '\n', 0);
    var k := FindLast(line, "\n", end - j).value;
    OccursChar(line, '\n', k);
    pad := k;
    forall i | 0 <= i < pad ensures IsSpace(code[..pad][i]) {
      assert s[j + 1 + i] == code[i];
    }
  }

  // One fence in the reply: its code, stripped, is the script.
  lemma OneFenceIsTheScript(prose: string, code: string, trail: string)
    requires Find(Scripted(prose, code, trail), FENCE, 0) == Some(|prose|)
    requires Find(code + FENCE + trail, FENCE, 0) == Some(|code|) && Find(trail, FENCE, 0) == None
    ensures ExtractCode(Scripted(prose, code, trail)) ==
            if Strip(code) == "" then Err(EmptyScript) else Ok(Strip(code))
  {
    hide Find, BodyStart, FencedBlocks, Strip, Scripted;
    var pad := BodyStartsInCode(prose, code, trail);
    ClosesAfterCode(prose, code, trail, pad);
    OneBlock(Scripted(prose, code, trail), |prose|, |prose| + 10 + pad, |prose| + 10 + |code|);
    BlockIsCode(prose, code, trail, pad);
  }

  // No fence, no script.
  lemma NoFenceIsRefused(content: string)
    requires Find(content, FENCE, 0) == None
    ensures ExtractCode(content) == Err(NoFence)
  {
  }

  lemma OccursShifted(front: string, s: string, p: string, i: nat)
    ensures OccursAt(front + s, p, |front| + i) <==> OccursAt(s, p, i)
  {
    if i + |p| <= |s| {
      assert (front + s)[|front| + i..|front| + i + |p|] == s[i..i + |p|];
    }
  }

  lemma {:induction false} SkipSpaceShifted(front: string, s: string, i: nat)
    requires i <= |s|
    ensures SkipSpace(front + s, |front| + i) == |front| + SkipSpace(s, i)
    decreases |s| - i
  {
    if i < |s| && IsSpace(s[i]) {
      SkipSpaceShifted(front, s, i + 1);
    }
  }

  lemma PieceShifted(front: string, s: string, i: nat, j: nat)
    requires i <= j <= |s|
    ensures (front + s)[|front| + i..|front| + j] == s[i..j]
  {
    var whole := front + s;
    forall k | 0 <= k < j - i ensures whole[|front| + i..|front| + j][k] == s[i..j][k] {
      assert whole[|front| + i + k] == s[i + k];
    }
  }

  lemma LabelFits(s: string, i: nat)
    requires OccursAt(s, FENCE, i)
    ensures i + 3 <= |s| && (OccursAt(s, "python", i + 3) ==> i + 9 <= |s|)
  {
  }

  lemma BodyStartShifted(front: string, s: string, i: nat)
    requires OccursAt(s, FENCE, i)
    ensures OccursAt(front + s, FENCE, |front| + i)
    ensures BodyStart(front + s, |front| + i) ==
            match BodyStart(s, i) case None => None case Some(k) => Some(|front| + k)
  {
    hide FindLast, SkipSpace, OccursAt;
    LabelFits(s, i);
    OccursShifted(front, s, FENCE, i);
    OccursShifted(front, s, "python", i + 3);
    var j := if OccursAt(s, "python", i + 3) then i + 9 else i + 3;
    SkipSpaceShifted(front, s, j);
    PieceShifted(front, s, j, SkipSpace(s, j));
  }

  // One block of the scan, and one fence that opens none.
  lemma BlockStep(s: string, i: nat, open: nat, start: nat, close: nat)
    requires i <= |s| && Find(s, FENCE, i) == Some(open) && BodyStart(s, open) == Some(start)
    requires Find(s, FENCE, start) == Some(close)
    ensures start <= close && close + 3 <= |s| && FencedBlocks(s, i) == [s[start..close]] + FencedBlocks(s, close + 3)
  {
    hide BodyStart, Find;
  }

  lemma BlockSkip(s: string, i: nat, open: nat)
    requires i <= |s| && Find(s, FENCE, i) == Some(open)
    requires BodyStart(s, open).None? || Find(s, FENCE, BodyStart(s, open).value).None?
    ensures open + 1 <= |s| && FencedBlocks(s, i) == FencedBlocks(s, open + 1)
  {
    hide BodyStart, Find;
  }

  lemma NoBlock(s: string, i: nat)
    requires i <= |s| && Find(s, FENCE, i) == None
    ensures FencedBlocks(s, i) == []
  {
  }

  lemma {:induction false} BlocksShifted(front: string, s: string, i: nat)
    requires i <= |s|
    ensures FencedBlocks(front + s, |front| + i) == FencedBlocks(s, i)
    decreases |s| - i
  {
    hide FencedBlocks, BodyStart, Find, OccursAt;
    var whole := front + s;
    FindShifted(front, s, FENCE, i);
    match Find(s, FENCE, i)
    case None =>
      NoBlock(s, i);
      NoBlock(whole, |front| + i);
    case Some(open) =>
      BodyStartShifted(front, s, open);
      var body := BodyStart(s, open);
      if body.Some? {
        FindShifted(front, s, FENCE, body.value);
      }
      if body.Some? && Find(s, FENCE, body.value).Some? {
        var close := Find(s, FENCE, body.value).value;
        BlockStep(s, i, open, body.value, close);
        BlockStep(whole, |front| + i, |front| + open, |front| + body.value, |front| + close);
        PieceShifted(front, s, body.value, close);
        BlocksShifted(front, s, close + 3);
      } else {
        BlockSkip(s, i, open);
        BlockSkip(whole, |front| + i, |front| + open);
        BlocksShifted(front, s, open + 1);
      }
  }

  lemma ScriptedFront(prose: string, code: string, trail: string)
    ensures
      var front := prose + (FENCE + "python\n") + (code + FENCE);
      Scripted(prose, code, trail) == front + trail && |front| == |prose| + 10 + |code| + 3
  {
  }

  lemma TwoBlocksAreRefused(s: string, open: nat, start: nat, close: nat)
    requires Find(s, FENCE, 0) == Some(open) && BodyStart(s, open) == Some(start)
    requires Find(s, FENCE, start) == Some(close) && close + 3 <= |s| && FencedBlocks(s, close + 3) != []
    ensures ExtractCode(s) == Err(ManyFences)
  {
    BlockStep(s, 0, open, start, close);
    hide FencedBlocks, Find, BodyStart, Strip;
  }

  // A second fenced block after the first makes the reply unusable.
  lemma TwoFencesAreRefused(prose: string, code: string, trail: string)
    requires Find(Scripted(prose, code, trail), FENCE, 0) == Some(|prose|)
    requires Find(code + FENCE + trail, FENCE, 0) == Some(|code|) && FencedBlocks(trail, 0) != []
    ensures ExtractCode(Scripted(prose, code, trail)) == Err(ManyFences)
  {
    hide *;
    var front := prose + (FENCE + "python\n") + (code + FENCE);
    ScriptedFront(prose, code, trail);
    BlocksShifted(front, trail, 0);
    var pad := BodyStartsInCode(prose, code, trail);
    ClosesWhereCodeEnds(prose, code, trail, pad);
    TwoBlocksAreRefused(Scripted(prose, code, trail), |prose|, |prose| + 10 + pad, |prose| + 10 + |code|);
  }

  lemma OneBlock(s: string, open: nat, start: nat, close: nat)
    requires Find(s, FENCE, 0) == Some(open) && BodyStart(s, open) == Some(start)
    requires Find(s, FENCE, start) == Some(close) && Find(s, FENCE, close + 3) == None
    ensures start <= close && close + 3 <= |s| && FencedBlocks(s, 0) == [s[start..close]]
  {
    hide BodyStart;
    assert FencedBlocks(s, close + 3) == [];
  }

  lemma BlockIsCode(prose: string, code: string, trail: string, pad: nat)
    requires pad <= |code| && AllSpace(code[..pad])
    ensures |prose| + 10 + |code| <= |Scripted(prose, code, trail)|
    ensures Strip(Scripted(prose, code, trail)[|prose| + 10 + pad..|prose| + 10 + |code|]) == Strip(code)
  {
    assert Scripted(prose, code, trail)[|prose| + 10 + pad..|prose| + 10 + |code|] == code[pad..];
    assert code == code[..pad] + code[pad..];
    StripLeftPad(code[..pad], code[pad..]);
  }

  lemma ClosesAfterCode(prose: string, code: string, trail: string, pad: nat)
    requires pad <= |code|
    requires Find(code + FENCE + trail, FENCE, 0) == Some(|code|) && Find(trail, FENCE, 0) == None
    ensures Find(Scripted(prose, code, trail), FENCE, |prose| + 10 + pad) == Some(|prose| + 10 + |code|)
    ensures Find(Scripted(prose, code, trail), FENCE, |prose| + 10 + |code| + 3) == None
  {
    hide Find;
    var front, tail := prose + (FENCE + "python\n"), code + FENCE + trail;
    ClosesWhereCodeEnds(prose, code, trail, pad);
    FindShifted(code + FENCE, trail, FENCE, 0);
    FindShifted(front, tail, FENCE, |code| + 3);
  }

  lemma ClosesWhereCodeEnds(prose: string, code: string, trail: string, pad: nat)
    requires pad <= |code| && Find(code + FENCE + trail, FENCE, 0) == Some(|code|)
    ensures Find(Scripted(prose, code, trail), FENCE, |prose| + 10 + pad) == Some(|prose| + 10 + |code|)
  {
    hide Find;
    var front, tail := prose + (FENCE + "python\n"), code + FENCE + trail;
    FindIs(tail, FENCE, pad, |code|) by {
      assert tail[|code|..|code| + 3] == FENCE;
    }
    FindShifted(front, tail, FENCE, pad);
  }

  // --- files -----------------------------------------------------------------------

  // Who wrote a file: something before this call, or one of this call's attempts.
  datatype Writer = Earlier | Attempt(number: nat)

  // A file's content matters only as far as what json.load makes of it.
  datatype File = File(content: JX.Parsed, writer: Writer)

  type Files = map<string, File>

  function TrainPath(k: nat): string { ExpDir(k) + "/train.py" }
  function ResultsPath(k: nat): string { ExpDir(k) + "/results.json" }
  function SubmissionPath(k: nat): string { ExpDir(k) + "/submission.csv" }
  function OofPath(k: nat): string { ExpDir(k) + "/" + FALLBACK_OOF }

  function ContractPaths(k: nat): set<string> {
    {ResultsPath(k), SubmissionPath(k), OofPath(k)}
  }

  // One execution, finished by the time its result is known.
  datatype Script = Script(writes: map<string, JX.Parsed>, deletes: set<string>, returncode: int, timedOut: bool)

  function Executed(files: Files, script: Script, attempt: nat): Files {
    (files - script.deletes) + map p | p in script.writes :: File(script.writes[p], Attempt(attempt))
  }

  // --- the gate --------------------------------------------------------------------

  // What leaves the retry loop as an exception instead of counting as a failed attempt.
  datatype Escape = NulInScript | ResultsTooDeep | ScoreOverflow | NulInOofPath

  datatype Check = Accepted | Rejected(reason: Failure) | Escaped(error: Escape)

  function NormalizeMetric(s: string): string {
    if s == "" then ""
    else if s[0] == '-' || s[0] == '_' || IsSpace(s[0]) then NormalizeMetric(s[1..])
    else [LowerChar(s[0])] + NormalizeMetric(s[1..])
  }

  predicate MetricAllowed(metric: Json) {
    metric.JNull? || (metric.JString? && NormalizeMetric(metric.s) in VALID_METRICS)
  }

  function OofFieldOf(results: Fields): OofField {
    var oof := Get(results, "oof_path");
    if oof.JString? then Some(oof.s) else None
  }

  // Path.resolve raises on a NUL, and is reached before the containment check.
  predicate OofRaises(oof: OofField, root: seq<string>) {
    Usable(oof) &&
    match Relativize(Strip(oof.value), root)
    case None => false
    case Some(reference) => ".." !in Parts(reference) && '\0' in reference
  }

  // _oof_artifact_exists where it returns, without symbolic links.
  predicate OofExists(files: Files, k: nat, root: seq<string>, results: Fields) {
    match CoderOof(OofFieldOf(results), k, root)
    case None => false
    case Some(parts) => Render(parts) in files
  }

  // _validate_run. read_json is guarded against OSError and ValueError only, math.isfinite and the
  // out-of-fold check against nothing.
  function ValidateRun(files: Files, k: nat, root: seq<string>, script: Script): Check {
    if script.timedOut then Rejected(TimedOut)
    else if script.returncode != 0 then Rejected(ExitCode(script.returncode))
    else if ResultsPath(k) !in files then Rejected(ResultsUnreadable)
    else
      match files[ResultsPath(k)].content
      case TooDeep => Escaped(ResultsTooDeep)
      case Value(json) =>
        if json.JObject? then ValidateResults(files, k, root, json.fields) else Rejected(ResultsNotAnObject)
      case _ => Rejected(ResultsUnreadable)
  }

  function ValidateResults(files: Files, k: nat, root: seq<string>, results: Fields): Check {
    var score := Get(results, "cv_score");
    if score.JHuge? then Escaped(ScoreOverflow)
    else if !score.JNumber? then Rejected(ScoreNotANumber)
    else if score.rank.None? then Rejected(ScoreNotFinite)
    else if !MetricAllowed(Get(results, "metric")) then Rejected(MetricUnknown)
    else if SubmissionPath(k) !in files then Rejected(SubmissionMissing)
    else if OofRaises(OofFieldOf(results), root) then Escaped(NulInOofPath)
    else if !OofExists(files, k, root, results) then Rejected(OofMissing)
    else Accepted
  }

  // --- one attempt -----------------------------------------------------------------

  // What one attempt draws from outside: the LLM's reply, and what running the code in it would do.
  datatype Turn = Turn(reply: string, script: Script)

  datatype Job = Job(k: nat, root: seq<string>, turns: nat -> Turn)

  // What stands before the script runs: train.py, and no contract file.
  function Prepared(job: Job, files: Files, i: nat): Files {
    files[TrainPath(job.k) := File(JX.Malformed, Attempt(i))] - ContractPaths(job.k)
  }

  // The files attempt i leaves behind. A process cannot be started on code that holds a NUL.
  function AttemptFiles(job: Job, files: Files, i: nat): Files {
    match ExtractCode(job.turns(i).reply)
    case Err(_) => files
    case Ok(code) =>
      if '\0' in code then Prepared(job, files, i) else Executed(Prepared(job, files, i), job.turns(i).script, i)
  }

  function AttemptCheck(job: Job, files: Files, i: nat): Check {
    match ExtractCode(job.turns(i).reply)
    case Err(e) => Rejected(e)
    case Ok(code) =>
      if '\0' in code then Escaped(NulInScript)
      else ValidateRun(AttemptFiles(job, files, i), job.k, job.root, job.turns(i).script)
  }

  // The files before attempt n when every attempt before it was made.
  function FilesBefore(job: Job, files: Files, n: nat): Files {
    if n == 0 then files else AttemptFiles(job, FilesBefore(job, files, n - 1), n - 1)
  }

  function CheckOf(job: Job, files: Files, i: nat): Check {
    AttemptCheck(job, FilesBefore(job, files, i), i)
  }

  // The first n attempts all fail in a way that is tried again.
  predicate AllRejected(job: Job, files: Files, n: nat) {
    n == 0 || (AllRejected(job, files, n - 1) && CheckOf(job, files, n - 1).Rejected?)
  }

  // The conversation shown to the LLM on attempt n, after the opening message: each failed reply with
  // the reason it failed for.
  function Conversation(job: Job, files: Files, n: nat): seq<(string, Failure)> {
    if n == 0 then []
    else
      Conversation(job, files, n - 1) +
      match CheckOf(job, files, n - 1)
      case Rejected(reason) => [(job.turns(n - 1).reply, reason)]
      case _ => []
  }

  // A conversation that one more failed attempt extends.
  lemma ConversationGrows(job: Job, files: Files, n: nat)
    requires CheckOf(job, files, n).Rejected?
    ensures Conversation(job, files, n + 1) ==
            Conversation(job, files, n) + [(job.turns(n).reply, CheckOf(job, files, n).reason)]
  {
  }

  // What the LLM was shown, attempt by attempt.
  // Message by message: every reply so far with what was wrong with it, oldest first.
  lemma {:induction false} ConversationIs(job: Job, files: Files, n: nat)
    requires AllRejected(job, files, n)
    ensures |Conversation(job, files, n)| == n
    ensures forall i :: 0 <= i < n ==>
              CheckOf(job, files, i) == Rejected(Conversation(job, files, n)[i].1)
              && Conversation(job, files, n)[i].0 == job.turns(i).reply
  {
    hide CheckOf;
    if n > 0 {
      ConversationIs(job, files, n - 1);
    }
  }

  ghost predicate ShownFits(job: Job, files: Files, shown: seq<seq<(string, Failure)>>) {
    forall i :: 0 <= i < |shown| ==> shown[i] == Conversation(job, files, i)
  }

  function Replies(job: Job, n: nat): seq<string> {
    if n == 0 then [] else Replies(job, n - 1) + [job.turns(n - 1).reply]
  }

  datatype Delta = Delta(messages: seq<string>, experiments: seq<Entry>)

  // How a call ends that returns no delta: its own ValueError, or an exception an attempt let through.
  datatype CallError = AttemptsExhausted(last: Failure) | Propagated(error: Escape)

  // --- the node --------------------------------------------------------------------

  class Workspace {
    const root: seq<string>
    var files: Files

    constructor (root: seq<string>, files: Files)
      ensures this.root == root && this.files == files
    {
      this.root, this.files := root, files;
    }

    method WriteText(path: string, attempt: nat)
      modifies this`files
      ensures files == old(files)[path := File(JX.Malformed, Attempt(attempt))]
    {
      files := files[path := File(JX.Malformed, Attempt(attempt))];
    }

    // _clear_contract_artifacts
    method ClearContractArtifacts(k: nat)
      modifies this`files
      ensures files == old(files) - ContractPaths(k)
    {
      var names := [ResultsPath(k), SubmissionPath(k), OofPath(k)];
      for i := 0 to 3
        invariant files == old(files) - set j | 0 <= j < i :: names[j]
      {
        files := files - {names[i]};
      }
      assert (set j | 0 <= j < 3 :: names[j]) == {names[0], names[1], names[2]};
    }

    method Execute(script: Script, attempt: nat)
      modifies this`files
      ensures files == Executed(old(files), script, attempt)
    {
      files := Executed(files, script, attempt);
    }

    // The loop body from the reply to the failure reason.
    method TryScript(job: Job, attempt: nat) returns (check: Check)
      requires job.root == root
      modifies this`files
      ensures files == AttemptFiles(job, old(files), attempt)
      ensures check == AttemptCheck(job, old(files), attempt)
    {
      var extracted := ExtractCode(job.turns(attempt).reply);
      match extracted {
        case Err(e) =>
          check := Rejected(e);
        case Ok(code) =>
          WriteText(TrainPath(job.k), attempt);
          ClearContractArtifacts(job.k);
          if '\0' in code {
            check := Escaped(NulInScript);
          } else {
            Execute(job.turns(attempt).script, attempt);
            check := ValidateRun(files, job.k, root, job.turns(attempt).script);
          }
      }
    }

    // The retry loop: attempts until one is accepted, one lets an exception through, or three have
    // failed.
    method Attempts(job: Job)
      returns (check: Check, accumulated: seq<string>, shown: seq<seq<(string, Failure)>>)
      requires job.root == root
      modifies this`files
      ensures 1 <= |shown| <= MAX_EXECUTION_RETRIES + 1
      ensures files == FilesBefore(job, old(files), |shown|)
      ensures ShownFits(job, old(files), shown)
      ensures AllRejected(job, old(files), |shown| - 1)
      ensures check == CheckOf(job, old(files), |shown| - 1)
      ensures check.Rejected? ==> |shown| == MAX_EXECUTION_RETRIES + 1
      ensures accumulated == Replies(job, |shown|)
    {
      hide AttemptFiles, AttemptCheck;
      ghost var start := files;
      check, accumulated, shown := Accepted, [], [];
      var messages: seq<(string, Failure)> := [];
      var attempt := 0;
      while attempt < MAX_EXECUTION_RETRIES + 1
        invariant 0 <= attempt <= MAX_EXECUTION_RETRIES + 1 && |shown| == attempt
        invariant files == FilesBefore(job, start, attempt)
        invariant AllRejected(job, start, attempt)
        invariant attempt > 0 ==> check.Rejected? && check == CheckOf(job, start, attempt - 1)
        invariant accumulated == Replies(job, attempt)
        invariant attempt < MAX_EXECUTION_RETRIES + 1 ==> messages == Conversation(job, start, attempt)
        invariant ShownFits(job, start, shown)
      {
        shown := shown + [messages];
        var content := job.turns(attempt).reply;
        accumulated := accumulated + [content];
        check := TryScript(job, attempt);
        FilesStep(job, start, attempt);
        attempt := attempt + 1;
        if !check.Rejected? {
          return;
        }
        ConversationGrows(job, start, attempt - 1);
        if attempt < MAX_EXECUTION_RETRIES + 1 {
          messages := messages + [(content, check.reason)];
        }
      }
    }

    // CoderNode.__call__: the delta holds every reply and the old experiments plus one entry.
    method Call(job: Job, experiments: seq<Entry>, model: string)
      returns (r: Result<Delta, CallError>, shown: seq<seq<(string, Failure)>>)
      requires job.root == root
      modifies this`files
      ensures (files, r) == CoderRun(job, old(files), experiments, model)
      ensures |shown| == Tries(job, old(files)) && ShownFits(job, old(files), shown)
    {
      hide AttemptFiles, AttemptCheck, ScoreIn;
      ghost var start := files;
      var check, accumulated;
      check, accumulated, shown := Attempts(job);
      TriesAre(job, start, |shown|);
      if check.Escaped? {
        return Err(Propagated(check.error)), shown;
      }
      if check.Rejected? {
        return Err(AttemptsExhausted(check.reason)), shown;
      }
      SuccessHasScore(job, start, |shown| - 1);
      var score := ScoreIn(files, job.k).value;
      return Ok(Delta(accumulated, experiments + [Entry(ExpName(job.k), CoderDir(job.k), score, job.k, model)])), shown;
    }
  }

  // The finite cv_score of an object, if it has one.
  function ScoreOf(content: JX.Parsed): Option<Finite> {
    if content.Value? && content.json.JObject? then
      var score := Get(content.json.fields, "cv_score");
      if score.JNumber? then score.rank else None
    else None
  }

  function ScoreIn(files: Files, k: nat): Option<Finite> {
    if ResultsPath(k) in files then ScoreOf(files[ResultsPath(k)].content) else None
  }

  // The first attempt from i on that is not retried or is the last allowed, counted from one.
  function TriesFrom(job: Job, files: Files, i: nat): (n: nat)
    requires i <= MAX_EXECUTION_RETRIES
    ensures i < n <= MAX_EXECUTION_RETRIES + 1
    decreases MAX_EXECUTION_RETRIES - i
  {
    if i == MAX_EXECUTION_RETRIES || !CheckOf(job, files, i).Rejected? then i + 1 else TriesFrom(job, files, i + 1)
  }

  function Tries(job: Job, files: Files): (n: nat)
    ensures 1 <= n <= MAX_EXECUTION_RETRIES + 1
  {
    TriesFrom(job, files, 0)
  }

  function AcceptedScore(job: Job, files: Files, i: nat): (score: Finite)
    requires CheckOf(job, files, i) == Accepted
    ensures ScoreIn(FilesBefore(job, files, i + 1), job.k) == Some(score)
  {
    SuccessHasScore(job, files, i);
    ScoreIn(FilesBefore(job, files, i + 1), job.k).value
  }

  // What a whole call makes of the files and of the experiments it is given.
  function CoderRun(job: Job, files: Files, experiments: seq<Entry>, model: string): (Files, Result<Delta, CallError>) {
    var n := Tries(job, files);
    (FilesBefore(job, files, n), LastCheck(job, files, n, experiments, model))
  }

  function LastCheck(job: Job, files: Files, n: nat, experiments: seq<Entry>, model: string): Result<Delta, CallError>
    requires n > 0
  {
    hide CheckOf;
    var check := CheckOf(job, files, n - 1);
    if check.Rejected? then Err(AttemptsExhausted(check.reason))
    else if check.Escaped? then Err(Propagated(check.error))
    else
      var score := AcceptedScore(job, files, n - 1);
      Ok(Delta(Replies(job, n), experiments + [Entry(ExpName(job.k), CoderDir(job.k), score, job.k, model)]))
  }

  lemma {:induction false} TriesFromAre(job: Job, files: Files, i: nat, n: nat)
    requires i < n <= MAX_EXECUTION_RETRIES + 1 && AllRejected(job, files, n - 1)
    requires !CheckOf(job, files, n - 1).Rejected? || n == MAX_EXECUTION_RETRIES + 1
    ensures TriesFrom(job, files, i) == n
    decreases n - i
  {
    hide CheckOf;
    if i + 1 < n {
      RejectedBefore(job, files, n - 1, i);
      TriesFromAre(job, files, i + 1, n);
    }
  }

  lemma {:induction false} RejectedBefore(job: Job, files: Files, n: nat, i: nat)
    requires i < n && AllRejected(job, files, n)
    ensures CheckOf(job, files, i).Rejected?
  {
    hide CheckOf;
    if i < n - 1 {
      RejectedBefore(job, files, n - 1, i);
    }
  }

  lemma TriesAre(job: Job, files: Files, n: nat)
    requires 1 <= n <= MAX_EXECUTION_RETRIES + 1 && AllRejected(job, files, n - 1)
    requires !CheckOf(job, files, n - 1).Rejected? || n == MAX_EXECUTION_RETRIES + 1
    ensures Tries(job, files) == n
  {
    TriesFromAre(job, files, 0, n);
  }

  // Every attempt but the last was tried again.
  lemma {:induction false} TriesRejectedFrom(job: Job, files: Files, i: nat)
    requires i <= MAX_EXECUTION_RETRIES && AllRejected(job, files, i)
    ensures AllRejected(job, files, TriesFrom(job, files, i) - 1)
    ensures !CheckOf(job, files, TriesFrom(job, files, i) - 1).Rejected? || TriesFrom(job, files, i) == MAX_EXECUTION_RETRIES + 1
    decreases MAX_EXECUTION_RETRIES - i
  {
    hide CheckOf;
    if i < MAX_EXECUTION_RETRIES && CheckOf(job, files, i).Rejected? {
      TriesRejectedFrom(job, files, i + 1);
    }
  }

  // --- when an attempt is accepted -------------------------------------------------

  predicate NamesMetric(metric: Json) {
    metric.JNull? || (metric.JString? && PlainMetric(metric.s) in {"accuracy", "r2", "rsquared", "score"})
  }

  // The metric's characters without separators and white space, capitals made small.
  function PlainMetric(s: string): string {
    if s == "" then ""
    else
      var front, c := PlainMetric(s[..|s| - 1]), s[|s| - 1];
      if c in {'-', '_', ' ', '\t', '\n', '\r', '\U{b}', '\U{c}', '\U{1c}', '\U{1d}', '\U{1e}', '\U{1f}'} then front
      else if 'A' <= c <= 'Z' then front + [(c as int - 'A' as int + 'a' as int) as char]
      else front + [c]
  }

  lemma {:induction false} NormalizeMetricAppend(s: string, c: char)
    ensures NormalizeMetric(s + [c]) == NormalizeMetric(s) + NormalizeMetric([c])
  {
    if s == "" {
      assert s + [c] == [c];
    } else {
      assert (s + [c])[1..] == s[1..] + [c] && (s + [c])[0] == s[0];
      NormalizeMetricAppend(s[1..], c);
    }
  }

  lemma {:induction false} PlainMetricIs(s: string)
    ensures PlainMetric(s) == NormalizeMetric(s)
  {
    if s != "" {
      var front, c := s[..|s| - 1], s[|s| - 1];
      PlainMetricIs(front);
      NormalizeMetricAppend(front, c);
      assert s == front + [c] && [c][1..] == "";
    }
  }

  // The out-of-fold file the results name, or the default one.
  predicate OofStands(files: Files, k: nat, root: seq<string>, results: Fields) {
    var named := Get(results, "oof_path");
    var oof := if named.JString? then Some(named.s) else None;
    && !OofRaises(oof, root)
    && CoderOof(oof, k, root).Some? && Render(CoderOof(oof, k, root).value) in files
  }

  // What an accepted attempt's script must do, and how it must end.
  predicate Delivers(script: Script, k: nat, root: seq<string>, after: Files) {
    && !script.timedOut && script.returncode == 0
    && ResultsLeft(script, k).Some?
    && var results := ResultsLeft(script, k).value;
       && Get(results, "cv_score").JNumber? && Get(results, "cv_score").rank.Some?
       && NamesMetric(Get(results, "metric"))
       && SubmissionPath(k) in script.writes
       && OofStands(after, k, root, results)
  }

  // The reply holds a script without a NUL, and the script delivers.
  predicate Succeeds(job: Job, files: Files, i: nat) {
    var code := ExtractCode(job.turns(i).reply);
    code.Ok? && '\0' !in code.value && Delivers(job.turns(i).script, job.k, job.root, AttemptFiles(job, files, i))
  }

  lemma MetricsAgree(metric: Json)
    ensures NamesMetric(metric) <==> MetricAllowed(metric)
  {
    if metric.JString? {
      PlainMetricIs(metric.s);
    }
    hide PlainMetric, NormalizeMetric;
  }

  lemma GateAcceptsIff(files: Files, k: nat, root: seq<string>, script: Script)
    requires ResultsPath(k) in files <==> ResultsPath(k) in script.writes
    requires ResultsPath(k) in files ==> files[ResultsPath(k)].content == script.writes[ResultsPath(k)]
    requires SubmissionPath(k) in files <==> SubmissionPath(k) in script.writes
    ensures ValidateRun(files, k, root, script) == Accepted <==> Delivers(script, k, root, files)
  {
    hide OofRaises, CoderOof, Render, ResultsPath, SubmissionPath, OofPath, NamesMetric, MetricAllowed;
    if ResultsLeft(script, k).Some? {
      MetricsAgree(Get(ResultsLeft(script, k).value, "metric"));
    }
  }

  // An attempt is accepted exactly when it succeeds, whatever earlier attempts left.
  lemma AttemptAcceptedIff(job: Job, files: Files, i: nat)
    ensures AttemptCheck(job, files, i) == Accepted <==> Succeeds(job, files, i)
  {
    var extracted := ExtractCode(job.turns(i).reply);
    hide ExtractCode, AttemptFiles, ValidateRun, Delivers;
    if extracted.Ok? && '\0' !in extracted.value {
      LeftByScript(job, files, i, ResultsPath(job.k));
      LeftByScript(job, files, i, SubmissionPath(job.k));
      GateAcceptsIff(AttemptFiles(job, files, i), job.k, job.root, job.turns(i).script);
    }
  }

  // What is tried again: whatever neither succeeds nor raises.
  lemma {:induction false} AllRejectedIff(job: Job, files: Files, n: nat)
    ensures AllRejected(job, files, n) <==>
              forall i :: 0 <= i < n ==>
                !Succeeds(job, FilesBefore(job, files, i), i) && !Escapes(job.turns(i), job.k, job.root)
  {
    hide AttemptCheck, Succeeds, Escapes, FilesBefore;
    if n > 0 {
      AllRejectedIff(job, files, n - 1);
      AttemptAcceptedIff(job, FilesBefore(job, files, n - 1), n - 1);
      AttemptEscapesIff(job, FilesBefore(job, files, n - 1), n - 1);
    }
  }

  // A call returns a delta exactly when one of its three attempts succeeds and none before it raises;
  // the first that does is its last.
  lemma CallSucceedsIff(job: Job, files: Files, experiments: seq<Entry>, model: string)
    ensures CoderRun(job, files, experiments, model).1.Ok? <==>
              exists i :: 0 <= i <= MAX_EXECUTION_RETRIES && AllRejected(job, files, i)
                && Succeeds(job, FilesBefore(job, files, i), i)
  {
    hide AttemptFiles, AttemptCheck, Succeeds;
    TriesRejectedFrom(job, files, 0);
    var n := Tries(job, files);
    AttemptAcceptedIff(job, FilesBefore(job, files, n - 1), n - 1);
    if i :| 0 <= i <= MAX_EXECUTION_RETRIES && AllRejected(job, files, i) && Succeeds(job, FilesBefore(job, files, i), i) {
      AttemptAcceptedIff(job, FilesBefore(job, files, i), i);
      TriesAre(job, files, i + 1);
    }
  }

  // The earliest cause is the one reported back to the LLM.
  lemma EarliestCauseIsReported(files: Files, k: nat, root: seq<string>, script: Script)
    ensures
      var check := ValidateRun(files, k, root, script);
      && (check == Rejected(TimedOut) <==> script.timedOut)
      && (forall code :: check == Rejected(ExitCode(code)) <==> !script.timedOut && script.returncode == code != 0)
      && (check == Rejected(ResultsUnreadable) <==>
            CleanExit(script) && (ResultsPath(k) in files ==> JX.IsValueError(files[ResultsPath(k)].content)))
      && (check == Rejected(ResultsNotAnObject) <==>
            CleanExit(script) && ResultsPath(k) in files && files[ResultsPath(k)].content.Value?
            && !files[ResultsPath(k)].content.json.JObject?)
      && (check == Rejected(SubmissionMissing) ==> SubmissionPath(k) !in files && ScoreIn(files, k).Some?)
      && (check == Rejected(OofMissing) ==> SubmissionPath(k) in files && ScoreIn(files, k).Some?)
  {
    hide MetricAllowed, OofRaises, OofExists, ResultsPath, SubmissionPath;
  }

  // --- when a call raises ----------------------------------------------------------

  predicate CleanExit(script: Script) {
    !script.timedOut && script.returncode == 0
  }

  predicate LeavesTooDeep(script: Script, k: nat) {
    ResultsPath(k) in script.writes && script.writes[ResultsPath(k)].TooDeep?
  }

  // The object the script leaves as results.json.
  function ResultsLeft(script: Script, k: nat): Option<Fields> {
    if ResultsPath(k) in script.writes then
      var content := script.writes[ResultsPath(k)];
      if content.Value? && content.json.JObject? then Some(content.json.fields) else None
    else None
  }

  predicate LeavesHugeScore(script: Script, k: nat) {
    ResultsLeft(script, k).Some? && Get(ResultsLeft(script, k).value, "cv_score").JHuge?
  }

  // A finite score, an allowed metric and a submission, and then an out-of-fold path with a NUL.
  predicate NamesNulPath(script: Script, k: nat, root: seq<string>) {
    ResultsLeft(script, k).Some? &&
    var results := ResultsLeft(script, k).value;
    && Get(results, "cv_score").JNumber? && Get(results, "cv_score").rank.Some?
    && MetricAllowed(Get(results, "metric"))
    && SubmissionPath(k) in script.writes
    && OofRaises(OofFieldOf(results), root)
  }

  // The named path raises exactly when it lies in the workspace, no part is `..`, and the text that is
  // resolved holds a NUL: all of a relative path, what lies below the root of an absolute one.
  lemma OofRaisesIff(oof: OofField, root: seq<string>)
    ensures
      var text := if oof.Some? then Strip(oof.value) else "";
      OofRaises(oof, root) <==>
        && text != ""
        && exists parts: seq<string> ::
             && LiesAt(text, root, parts)
             && ".." !in parts
             && '\0' in (if text[0] == '/' then Render(parts) else text)
  {
    hide Parts, Strip, LiesAt, Relativize, Render;
    if Usable(oof) {
      var text := Strip(oof.value);
      forall parts ensures LiesAt(text, root, parts) <==> Relativize(text, root).Some? && Parts(Relativize(text, root).value) == parts {
        BelowRoot(text, root, parts);
      }
      ReferenceText(text, root);
    }
  }

  lemma ReferenceText(text: string, root: seq<string>)
    requires text != ""
    ensures Relativize(text, root).Some? ==>
      var reference := Relativize(text, root).value;
      reference == if text[0] == '/' then Render(Parts(reference)) else text
  {
    if text[0] == '/' && root <= Parts(text) {
      var below := Parts(text)[|root|..];
      PartsAreClean(text);
      assert forall p :: p in below ==> p in Parts(text);
      PartsOfRender(below);
    }
  }

  // What an attempt must draw to let an exception through, whatever files it finds.
  predicate Escapes(turn: Turn, k: nat, root: seq<string>) {
    match ExtractCode(turn.reply)
    case Err(_) => false
    case Ok(code) =>
      '\0' in code ||
      (CleanExit(turn.script) &&
       (LeavesTooDeep(turn.script, k) || LeavesHugeScore(turn.script, k) || NamesNulPath(turn.script, k, root)))
  }

  lemma LeftByScript(job: Job, files: Files, i: nat, path: string)
    requires ExtractCode(job.turns(i).reply).Ok? && '\0' !in ExtractCode(job.turns(i).reply).value
    requires path in ContractPaths(job.k)
    ensures
      var after, writes := AttemptFiles(job, files, i), job.turns(i).script.writes;
      && (path in after <==> path in writes)
      && (path in after ==> after[path] == File(writes[path], Attempt(i)))
  {
  }

  lemma AttemptEscapesIff(job: Job, files: Files, i: nat)
    ensures AttemptCheck(job, files, i).Escaped? <==> Escapes(job.turns(i), job.k, job.root)
  {
    var extracted := ExtractCode(job.turns(i).reply);
    hide ExtractCode, MetricAllowed, OofRaises, OofFieldOf, OofExists, ResultsPath, SubmissionPath, OofPath, AttemptFiles;
    if extracted.Ok? && '\0' !in extracted.value {
      LeftByScript(job, files, i, ResultsPath(job.k));
      LeftByScript(job, files, i, SubmissionPath(job.k));
    }
  }

  lemma EscapeEndsCall(job: Job, files: Files, i: nat)
    requires i <= MAX_EXECUTION_RETRIES && AllRejected(job, files, i) && Escapes(job.turns(i), job.k, job.root)
    ensures Tries(job, files) == i + 1 && CheckOf(job, files, i).Escaped?
  {
    hide AttemptFiles, AttemptCheck, Escapes, AllRejected;
    FilesStep(job, files, i);
    AttemptEscapesIff(job, FilesBefore(job, files, i), i);
    TriesAre(job, files, i + 1);
  }

  // A call raises exactly when all three attempts fail, or one of them, reached after retried failures
  // only, lets an exception through. Otherwise the first that is accepted is its last, and it adds one
  // entry, scored from the results it accepted, to the experiments it was given.
  lemma CallRaisesIff(job: Job, files: Files, experiments: seq<Entry>, model: string)
    ensures
      var (after, r) := CoderRun(job, files, experiments, model);
      var n := Tries(job, files);
      && after == FilesBefore(job, files, n) && AllRejected(job, files, n - 1)
      && ((r.Err? && r.error.AttemptsExhausted?) <==> AllRejected(job, files, MAX_EXECUTION_RETRIES + 1))
      && ((r.Err? && r.error.Propagated?) <==>
            exists i :: 0 <= i <= MAX_EXECUTION_RETRIES && AllRejected(job, files, i) && Escapes(job.turns(i), job.k, job.root))
      && (r.Ok? ==>
            && CheckOf(job, files, n - 1) == Accepted
            && ScoreIn(after, job.k).Some?
            && r.value.messages == Replies(job, n)
            && r.value.experiments ==
               experiments + [Entry(ExpName(job.k), CoderDir(job.k), ScoreIn(after, job.k).value, job.k, model)])
  {
    hide AttemptFiles, AttemptCheck, ScoreIn, Escapes, Replies, ExpName, CoderDir;
    TriesRejectedFrom(job, files, 0);
    var n := Tries(job, files);
    FilesStep(job, files, n - 1);
    AttemptEscapesIff(job, FilesBefore(job, files, n - 1), n - 1);
    if AllRejected(job, files, MAX_EXECUTION_RETRIES + 1) {
      RejectedBefore(job, files, MAX_EXECUTION_RETRIES + 1, n - 1);
    }
    if i :| 0 <= i <= MAX_EXECUTION_RETRIES && AllRejected(job, files, i) && Escapes(job.turns(i), job.k, job.root) {
      EscapeEndsCall(job, files, i);
    }
    if CheckOf(job, files, n - 1).Accepted? {
      SuccessHasScore(job, files, n - 1);
    }
  }

  // A script that leaves results.json and nothing else.
  function Leaving(k: nat, content: JX.Parsed): Turn {
    Turn(Scripted("", "x", ""), Script(map[ResultsPath(k) := content], {}, 0, false))
  }

  lemma FirstAttemptEscapes(job: Job, files: Files, experiments: seq<Entry>, model: string, error: Escape)
    requires AttemptCheck(job, files, 0) == Escaped(error)
    ensures Tries(job, files) == 1
    ensures CoderRun(job, files, experiments, model).1 == Err(Propagated(error))
  {
    hide AttemptFiles, AttemptCheck;
    FilesStep(job, files, 0);
    TriesAre(job, files, 1);
  }

  lemma LeavingIsRead(job: Job, files: Files, content: JX.Parsed)
    requires job.turns(0) == Leaving(job.k, content)
    ensures
      var after := AttemptFiles(job, files, 0);
      && ResultsPath(job.k) in after && after[ResultsPath(job.k)].content == content
      && AttemptCheck(job, files, 0) == ValidateRun(after, job.k, job.root, job.turns(0).script)
  {
    OneLetterScript();
    hide ExtractCode, Scripted, ResultsPath, SubmissionPath, OofPath, AttemptFiles, ValidateRun;
    assert '\0' !in "x";
    LeftByScript(job, files, 0, ResultsPath(job.k));
  }

  // results.json nested past the parser's depth ends the call on its first attempt.
  lemma DeepResultsEscape(k: nat, root: seq<string>, files: Files, experiments: seq<Entry>, model: string)
    returns (job: Job)
    ensures job.k == k && job.root == root && job.turns(0) == Leaving(k, JX.TooDeep)
    ensures Tries(job, files) == 1
    ensures CoderRun(job, files, experiments, model).1 == Err(Propagated(ResultsTooDeep))
  {
    hide ResultsPath, AttemptFiles, AttemptCheck, CoderRun, Tries;
    job := Job(k, root, (i: nat) => Leaving(k, JX.TooDeep));
    LeavingIsRead(job, files, JX.TooDeep);
    FirstAttemptEscapes(job, files, experiments, model, ResultsTooDeep);
  }

  function HugeScore(): JX.Parsed {
    JX.Value(JObject(map["cv_score" := JHuge]))
  }

  // So does an integer score past every double.
  lemma HugeScoreEscapes(k: nat, root: seq<string>, files: Files, experiments: seq<Entry>, model: string)
    returns (job: Job)
    ensures job.k == k && job.root == root && job.turns(0) == Leaving(k, HugeScore())
    ensures Tries(job, files) == 1
    ensures CoderRun(job, files, experiments, model).1 == Err(Propagated(ScoreOverflow))
  {
    hide ResultsPath, AttemptFiles, AttemptCheck, CoderRun, Tries;
    job := Job(k, root, (i: nat) => Leaving(k, HugeScore()));
    LeavingIsRead(job, files, HugeScore());
    FirstAttemptEscapes(job, files, experiments, model, ScoreOverflow);
  }

  lemma FenceAfterScript()
    ensures Find("x" + FENCE + "", FENCE, 0) == Some(1) && Find("", FENCE, 0) == None
  {
    var tail := "x" + FENCE + "";
    assert tail[1..4] == FENCE && !OccursAt(tail, FENCE, 0) by {
      assert tail[..3][0] == 'x';
    }
    FindIs(tail, FENCE, 0, 1);
  }

  lemma FenceOpensReply()
    ensures Find(Scripted("", "x", ""), FENCE, 0) == Some(0)
  {
    var reply := Scripted("", "x", "");
    assert reply[..3] == FENCE;
    FindIs(reply, FENCE, 0, 0);
  }

  lemma OneLetterScript()
    ensures ExtractCode(Scripted("", "x", "")) == Ok("x")
  {
    hide ExtractCode, Scripted, Find, Strip;
    FenceAfterScript();
    FenceOpensReply();
    StripTrimmed("x");
    OneFenceIsTheScript("", "x", "");
  }

  lemma FilesStep(job: Job, files: Files, n: nat)
    ensures FilesBefore(job, files, n + 1) == AttemptFiles(job, FilesBefore(job, files, n), n)
    ensures CheckOf(job, files, n) == AttemptCheck(job, FilesBefore(job, files, n), n)
  {
  }

  lemma SuccessHasScore(job: Job, files: Files, i: nat)
    requires CheckOf(job, files, i) == Accepted
    ensures ScoreIn(FilesBefore(job, files, i + 1), job.k).Some?
  {
    GateFacts(FilesBefore(job, files, i + 1), job.k, job.root, job.turns(i).script);
  }

  // --- provenance ------------------------------------------------------------------

  ghost predicate WrittenBy(files: Files, path: string, attempt: nat) {
    path in files && files[path].writer == Attempt(attempt)
  }

  // A contract file that exists after an attempt that ran was written by that very attempt.
  lemma ContractFilesAreFresh(job: Job, files: Files, i: nat, path: string)
    requires ExtractCode(job.turns(i).reply).Ok?
    requires path in ContractPaths(job.k) && path in AttemptFiles(job, files, i)
    ensures WrittenBy(AttemptFiles(job, files, i), path, i)
  {
  }

  // The score a script writes into results.json.
  function ScoreWritten(script: Script, k: nat): Option<Finite> {
    if ResultsPath(k) in script.writes then ScoreOf(script.writes[ResultsPath(k)]) else None
  }

  // What a successful call vouches for was written by its last attempt, whatever earlier attempts or
  // earlier calls left behind: the results with the score that attempt's script wrote, the submission,
  // and the out-of-fold file under its default name whenever the results name no other.
  lemma SuccessIsOneAttemptsWork(job: Job, files: Files, i: nat)
    requires CheckOf(job, files, i) == Accepted
    ensures
      var after := FilesBefore(job, files, i + 1);
      && WrittenBy(after, ResultsPath(job.k), i)
      && WrittenBy(after, SubmissionPath(job.k), i)
      && ScoreIn(after, job.k) == ScoreWritten(job.turns(i).script, job.k)
      && after[ResultsPath(job.k)].content.Value? && after[ResultsPath(job.k)].content.json.JObject?
      && var oof := OofFieldOf(after[ResultsPath(job.k)].content.json.fields);
         && CoderOof(oof, job.k, job.root).Some?
         && Render(CoderOof(oof, job.k, job.root).value) in after
         && (!Usable(oof) ==> WrittenBy(after, OofPath(job.k), i))
  {
    var before, after := FilesBefore(job, files, i), FilesBefore(job, files, i + 1);
    assert after == AttemptFiles(job, before, i);
    GateFacts(after, job.k, job.root, job.turns(i).script);
    LeftByScript(job, before, i, ResultsPath(job.k));
    LeftByScript(job, before, i, SubmissionPath(job.k));
    var oof := OofFieldOf(after[ResultsPath(job.k)].content.json.fields);
    if !Usable(oof) {
      DefaultOofPath(oof, job.k, job.root);
      LeftByScript(job, before, i, OofPath(job.k));
    }
  }

  lemma AcceptedScoreIsWritten(job: Job, files: Files, experiments: seq<Entry>, model: string)
    requires CoderRun(job, files, experiments, model).1.Ok?
    ensures
      var after, n := CoderRun(job, files, experiments, model).0, Tries(job, files);
      ScoreIn(after, job.k) == ScoreWritten(job.turns(n - 1).script, job.k)
  {
    hide *;
    AcceptedLast(job, files, experiments, model);
    SuccessIsOneAttemptsWork(job, files, Tries(job, files) - 1);
  }

  lemma AcceptedLast(job: Job, files: Files, experiments: seq<Entry>, model: string)
    requires CoderRun(job, files, experiments, model).1.Ok?
    ensures CheckOf(job, files, Tries(job, files) - 1) == Accepted
    ensures CoderRun(job, files, experiments, model).0 == FilesBefore(job, files, Tries(job, files))
  {
    hide CheckOf, FilesBefore, Tries;
  }

  // What passing the gate establishes about the files.
  lemma GateFacts(files: Files, k: nat, root: seq<string>, script: Script)
    requires ValidateRun(files, k, root, script) == Accepted
    ensures ResultsPath(k) in files && SubmissionPath(k) in files
    ensures files[ResultsPath(k)].content.Value? && files[ResultsPath(k)].content.json.JObject?
    ensures
      var oof := OofFieldOf(files[ResultsPath(k)].content.json.fields);
      CoderOof(oof, k, root).Some? && Render(CoderOof(oof, k, root).value) in files
    ensures ScoreIn(files, k).Some?
  {
  }

  lemma DefaultOofPath(oof: OofField, k: nat, root: seq<string>)
    requires !Usable(oof) && CoderOof(oof, k, root).Some?
    ensures Render(CoderOof(oof, k, root).value) == OofPath(k)
  {
    hide Parts, Render, Strip, ExpDir, OofPath;
    ExpDirParts(k);
    RenderedOofPath(k);
  }

  lemma RenderedOofPath(k: nat)
    ensures Render(["experiments", ExpName(k)] + [FALLBACK_OOF]) == OofPath(k)
  {
    hide ExpName;
    assert ["experiments", ExpName(k)] + [FALLBACK_OOF] == ["experiments", ExpName(k), FALLBACK_OOF];
    JoinThree("experiments", ExpName(k), FALLBACK_OOF, "/");
    assert "experiments" + "/" == "experiments/";
  }

  // Other experiments' directories are out of the attempt's own hands: the node itself writes and
  // deletes only below the current experiment, so any other change is a script's.
  lemma OnlyScriptsReachElsewhere(job: Job, files: Files, i: nat, path: string)
    requires path != TrainPath(job.k) && path !in ContractPaths(job.k)
    requires path !in job.turns(i).script.writes && path !in job.turns(i).script.deletes
    ensures path in AttemptFiles(job, files, i) <==> path in files
    ensures path in files ==> AttemptFiles(job, files, i)[path] == files[path]
  {
    hide ExtractCode, TrainPath, ResultsPath, SubmissionPath, OofPath;
  }

  // An attempt with a script leaves that script behind, unless it removes or overwrites itself.
  lemma ScriptIsSaved(job: Job, files: Files, i: nat)
    requires ExtractCode(job.turns(i).reply).Ok?
    ensures
      var path, script, after := ExpDir(job.k) + "/train.py", job.turns(i).script, AttemptFiles(job, files, i);
      path in script.deletes || (path in after && after[path].writer == Attempt(i))
  {
    TrainIsApart(job.k);
    hide ExtractCode, ResultsPath, SubmissionPath, OofPath, ExpDir;
  }

  lemma TrainIsApart(k: nat)
    ensures TrainPath(k) !in ContractPaths(k)
  {
    hide ExpDir;
    var d := ExpDir(k);
    assert TrainPath(k)[|d| + 1] == 't' && ResultsPath(k)[|d| + 1] == 'r' && SubmissionPath(k)[|d| + 1] == 's';
    assert |OofPath(k)| > |TrainPath(k)|;
  }
}
