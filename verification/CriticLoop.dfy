// The review loop that src/nodes/llm/analysis_critic.py and src/nodes/llm/code_critic.py share: ask
// the LLM for a verdict, re-invoke the named target on "iterate", stop on "pass" or when a budget is
// spent. The LLM's replies and the targets' deltas are arbitrary streams, one element per cycle.
module CriticLoop {
  import opened Common
  import opened Text
  import opened LabStates
  import JX = JsonExtraction

  type Message = string

  datatype Verdict = Pass | Iterate

  // A reply: the message itself, and what looking for the verdict object in it came to.
  datatype Reply = Reply(message: Message, found: JX.Found)

  // What re-invoking a target came to.
  datatype TargetRun =
    | Returned(messages: seq<Message>, fields: StateFields)
    | FoldsAlreadyFrozen
    | Crashed

  datatype Ground = AsJudged | BudgetExhausted | FoldsFrozen | SafetyCap

  // An attempt's feedback text: the LLM's own, or one of the sentences the node writes itself.
  datatype Feedback = Said(text: string) | ParseFailure | NothingSaid | NodeText

  // One element of the record's `attempts`; forced_pass holds on every ground but AsJudged.
  datatype Attempt = Attempt(verdict: Verdict, feedback: Feedback, target: string, ground: Ground)

  // frozenTargets: the targets whose write-once error ends the review instead of escaping:
  // {"validation_strategist"} for analysis_critic, none for code_critic.
  datatype Config = Config(targets: seq<string>, maxRetries: int, window: int, frozenTargets: set<string>)

  // What one LLM call is shown: the trimmed history and the state the review text is built from.
  datatype Prompt = Prompt(history: seq<Message>, fields: StateFields)

  // A review's record and the delta it returns to the graph, or the exception that escapes it.
  datatype Outcome =
    | Reviewed(attempts: seq<Attempt>, messages: seq<Message>, fields: StateFields)
    | Raised(attempts: seq<Attempt>)

  // --- verdict normalization -------------------------------------------------------

  function FallbackTarget(targets: seq<string>): string {
    if targets == [] then "" else targets[0]
  }

  // The targets a normalized verdict can name.
  function Nameable(targets: seq<string>): seq<string> {
    if targets == [] then [""] else targets
  }

  datatype Judgement = Judgement(verdict: Verdict, feedback: Feedback, target: string)

  function VerdictOf(parsed: Option<Fields>): Verdict {
    if parsed.Some? && Get(parsed.value, "verdict") == JString("pass") then Pass else Iterate
  }

  function TargetOf(parsed: Option<Fields>, targets: seq<string>): (t: string)
    ensures t in Nameable(targets)
  {
    var named := if parsed.Some? then Get(parsed.value, "target_node") else JNull;
    if named.JString? && named.s in targets then named.s else FallbackTarget(targets)
  }

  function FeedbackOf(parsed: Option<Fields>): (f: Feedback)
    ensures f.Said? ==> Strip(f.text) != ""
  {
    if parsed.None? then ParseFailure
    else
      var said := Get(parsed.value, "feedback");
      if said.JString? && Strip(said.s) != "" then Said(said.s) else NothingSaid
  }

  // _parse_verdict, once the object has been looked for: total, whatever was found.
  function ParseVerdict(parsed: Option<Fields>, targets: seq<string>): Judgement {
    Judgement(VerdictOf(parsed), FeedbackOf(parsed), TargetOf(parsed, targets))
  }

  // --- cycles ----------------------------------------------------------------------

  // What one cycle draws from outside: the reply as read, and what re-invoking the target it names
  // would come to. When reading it raised, nothing else about it matters.
  datatype Cycle = Cycle(message: Message, unreadable: bool, judgement: Judgement, run: TargetRun)

  function CycleOf(reply: Reply, targets: seq<string>, run: TargetRun): Cycle {
    var parsed := if reply.found.Object? then Some(reply.found.fields) else None;
    Cycle(reply.message, reply.found.Raised?, ParseVerdict(parsed, targets), run)
  }

  // Verdicts are normalized: they name a target the node knows.
  ghost predicate Normalized(cfg: Config, cs: nat -> Cycle) {
    forall i: nat :: cs(i).judgement.target in Nameable(cfg.targets)
  }

  // How many of the first n cycles named target t.
  function Visits(cs: nat -> Cycle, n: nat, t: string): nat {
    if n == 0 then 0
    else Visits(cs, n - 1, t) + if cs(n - 1).judgement.target == t then 1 else 0
  }

  // Cycle i retries its target and leads to another review, given that all cycles before it did.
  predicate Retries(cfg: Config, cs: nat -> Cycle, i: nat) {
    var j := cs(i).judgement;
    && !cs(i).unreadable
    && j.verdict == Iterate
    && Visits(cs, i, j.target) < cfg.maxRetries
    && cs(i).run.Returned?
  }

  ghost predicate AllRetry(cfg: Config, cs: nat -> Cycle, n: nat) {
    forall i :: 0 <= i < n ==> Retries(cfg, cs, i)
  }

  // The attempts recorded by n retrying cycles.
  function Iterates(cs: nat -> Cycle, n: nat): seq<Attempt> {
    seq(n, i requires 0 <= i < n =>
      Attempt(Iterate, cs(i).judgement.feedback, cs(i).judgement.target, AsJudged))
  }

  // The messages gathered by n retrying cycles: each reply, then what its target said.
  function Gathered(cs: nat -> Cycle, n: nat): seq<Message> {
    if n == 0 then []
    else
      Gathered(cs, n - 1) + [cs(n - 1).message] +
      if cs(n - 1).run.Returned? then cs(n - 1).run.messages else []
  }

  // The working copy of the state's other fields after n retrying cycles.
  function WorkingFields(fields: StateFields, cs: nat -> Cycle, n: nat): StateFields {
    if n == 0 then fields
    else WorkingFields(fields, cs, n - 1) + if cs(n - 1).run.Returned? then cs(n - 1).run.fields else map[]
  }

  // trim_context
  function Trim(messages: seq<Message>, window: int): seq<Message> {
    if window <= 0 then []
    else if |messages| <= window then messages
    else messages[|messages| - window..]
  }

  // What the LLM is shown at the head of cycle i.
  function PromptAt(cfg: Config, initial: seq<Message>, fields: StateFields,
                    cs: nat -> Cycle, i: nat): Prompt {
    Prompt(Trim(initial + Gathered(cs, i), cfg.window), WorkingFields(fields, cs, i))
  }

  ghost predicate Counts(cs: nat -> Cycle, counts: map<string, nat>, n: nat) {
    forall t :: (if t in counts then counts[t] else 0) == Visits(cs, n, t)
  }

  lemma CountsGrow(cs: nat -> Cycle, counts: map<string, nat>, n: nat)
    requires Counts(cs, counts, n)
    ensures
      var t := cs(n).judgement.target;
      Counts(cs, counts[t := (if t in counts then counts[t] else 0) + 1], n + 1)
  {
  }

  lemma IteratesGrow(cs: nat -> Cycle, n: nat)
    ensures
      var j := cs(n).judgement;
      Iterates(cs, n + 1) == Iterates(cs, n) + [Attempt(Iterate, j.feedback, j.target, AsJudged)]
  {
  }

  lemma NothingGathered(fields: StateFields, cs: nat -> Cycle)
    ensures Gathered(cs, 0) == [] && WorkingFields(fields, cs, 0) == fields && Iterates(cs, 0) == []
    ensures forall t :: Visits(cs, 0, t) == 0
  {
  }

  lemma GatheredGrows(fields: StateFields, cs: nat -> Cycle, n: nat)
    requires cs(n).run.Returned?
    ensures Gathered(cs, n + 1) == Gathered(cs, n) + [cs(n).message] + cs(n).run.messages
    ensures WorkingFields(fields, cs, n + 1) == WorkingFields(fields, cs, n) + cs(n).run.fields
  {
  }

  // The review ends in cycle n, the first that does not retry. Its delta holds messages only.
  function Concluded(cfg: Config, cs: nat -> Cycle, n: nat): Outcome {
    var j, iterates := cs(n).judgement, Iterates(cs, n);
    var messages := Gathered(cs, n) + [cs(n).message];
    if cs(n).unreadable then Raised(iterates)
    else if j.verdict == Pass then
      Reviewed(iterates + [Attempt(Pass, j.feedback, j.target, AsJudged)], messages, map[])
    else if Visits(cs, n, j.target) >= cfg.maxRetries then
      Reviewed(iterates + [Attempt(Pass, j.feedback, j.target, BudgetExhausted)], messages, map[])
    else if cs(n).run.FoldsAlreadyFrozen? && j.target in cfg.frozenTargets then
      Reviewed(iterates + [Attempt(Pass, NodeText, j.target, FoldsFrozen)], messages, map[])
    else Raised(iterates)
  }

  // n is the first cycle that does not retry, and r is what the review comes to there.
  ghost predicate EndsAt(cfg: Config, cs: nat -> Cycle, n: nat, r: Outcome) {
    AllRetry(cfg, cs, n) && !Retries(cfg, cs, n) && r == Concluded(cfg, cs, n)
  }

  ghost predicate Shown(cfg: Config, initial: seq<Message>, fields: StateFields,
                        cs: nat -> Cycle, prompts: seq<Prompt>) {
    forall i :: 0 <= i < |prompts| ==> prompts[i] == PromptAt(cfg, initial, fields, cs, i)
  }

  function Cap(cfg: Config): int {
    (cfg.maxRetries + 1) * (if cfg.targets == [] then 1 else |cfg.targets|)
  }

  // --- the loop --------------------------------------------------------------------

  // The review cycles, up to `cap` of them: either cycle |prompts| - 1 concludes, or all of them retry.
  method Cycles(cfg: Config, initial: seq<Message>, fields: StateFields, cs: nat -> Cycle, cap: nat)
    returns (r: Option<Outcome>, prompts: seq<Prompt>)
    ensures |prompts| <= cap && Shown(cfg, initial, fields, cs, prompts)
    ensures r.Some? ==> prompts != [] && EndsAt(cfg, cs, |prompts| - 1, r.value)
    ensures r.None? ==> |prompts| == cap && AllRetry(cfg, cs, cap)
  {
    hide Trim, Gathered, WorkingFields, Iterates, Visits;
    NothingGathered(fields, cs);
    var retryCounts: map<string, nat> := map[];
    var working, workingFields := initial, fields;
    var accumulated: seq<Message> := [];
    var attempts: seq<Attempt> := [];
    prompts := [];
    for cycle := 0 to cap
      invariant |prompts| == cycle
      invariant AllRetry(cfg, cs, cycle)
      invariant Counts(cs, retryCounts, cycle)
      invariant accumulated == Gathered(cs, cycle)
      invariant working == initial + accumulated
      invariant workingFields == WorkingFields(fields, cs, cycle)
      invariant attempts == Iterates(cs, cycle)
      invariant Shown(cfg, initial, fields, cs, prompts)
    {
      prompts := prompts + [Prompt(Trim(working, cfg.window), workingFields)];
      var response := cs(cycle);
      accumulated := accumulated + [response.message];
      working := working + [response.message];
      assert working == initial + accumulated;
      if response.unreadable {
        return Some(Raised(attempts)), prompts;
      }
      var j := response.judgement;

      if j.verdict == Pass {
        attempts := attempts + [Attempt(Pass, j.feedback, j.target, AsJudged)];
        return Some(Reviewed(attempts, accumulated, map[])), prompts;
      }
      var count := if j.target in retryCounts then retryCounts[j.target] else 0;
      if count >= cfg.maxRetries {
        attempts := attempts + [Attempt(Pass, j.feedback, j.target, BudgetExhausted)];
        return Some(Reviewed(attempts, accumulated, map[])), prompts;
      }
      CountsGrow(cs, retryCounts, cycle);
      retryCounts := retryCounts[j.target := count + 1];
      match cs(cycle).run {
        case Crashed =>
          return Some(Raised(attempts)), prompts;
        case FoldsAlreadyFrozen =>
          if j.target !in cfg.frozenTargets {
            return Some(Raised(attempts)), prompts;
          }
          attempts := attempts + [Attempt(Pass, NodeText, j.target, FoldsFrozen)];
          return Some(Reviewed(attempts, accumulated, map[])), prompts;
        case Returned(messages, delta) =>
          IteratesGrow(cs, cycle);
          GatheredGrows(fields, cs, cycle);
          assert working + messages == initial + (accumulated + messages);
          attempts := attempts + [Attempt(Iterate, j.feedback, j.target, AsJudged)];
          workingFields := workingFields + delta;
          accumulated := accumulated + messages;
          working := working + messages;
      }
    }
    return None, prompts;
  }

  // __call__ of both critics. With a retry budget of at least zero the review ends inside the loop,
  // in the first cycle that does not retry, and the safety cap is never what ended it; with a
  // negative budget nothing is reviewed at all. Every call sees the initial messages followed by
  // everything gathered so far; fields a target returned are seen by later reviews and go nowhere
  // else.
  method Review(cfg: Config, initial: seq<Message>, fields: StateFields, cs: nat -> Cycle)
    returns (r: Outcome, prompts: seq<Prompt>)
    requires Normalized(cfg, cs)
    ensures cfg.maxRetries < 0 ==>
              && prompts == []
              && r == Reviewed([Attempt(Pass, NodeText, FallbackTarget(cfg.targets), SafetyCap)], [], map[])
    ensures cfg.maxRetries >= 0 ==>
              && 1 <= |prompts| <= Cap(cfg)
              && EndsAt(cfg, cs, |prompts| - 1, r)
    ensures Shown(cfg, initial, fields, cs, prompts)
  {
    CapSign(cfg);
    var cap := Cap(cfg);
    var concluded;
    concluded, prompts := Cycles(cfg, initial, fields, cs, if cap > 0 then cap else 0);
    if concluded.Some? {
      return concluded.value, prompts;
    }
    // The for-else.
    if cap > 0 {
      RetriesFitBudget(cfg, cs, cap);
      assert false;
    }
    return Reviewed([Attempt(Pass, NodeText, FallbackTarget(cfg.targets), SafetyCap)], [], map[]), prompts;
  }

  // The same with the verdicts parsed from arbitrary replies.
  method Call(cfg: Config, initial: seq<Message>, fields: StateFields,
              replies: nat -> Reply, runs: nat -> TargetRun)
    returns (r: Outcome, prompts: seq<Prompt>)
    ensures
      var cs := Read(cfg.targets, replies, runs);
      && Shown(cfg, initial, fields, cs, prompts)
      && if cfg.maxRetries < 0 then
           prompts == [] && r == Reviewed([Attempt(Pass, NodeText, FallbackTarget(cfg.targets), SafetyCap)], [], map[])
         else
           1 <= |prompts| <= Cap(cfg) && EndsAt(cfg, cs, |prompts| - 1, r)
  {
    ReadIsNormalized(cfg, replies, runs);
    r, prompts := Review(cfg, initial, fields, Read(cfg.targets, replies, runs));
  }

  // --- what a reply decides --------------------------------------------------------

  // The reply holds an object that says "pass"; anything else asks for another iteration.
  predicate SaysPass(found: JX.Found) {
    found.Object? && "verdict" in found.fields && found.fields["verdict"] == JString("pass")
  }

  // The reply names one of the node's own targets.
  predicate SaysTarget(found: JX.Found, targets: seq<string>, t: string) {
    found.Object? && "target_node" in found.fields && found.fields["target_node"] == JString(t) && t in targets
  }

  predicate SaysFeedback(found: JX.Found, text: string) {
    found.Object? && "feedback" in found.fields && found.fields["feedback"] == JString(text) && Strip(text) != ""
  }

  // Reply by reply, what is judged: pass exactly on the word itself, the named target or else the first
  // one, and the feedback's own words whenever it has any.
  lemma ReplyIsJudged(reply: Reply, targets: seq<string>, run: TargetRun)
    ensures
      var c := CycleOf(reply, targets, run);
      && c.message == reply.message && c.run == run
      && (c.unreadable <==> reply.found.Raised?)
      && (c.judgement.verdict == Pass <==> SaysPass(reply.found))
      && (forall t :: SaysTarget(reply.found, targets, t) ==> c.judgement.target == t)
      && ((forall t :: !SaysTarget(reply.found, targets, t)) ==>
            c.judgement.target == if targets == [] then "" else targets[0])
      && (forall text :: c.judgement.feedback == Said(text) <==> SaysFeedback(reply.found, text))
      && (c.judgement.feedback == ParseFailure <==> !reply.found.Object?)
  {
    if reply.found.Object? {
      var named := Get(reply.found.fields, "target_node");
      if named.JString? && named.s in targets {
        assert SaysTarget(reply.found, targets, named.s);
      }
    }
  }

  ghost predicate EndsAsJudged(cfg: Config, cs: nat -> Cycle, n: nat) {
    && AllRetry(cfg, cs, n) && !Retries(cfg, cs, n) && Concluded(cfg, cs, n).Reviewed?
    && Concluded(cfg, cs, n).attempts[|Concluded(cfg, cs, n).attempts| - 1].ground == AsJudged
  }

  lemma JudgedPassEnds(cfg: Config, cs: nat -> Cycle, n: nat)
    ensures EndsAsJudged(cfg, cs, n) <==> AllRetry(cfg, cs, n) && !cs(n).unreadable && cs(n).judgement.verdict == Pass
  {
    hide Visits, Iterates, Gathered;
  }

  // A review ends by the LLM's own pass in cycle n exactly when reply n is the first to say so and every
  // cycle before it retried its target.
  lemma PassEndsReviewIff(cfg: Config, replies: nat -> Reply, runs: nat -> TargetRun, n: nat)
    ensures
      var cs := Read(cfg.targets, replies, runs);
      EndsAsJudged(cfg, cs, n) <==>
        && SaysPass(replies(n).found)
        && forall i :: 0 <= i < n ==> !SaysPass(replies(i).found) && Retries(cfg, cs, i)
  {
    var cs := Read(cfg.targets, replies, runs);
    forall i: nat ensures !cs(i).unreadable && cs(i).judgement.verdict == Pass <==> SaysPass(replies(i).found) {
      assert cs(i) == CycleOf(replies(i), cfg.targets, runs(i));
      ReplyIsJudged(replies(i), cfg.targets, runs(i));
    }
    hide CycleOf, Read, EndsAsJudged, SaysPass, Retries;
    JudgedPassEnds(cfg, cs, n);
    RetryingSaysNoPass(cfg, cs, n);
  }

  lemma RetryingSaysNoPass(cfg: Config, cs: nat -> Cycle, n: nat)
    ensures AllRetry(cfg, cs, n) ==> forall i :: 0 <= i < n ==> cs(i).judgement.verdict == Iterate
  {
    hide Visits;
    if AllRetry(cfg, cs, n) {
      forall i | 0 <= i < n ensures cs(i).judgement.verdict == Iterate {
        assert Retries(cfg, cs, i);
      }
    }
  }

  // Which cycles retry, in terms of the reply: it can be read, does not say pass, the target has budget
  // left, and re-invoking it returned.
  lemma RetriesIff(cfg: Config, replies: nat -> Reply, runs: nat -> TargetRun, n: nat)
    ensures
      var cs := Read(cfg.targets, replies, runs);
      Retries(cfg, cs, n) <==>
        && !replies(n).found.Raised? && !SaysPass(replies(n).found) && runs(n).Returned?
        && Visits(cs, n, cs(n).judgement.target) < cfg.maxRetries
  {
    var cs := Read(cfg.targets, replies, runs);
    assert cs(n) == CycleOf(replies(n), cfg.targets, runs(n));
    ReplyIsJudged(replies(n), cfg.targets, runs(n));
    hide CycleOf, Read, Visits;
  }

  // How a review ends in its last cycle: an unreadable reply escapes; a pass is taken as it is; a target
  // whose budget is spent is passed over; one whose folds are frozen too, where that is expected; and
  // what else re-invoking the target raises escapes. Only then is the record of attempts closed.
  lemma ReviewEnds(cfg: Config, replies: nat -> Reply, runs: nat -> TargetRun, n: nat, r: Outcome)
    requires cfg.maxRetries >= 0 && EndsAt(cfg, Read(cfg.targets, replies, runs), n, r)
    ensures
      var cs := Read(cfg.targets, replies, runs);
      var j, spent := cs(n).judgement, Visits(cs, n, cs(n).judgement.target) == cfg.maxRetries;
      var closing :=
        if replies(n).found.Raised? then None
        else if SaysPass(replies(n).found) then Some(Attempt(Pass, j.feedback, j.target, AsJudged))
        else if spent then Some(Attempt(Pass, j.feedback, j.target, BudgetExhausted))
        else if runs(n) == FoldsAlreadyFrozen && j.target in cfg.frozenTargets then
          Some(Attempt(Pass, NodeText, j.target, FoldsFrozen))
        else None;
      && (closing.Some? ==> r == Reviewed(Iterates(cs, n) + [closing.value], Gathered(cs, n) + [replies(n).message], map[]))
      && (closing.None? ==> r == Raised(Iterates(cs, n)))
      && (closing.None? && !replies(n).found.Raised? ==> !runs(n).Returned?)
  {
    var cs := Read(cfg.targets, replies, runs);
    assert cs(n) == CycleOf(replies(n), cfg.targets, runs(n));
    ReplyIsJudged(replies(n), cfg.targets, runs(n));
    NoTargetExceedsBudget(cfg, cs, n, cs(n).judgement.target);
    hide CycleOf, Read, Visits, Iterates, Gathered, SaysPass;
  }

  // The prompt's history is the newest messages, as many as the window holds.
  lemma TrimKeepsNewest(messages: seq<Message>, window: int) returns (dropped: seq<Message>)
    ensures messages == dropped + Trim(messages, window)
    ensures |Trim(messages, window)| ==
            if window <= 0 then 0 else if |messages| < window then |messages| else window
  {
    dropped := messages[..|messages| - |Trim(messages, window)|];
  }

  // What each critic makes of a response, for any JSON parser. analysis_critic lets what is not a
  // JSONDecodeError escape; code_critic catches everything.
  function AnalysisReply(parse: JX.Parser, content: string): Reply {
    Reply(content, JX.FirstObject(parse, JX.FenceCandidates(content)))
  }

  function AnalysisReplies(parse: JX.Parser, contents: nat -> string): nat -> Reply {
    (i: nat) => AnalysisReply(parse, contents(i))
  }

  function CodeReply(parse: JX.Parser, content: string): Reply {
    match JX.VerdictData(parse, content)
    case Some(fields) => Reply(content, JX.Object(fields))
    case None => Reply(content, JX.Nothing)
  }

  // An exception while reading a reply ends the review there and then, before any record is written,
  // and it ends an analysis_critic review in cycle n exactly when a candidate text of that reply
  // overflows the parser and none before it is an object.
  lemma ReplyEndsReviewIff(cfg: Config, parse: JX.Parser, contents: nat -> string, runs: nat -> TargetRun, n: nat)
    ensures
      var cs := Read(cfg.targets, AnalysisReplies(parse, contents), runs);
      var texts := JX.FenceCandidates(contents(n));
      && (AllRetry(cfg, cs, n) && cs(n).unreadable ==> EndsAt(cfg, cs, n, Raised(Iterates(cs, n))))
      && (cs(n).unreadable <==>
            exists k :: 0 <= k < |texts| && JX.Overflows(parse(texts[k]))
              && forall i :: 0 <= i < k ==> !JX.IsObject(parse(texts[i])))
  {
    var cs := Read(cfg.targets, AnalysisReplies(parse, contents), runs);
    assert cs(n) == CycleOf(AnalysisReply(parse, contents(n)), cfg.targets, runs(n));
    JX.RaisesIff(parse, JX.FenceCandidates(contents(n)));
  }

  // What analysis_critic finds in a response: the object of the first candidate text that holds one.
  lemma AnalysisReplyIs(parse: JX.Parser, content: string, fields: Fields)
    ensures
      var reply, texts := AnalysisReply(parse, content), JX.FenceCandidates(content);
      && reply.message == content
      && (reply.found == JX.Object(fields) <==>
            exists k :: 0 <= k < |texts| && parse(texts[k]) == JX.Value(JObject(fields))
              && forall i :: 0 <= i < k ==> !JX.Overflows(parse(texts[i])) && !JX.IsObject(parse(texts[i])))
  {
    hide JX.FenceCandidates, JX.FirstObject;
    JX.ObjectIff(parse, JX.FenceCandidates(content), fields);
  }

  // What code_critic finds: the object of the response as a whole, or else of the text before the first
  // fence marker that yields one.
  lemma CodeReplyIs(parse: JX.Parser, content: string)
    ensures
      var reply, whole, m := CodeReply(parse, content), JX.ExtractObject(parse, content), JX.Markers(content, 0);
      && reply.message == content
      && (whole.Ok? ==> reply.found == JX.Object(whole.value))
      && (whole.Err? ==>
            && (reply.found == JX.Nothing <==> forall k :: 0 <= k < |m| ==> !JX.Yields(JX.Extraction(parse), content, m[k]))
            && forall k: nat :: JX.IsFirstYield(JX.Extraction(parse), content, m, k) ==>
                 && reply.found.Object?
                 && Ok(reply.found.fields) == JX.ExtractObject(parse, Strip(content[..m[k]])))
  {
    var extract, m := JX.Extraction(parse), JX.Markers(content, 0);
    JX.ScanIsFirstYield(extract, content, 0);
    JX.NothingYields(extract, content, m);
    forall k: nat | JX.IsFirstYield(extract, content, m, k)
      ensures JX.FirstYield(extract, content, m).Some?
      ensures Ok(JX.FirstYield(extract, content, m).value) == JX.ExtractObject(parse, Strip(content[..m[k]]))
    {
      JX.FirstYieldIs(extract, content, m, k);
      assert extract(Strip(content[..m[k]])) == JX.ExtractObject(parse, Strip(content[..m[k]]));
    }
    hide JX.ExtractObject, JX.ScanPrefixes, JX.FirstYield, JX.Yields, JX.IsFirstYield, JX.Markers, Strip;
  }

  // code_critic reads every reply.
  lemma CodeCriticReadsEverything(targets: seq<string>, parse: JX.Parser, content: string, run: TargetRun)
    ensures !CycleOf(CodeReply(parse, content), targets, run).unreadable
  {
  }

  function Read(targets: seq<string>, replies: nat -> Reply, runs: nat -> TargetRun): nat -> Cycle {
    (i: nat) => CycleOf(replies(i), targets, runs(i))
  }

  lemma ReadIsNormalized(cfg: Config, replies: nat -> Reply, runs: nat -> TargetRun)
    ensures Normalized(cfg, Read(cfg.targets, replies, runs))
  {
    forall i: nat ensures Read(cfg.targets, replies, runs)(i).judgement.target in Nameable(cfg.targets) {
      assert Read(cfg.targets, replies, runs)(i) == CycleOf(replies(i), cfg.targets, runs(i));
    }
  }

  lemma CapSign(cfg: Config)
    ensures Cap(cfg) > 0 <==> cfg.maxRetries >= 0
  {
    var n := |Nameable(cfg.targets)|;
    assert cfg.maxRetries >= 0 ==> (cfg.maxRetries + 1) * n >= n;
    assert cfg.maxRetries < 0 ==> (cfg.maxRetries + 1) * n <= 0;
  }

  // --- the pigeonhole argument -----------------------------------------------------

  lemma {:induction false} NoTargetExceedsBudget(cfg: Config, cs: nat -> Cycle, n: nat, t: string)
    requires cfg.maxRetries >= 0 && AllRetry(cfg, cs, n)
    ensures Visits(cs, n, t) <= cfg.maxRetries
  {
    if n > 0 {
      NoTargetExceedsBudget(cfg, cs, n - 1, t);
      assert Retries(cfg, cs, n - 1);
    }
  }

  function TotalVisits(cs: nat -> Cycle, n: nat, ts: seq<string>): nat {
    if ts == [] then 0 else Visits(cs, n, ts[0]) + TotalVisits(cs, n, ts[1..])
  }

  lemma {:induction false} TotalGrows(cs: nat -> Cycle, n: nat, ts: seq<string>)
    ensures TotalVisits(cs, n + 1, ts) >= TotalVisits(cs, n, ts)
    ensures cs(n).judgement.target in ts ==>
              TotalVisits(cs, n + 1, ts) > TotalVisits(cs, n, ts)
  {
    if ts != [] {
      TotalGrows(cs, n, ts[1..]);
    }
  }

  // Every cycle visits some nameable target.
  lemma {:induction false} EveryCycleVisits(cfg: Config, cs: nat -> Cycle, n: nat)
    requires Normalized(cfg, cs)
    ensures TotalVisits(cs, n, Nameable(cfg.targets)) >= n
  {
    if n > 0 {
      EveryCycleVisits(cfg, cs, n - 1);
      TotalGrows(cs, n - 1, Nameable(cfg.targets));
    }
  }

  lemma {:induction false} TotalWithinBudgets(cfg: Config, cs: nat -> Cycle, n: nat, ts: seq<string>)
    requires cfg.maxRetries >= 0 && AllRetry(cfg, cs, n)
    ensures TotalVisits(cs, n, ts) <= |ts| * cfg.maxRetries
  {
    if ts != [] {
      NoTargetExceedsBudget(cfg, cs, n, ts[0]);
      TotalWithinBudgets(cfg, cs, n, ts[1..]);
      assert |ts| * cfg.maxRetries == |ts[1..]| * cfg.maxRetries + cfg.maxRetries;
    }
  }

  // Fewer cycles can retry than the cap allows.
  lemma RetriesFitBudget(cfg: Config, cs: nat -> Cycle, n: nat)
    requires Normalized(cfg, cs) && cfg.maxRetries >= 0 && AllRetry(cfg, cs, n)
    ensures n < Cap(cfg)
  {
    var ts := Nameable(cfg.targets);
    EveryCycleVisits(cfg, cs, n);
    TotalWithinBudgets(cfg, cs, n, ts);
    assert Cap(cfg) == |ts| * cfg.maxRetries + |ts|;
  }

  // --- what a review amounts to ----------------------------------------------------

  function IteratesOn(attempts: seq<Attempt>, t: string): nat {
    if attempts == [] then 0
    else
      var last := attempts[|attempts| - 1];
      IteratesOn(attempts[..|attempts| - 1], t) + if last.verdict == Iterate && last.target == t then 1 else 0
  }

  lemma {:induction false} IteratesAreVisits(cs: nat -> Cycle, n: nat, t: string)
    ensures IteratesOn(Iterates(cs, n), t) == Visits(cs, n, t)
  {
    var a := Iterates(cs, n);
    if n > 0 {
      assert a[..|a| - 1] == Iterates(cs, n - 1);
      IteratesAreVisits(cs, n - 1, t);
    }
  }

  // The closing attempt of a review that concludes in cycle n.
  lemma ConcludingAttempt(cfg: Config, cs: nat -> Cycle, n: nat) returns (last: Attempt)
    requires Concluded(cfg, cs, n).Reviewed?
    ensures Concluded(cfg, cs, n).attempts == Iterates(cs, n) + [last]
    ensures last.verdict == Pass && last.ground != SafetyCap
    ensures last.ground == BudgetExhausted ==> Visits(cs, n, last.target) >= cfg.maxRetries
  {
    var attempts := Concluded(cfg, cs, n).attempts;
    last := attempts[|attempts| - 1];
  }

  // A finished review is a run of iterates closed by exactly one pass; no target was iterated on
  // more often than the budget; and a budget is only called exhausted once it is fully spent.
  lemma ReviewShape(cfg: Config, cs: nat -> Cycle, n: nat)
    requires cfg.maxRetries >= 0 && AllRetry(cfg, cs, n)
    requires Concluded(cfg, cs, n).Reviewed?
    ensures
      var attempts := Concluded(cfg, cs, n).attempts;
      && |attempts| == n + 1
      && attempts[n].verdict == Pass && attempts[n].ground != SafetyCap
      && (forall i :: 0 <= i < n ==> attempts[i].verdict == Iterate)
      && (forall t :: IteratesOn(attempts, t) <= cfg.maxRetries)
      && (attempts[n].ground == BudgetExhausted ==> IteratesOn(attempts, attempts[n].target) == cfg.maxRetries)
  {
    var last := ConcludingAttempt(cfg, cs, n);
    forall t ensures IteratesOn(Iterates(cs, n) + [last], t) == Visits(cs, n, t) <= cfg.maxRetries {
      assert (Iterates(cs, n) + [last])[..n] == Iterates(cs, n);
      IteratesAreVisits(cs, n, t);
      NoTargetExceedsBudget(cfg, cs, n, t);
    }
  }

  // A target whose every run reports frozen folds is never iterated on: the first time the LLM
  // asks for it with budget left, the review ends there.
  lemma FrozenTargetIsNeverRetried(cfg: Config, cs: nat -> Cycle, n: nat, t: string)
    requires AllRetry(cfg, cs, n)
    requires forall i: nat :: cs(i).judgement.target == t ==> cs(i).run == FoldsAlreadyFrozen
    ensures forall i :: 0 <= i < n ==> cs(i).judgement.target != t
    ensures forall i :: 0 <= i < n ==> Iterates(cs, n)[i].target != t
  {
    forall i | 0 <= i < n ensures cs(i).judgement.target != t {
      assert Retries(cfg, cs, i);
    }
  }
}
