// How a JSON object is found in an LLM response: extract_json_object of
// src/nodes/llm/_experiment_design.py, the fallback scan of src/nodes/llm/code_critic.py, and the
// candidates of src/nodes/llm/analysis_critic.py. JSON parsing itself is an arbitrary function.
module JsonExtraction {
  import opened Common
  import opened Text
  import opened LabStates

  const FENCE := "```"

  // json.loads: a value, a JSONDecodeError, the plain ValueError of an integer literal past the
  // interpreter's digit limit, or the RecursionError of a too deeply nested text.
  datatype Parsed = Value(json: Json) | Malformed | Oversized | TooDeep

  type Parser = string -> Parsed

  // Caught by `except ValueError`.
  predicate IsValueError(p: Parsed) {
    p.Malformed? || p.Oversized?
  }

  // Not caught by `except json.JSONDecodeError`.
  predicate Overflows(p: Parsed) {
    p.Oversized? || p.TooDeep?
  }

  predicate IsObject(p: Parsed) {
    p.Value? && p.json.JObject?
  }

  datatype Failure = NotJson | NotAnObject | Recursion

  // --- fences ----------------------------------------------------------------------

  // _strip_outer_fence
  function StripOuterFence(content: string): Option<string> {
    var text := Strip(content);
    if !StartsWith(text, FENCE) then Some(text)
    else if !EndsWith(text, FENCE) || |text| < 6 then None
    else
      match Find(text, "\n", 0)
      case None => None
      case Some(newline) =>
        var inner := text[newline + 1..];
        match FindLast(inner, FENCE, |inner|)
        case None => None
        case Some(closing) => Some(Strip(inner[..closing]))
  }

  // A body inside one outer fence, and a response holding nothing else.
  function Fenced(info: string, body: string): string {
    FENCE + info + "\n" + body + FENCE
  }

  function Wrap(before: string, info: string, body: string, after: string): string {
    before + Fenced(info, body) + after
  }

  lemma StripWrapped(before: string, info: string, body: string, after: string)
    requires AllSpace(before) && AllSpace(after)
    ensures Strip(Wrap(before, info, body, after)) == Fenced(info, body)
  {
    var text := Fenced(info, body);
    assert Wrap(before, info, body, after) == before + (text + after);
    assert text[0] == '`' && text[|text| - 1] == '`';
    StripPadded(before, text, after);
  }

  // Where the pieces of a fenced text are found again.
  lemma FencedParts(info: string, body: string)
    requires '\n' !in info
    ensures StartsWith(Fenced(info, body), FENCE) && EndsWith(Fenced(info, body), FENCE)
    ensures |Fenced(info, body)| >= 6
    ensures Find(Fenced(info, body), "\n", 0) == Some(3 + |info|)
    ensures Fenced(info, body)[4 + |info|..] == body + FENCE
  {
    var text, newline := Fenced(info, body), 3 + |info|;
    OccursChar(text, '\n', newline);
    forall i | 0 <= i < newline ensures !OccursAt(text, "\n", i) {
      OccursChar(text, '\n', i);
      assert text[i] == if i < 3 then FENCE[i] else info[i - 3];
    }
    FindIs(text, "\n", 0, newline);
  }

  lemma LastFence(body: string)
    ensures FindLast(body + FENCE, FENCE, |body + FENCE|) == Some(|body|)
    ensures (body + FENCE)[..|body|] == body
  {
    FindLastIs(body + FENCE, FENCE, |body + FENCE|, |body|);
  }

  // Stripping undoes wrapping for every body, whatever fences it holds itself.
  lemma StripUndoesWrap(before: string, info: string, body: string, after: string)
    requires AllSpace(before) && AllSpace(after) && '\n' !in info
    ensures StripOuterFence(Wrap(before, info, body, after)) == Some(Strip(body))
  {
    StripWrapped(before, info, body, after);
    FencedParts(info, body);
    LastFence(body);
  }

  // --- extract_json_object ---------------------------------------------------------

  // _slice_outermost_braces
  function SliceOutermostBraces(text: string): Option<string> {
    match (Find(text, "{", 0), FindLast(text, "}", |text|))
    case (Some(start), Some(end)) => if end < start then None else Some(text[start..end + 1])
    case _ => None
  }

  function ObjectOf(json: Json): Result<Fields, Failure> {
    if json.JObject? then Ok(json.fields) else Err(NotAnObject)
  }

  // The fence handling and the parse on the whole response; a fence failure is a ValueError too.
  function Strict(parse: Parser, content: string): Parsed {
    match StripOuterFence(content)
    case None => Malformed
    case Some(text) => parse(text)
  }

  // What the salvage makes of its slice.
  function Salvage(parse: Parser, content: string): Result<Fields, Failure> {
    match SliceOutermostBraces(content)
    case None => Err(NotJson)
    case Some(slice) =>
      if slice == Strip(content) then Err(NotJson)
      else
        match parse(slice)
        case Value(json) => ObjectOf(json)
        case TooDeep => Err(Recursion)
        case _ => Err(NotJson)
  }

  function ExtractObject(parse: Parser, content: string): Result<Fields, Failure> {
    match Strict(parse, content)
    case Value(json) => ObjectOf(json)
    case TooDeep => Err(Recursion)
    case _ => Salvage(parse, content)
  }

  // Salvage only ever widens what is accepted: a response the strict path parses is answered from that
  // parse alone, and anything else accepted was parsed from one contiguous piece of the response that
  // starts and ends with braces.
  lemma SalvageOnlyWidens(parse: Parser, content: string)
    ensures Strict(parse, content).Value? ==>
              ExtractObject(parse, content) == ObjectOf(Strict(parse, content).json)
    ensures ExtractObject(parse, content).Ok? && !Strict(parse, content).Value? ==>
              exists i, j :: 0 <= i < j <= |content| && content[i] == '{' && content[j - 1] == '}'
                && parse(content[i..j]) == Value(JObject(ExtractObject(parse, content).value))
  {
    if ExtractObject(parse, content).Ok? && !Strict(parse, content).Value? {
      var start, end := Find(content, "{", 0).value, FindLast(content, "}", |content|).value;
      OccursChar(content, '{', start);
      OccursChar(content, '}', end);
      assert parse(content[start..end + 1]) == Value(JObject(ExtractObject(parse, content).value));
    }
  }

  // Without a fence in front, the whole response is what is parsed first.
  lemma PlainResponse(parse: Parser, content: string)
    requires Strip(content) != "" && (Strip(content)[0] != '`' || !StartsWith(Strip(content), FENCE))
    ensures Strict(parse, content) == parse(Strip(content))
  {
    var text := Strip(content);
    assert |text| >= 3 ==> text[..3][0] == text[0];
  }

  predicate BraceFree(s: string) {
    '{' !in s && '}' !in s
  }

  lemma SliceBetween(before: string, json: string, after: string)
    requires BraceFree(before) && BraceFree(after)
    requires |json| >= 2 && json[0] == '{' && json[|json| - 1] == '}'
    ensures SliceOutermostBraces(before + json + after) == Some(json)
  {
    var content := before + json + after;
    var start, end := |before|, |before| + |json| - 1;
    OccursChar(content, '{', start);
    OccursChar(content, '}', end);
    forall i | 0 <= i < start ensures !OccursAt(content, "{", i) {
      OccursChar(content, '{', i);
      assert content[i] == before[i];
    }
    forall i | end < i <= |content| ensures !OccursAt(content, "}", i) {
      OccursChar(content, '}', i);
      assert i < |content| ==> content[i] == after[i - end - 1];
    }
    FindIs(content, "{", 0, start);
    FindLastIs(content, "}", |content|, end);
    assert content[start..end + 1] == json;
  }

  lemma SalvageTakesSlice(parse: Parser, content: string, slice: string)
    requires SliceOutermostBraces(content) == Some(slice) && slice[0..1] == "{"
    requires IsObject(parse(slice)) && IsValueError(Strict(parse, content))
    ensures ExtractObject(parse, content) == Ok(parse(slice).json.fields)
  {
    if slice == Strip(content) {
      assert slice[0] == slice[0..1][0];
      PlainResponse(parse, content);
    }
  }

  // Prose around an object never costs the object: if the response as a whole does not parse, what
  // counts is the text between the first and the last brace.
  lemma ProseIsSalvaged(parse: Parser, before: string, json: string, after: string)
    requires BraceFree(before) && BraceFree(after)
    requires |json| >= 2 && json[0] == '{' && json[|json| - 1] == '}'
    requires IsObject(parse(json)) && IsValueError(Strict(parse, before + json + after))
    ensures ExtractObject(parse, before + json + after) == Ok(parse(json).json.fields)
  {
    SliceBetween(before, json, after);
    SalvageTakesSlice(parse, before + json + after, json);
  }

  // The outermost braces of a text.
  predicate Outermost(content: string, i: nat, j: nat) {
    && i < j < |content| && content[i] == '{' && content[j] == '}'
    && '{' !in content[..i] && '}' !in content[j + 1..]
  }

  lemma OutermostIsSliced(content: string, i: nat, j: nat)
    requires Outermost(content, i, j)
    ensures SliceOutermostBraces(content) == Some(content[i..j + 1])
  {
    OccursChar(content, '{', i);
    OccursChar(content, '}', j);
    forall k | 0 <= k < i ensures !OccursAt(content, "{", k) {
      OccursChar(content, '{', k);
      assert content[k] == content[..i][k];
    }
    forall k | j < k <= |content| ensures !OccursAt(content, "}", k) {
      OccursChar(content, '}', k);
      assert k < |content| ==> content[k] == content[j + 1..][k - j - 1];
    }
    FindIs(content, "{", 0, i);
    FindLastIs(content, "}", |content|, j);
  }

  lemma SliceIff(content: string)
    ensures SliceOutermostBraces(content).Some? <==> exists i: nat, j: nat :: Outermost(content, i, j)
    ensures forall i: nat, j: nat :: Outermost(content, i, j) ==> SliceOutermostBraces(content) == Some(content[i..j + 1])
  {
    forall i: nat, j: nat | Outermost(content, i, j) ensures SliceOutermostBraces(content) == Some(content[i..j + 1]) {
      OutermostIsSliced(content, i, j);
    }
    if SliceOutermostBraces(content).Some? {
      var start, end := Find(content, "{", 0).value, FindLast(content, "}", |content|).value;
      OccursChar(content, '{', start);
      OccursChar(content, '}', end);
      forall k | 0 <= k < |content| ensures OccursAt(content, "{", k) <==> content[k] == '{' {
        OccursChar(content, '{', k);
      }
      forall k | 0 <= k < |content| ensures OccursAt(content, "}", k) <==> content[k] == '}' {
        OccursChar(content, '}', k);
      }
      assert Outermost(content, start, end);
    }
  }

  // An object is extracted exactly when the strict path parses to it, or when the strict path fails as a
  // ValueError and the text between the outermost braces, being less than the whole, parses to it.
  lemma ExtractedIff(parse: Parser, content: string, fields: Fields)
    ensures ExtractObject(parse, content) == Ok(fields) <==>
              || Strict(parse, content) == Value(JObject(fields))
              || (IsValueError(Strict(parse, content))
                  && exists i: nat, j: nat :: Outermost(content, i, j) && content[i..j + 1] != Strip(content)
                       && parse(content[i..j + 1]) == Value(JObject(fields)))
  {
    SliceIff(content);
    hide Strict, SliceOutermostBraces, Outermost, Strip;
  }

  // --- code_critic's fallback ------------------------------------------------------

  type Extractor = string -> Result<Fields, Failure>

  function Extraction(parse: Parser): Extractor {
    text => ExtractObject(parse, text)
  }

  // Try the prefix before each fence marker from position `from` on, nearest first.
  function ScanPrefixes(extract: Extractor, content: string, from: nat): Option<Fields>
    decreases |content| - from
  {
    match Find(content, FENCE, from)
    case None => None
    case Some(marker) =>
      var prefix := Strip(content[..marker]);
      if prefix != "" && extract(prefix).Ok? then Some(extract(prefix).value)
      else ScanPrefixes(extract, content, marker + 3)
  }

  function VerdictData(parse: Parser, content: string): Option<Fields> {
    match ExtractObject(parse, content)
    case Ok(fields) => Some(fields)
    case Err(_) => ScanPrefixes(Extraction(parse), content, 0)
  }

  // _extract_verdict_data: the scan ends on every response.
  method ExtractVerdictData(parse: Parser, content: string) returns (r: Option<Fields>)
    ensures r == VerdictData(parse, content)
  {
    var extract := Extraction(parse);
    var whole := extract(content);
    if whole.Ok? {
      return Some(whole.value);
    }
    r := SearchPrefixes(extract, content);
  }

  method SearchPrefixes(extract: Extractor, content: string) returns (r: Option<Fields>)
    ensures r == ScanPrefixes(extract, content, 0)
  {
    hide Strip;
    var from := 0;
    while true
      invariant ScanPrefixes(extract, content, 0) == ScanPrefixes(extract, content, from)
      decreases |content| - from
    {
      var marker := Find(content, FENCE, from);
      if marker.None? {
        return None;
      }
      var prefix := Strip(content[..marker.value]);
      from := marker.value + 3;
      if prefix == "" {
        continue;
      }
      var attempt := extract(prefix);
      if attempt.Ok? {
        return Some(attempt.value);
      }
    }
  }

  // The fence markers of a text from a position on, each sought behind the one before.
  function Markers(content: string, from: nat): (m: seq<nat>)
    ensures forall k :: 0 <= k < |m| ==> from <= m[k] && m[k] + 3 <= |content|
    decreases |content| - from
  {
    match Find(content, FENCE, from)
    case None => []
    case Some(marker) => [marker] + Markers(content, marker + 3)
  }

  predicate Covered(m: seq<nat>, p: nat) {
    exists k :: 0 <= k < |m| && m[k] <= p < m[k] + 3
  }

  lemma CoveredTail(marker: nat, rest: seq<nat>, p: nat)
    ensures Covered([marker] + rest, p) <==> marker <= p < marker + 3 || Covered(rest, p)
  {
    var m := [marker] + rest;
    assert m[0] == marker;
    if k :| 0 <= k < |rest| && rest[k] <= p < rest[k] + 3 {
      assert m[k + 1] == rest[k];
    }
    if k :| 0 < k < |m| && m[k] <= p < m[k] + 3 {
      assert rest[k - 1] == m[k];
    }
  }

  // Every marker is a fence.
  lemma {:induction false} MarkersAreFences(content: string, from: nat, k: nat)
    requires k < |Markers(content, from)|
    ensures OccursAt(content, FENCE, Markers(content, from)[k])
    decreases |content| - from
  {
    var marker := Find(content, FENCE, from).value;
    FenceFits(content, marker);
    hide OccursAt, Find;
    if k > 0 {
      MarkersAreFences(content, marker + 3, k - 1);
    }
  }

  // And every fence is a marker or overlaps one.
  lemma {:induction false} FencesAreCovered(content: string, from: nat, p: nat)
    requires from <= p && OccursAt(content, FENCE, p)
    ensures Covered(Markers(content, from), p)
    decreases |content| - from
  {
    hide OccursAt, Covered;
    var marker := Find(content, FENCE, from).value;
    FenceFits(content, marker);
    CoveredTail(marker, Markers(content, marker + 3), p);
    if p >= marker + 3 {
      FencesAreCovered(content, marker + 3, p);
    }
  }

  lemma FenceFits(content: string, i: nat)
    ensures OccursAt(content, FENCE, i) ==> i + 3 <= |content|
  {
  }

  // The text before a marker yields an object.
  predicate Yields(extract: Extractor, content: string, marker: nat) {
    marker <= |content| && Strip(content[..marker]) != "" && extract(Strip(content[..marker])).Ok?
  }

  predicate IsFirstYield(extract: Extractor, content: string, m: seq<nat>, k: nat) {
    k < |m| && Yields(extract, content, m[k]) && forall i :: 0 <= i < k ==> !Yields(extract, content, m[i])
  }

  function FirstYield(extract: Extractor, content: string, m: seq<nat>): Option<Fields> {
    if m == [] then None
    else if Yields(extract, content, m[0]) then Some(extract(Strip(content[..m[0]])).value)
    else FirstYield(extract, content, m[1..])
  }

  lemma {:induction false} FirstYieldIs(extract: Extractor, content: string, m: seq<nat>, k: nat)
    requires IsFirstYield(extract, content, m, k)
    ensures FirstYield(extract, content, m).Some? && Ok(FirstYield(extract, content, m).value) == extract(Strip(content[..m[k]]))
  {
    hide Strip;
    if k > 0 {
      assert forall i :: 0 <= i < k - 1 ==> m[1..][i] == m[i + 1];
      FirstYieldIs(extract, content, m[1..], k - 1);
    }
  }

  lemma {:induction false} NothingYields(extract: Extractor, content: string, m: seq<nat>)
    ensures FirstYield(extract, content, m).None? <==> forall k :: 0 <= k < |m| ==> !Yields(extract, content, m[k])
  {
    hide Yields;
    if m != [] {
      NothingYields(extract, content, m[1..]);
      assert forall k :: 0 < k < |m| ==> m[k] == m[1..][k - 1];
    }
  }

  // The scan answers with the object before the first marker that yields one, if some marker does.
  lemma {:induction false} ScanIsFirstYield(extract: Extractor, content: string, from: nat)
    ensures ScanPrefixes(extract, content, from) == FirstYield(extract, content, Markers(content, from))
    decreases |content| - from
  {
    hide Strip;
    var found := Find(content, FENCE, from);
    if found.Some? {
      assert found.value + 3 <= |content|;
      ScanIsFirstYield(extract, content, found.value + 3);
      var m := Markers(content, from);
      assert m[0] == found.value && m[1..] == Markers(content, found.value + 3);
    }
  }

  // Nothing before the first fence starts with one.
  lemma StripHasNoFence(json: string, rest: string)
    requires Find(json + FENCE + rest, FENCE, 0) == Some(|json|)
    ensures !StartsWith(Strip(json), FENCE)
  {
    if StartsWith(Strip(json), FENCE) {
      var at := StripIsSlice(json);
      assert json[at..at + 3] == Strip(json)[..3];
      NoEarlierFence(json, rest, at);
    }
  }

  lemma NoEarlierFence(json: string, rest: string, at: nat)
    requires Find(json + FENCE + rest, FENCE, 0) == Some(|json|) && at + 3 <= |json|
    ensures json[at..at + 3] != FENCE
  {
    assert (json + FENCE + rest)[at..at + 3] == json[at..at + 3];
    assert !OccursAt(json + FENCE + rest, FENCE, at);
  }

  // A verdict object followed by a fenced trailer, braces and all, is recovered whenever the response
  // as a whole yields nothing.
  lemma TrailerIsCutOff(parse: Parser, json: string, trailer: string)
    requires Find(json + FENCE + trailer, FENCE, 0) == Some(|json|)
    requires IsObject(parse(Strip(json))) && Strip(json) != ""
    requires ExtractObject(parse, json + FENCE + trailer).Err?
    ensures VerdictData(parse, json + FENCE + trailer) == Some(parse(Strip(json)).json.fields)
  {
    StripHasNoFence(json, trailer);
    PlainObject(parse, json);
    assert (json + FENCE + trailer)[..|json|] == json;
    ScanFirst(Extraction(parse), json + FENCE + trailer, |json|);
  }

  lemma PlainObject(parse: Parser, json: string)
    requires Strip(json) != "" && !StartsWith(Strip(json), FENCE) && IsObject(parse(Strip(json)))
    ensures Extraction(parse)(Strip(json)) == Ok(parse(Strip(json)).json.fields)
  {
    StripTrimmed(json);
    StripTrimmed(Strip(json));
    PlainResponse(parse, Strip(json));
  }

  lemma ScanFirst(extract: Extractor, content: string, marker: nat)
    requires Find(content, FENCE, 0) == Some(marker)
    requires Strip(content[..marker]) != "" && extract(Strip(content[..marker])).Ok?
    ensures ScanPrefixes(extract, content, 0) == Some(extract(Strip(content[..marker])).value)
  {
  }

  // --- analysis_critic's candidates ------------------------------------------------

  function FenceCandidates(content: string): seq<string> {
    var text := Strip(content);
    if !(StartsWith(text, FENCE) && EndsWith(text, FENCE) && |text| >= 6) then [text]
    else
      match Find(text, "\n", 0)
      case None => [text]
      case Some(newline) =>
        var inner := text[newline + 1..];
        var last, first := FindLast(inner, FENCE, |inner|), Find(inner, FENCE, 0);
        [text]
        + (if last.Some? then [Strip(inner[..last.value])] else [])
        + (if first.Some? && first != last then [Strip(inner[..first.value])] else [])
  }

  datatype Found = Object(fields: Fields) | Nothing | Raised

  // The first candidate that is an object; only JSONDecodeError is caught on the way.
  function FirstObject(parse: Parser, candidates: seq<string>): Found {
    if candidates == [] then Nothing
    else
      match parse(candidates[0])
      case Oversized => Raised
      case TooDeep => Raised
      case Malformed => FirstObject(parse, candidates[1..])
      case Value(json) => if json.JObject? then Object(json.fields) else FirstObject(parse, candidates[1..])
  }

  // _extract_verdict_object
  method ExtractVerdictObject(parse: Parser, content: string) returns (r: Found)
    ensures r == FirstObject(parse, FenceCandidates(content))
  {
    var candidates := FenceCandidates(content);
    r := SearchCandidates(parse, candidates);
  }

  method SearchCandidates(parse: Parser, candidates: seq<string>) returns (r: Found)
    ensures r == FirstObject(parse, candidates)
  {
    for i := 0 to |candidates|
      invariant FirstObject(parse, candidates) == FirstObject(parse, candidates[i..])
    {
      assert candidates[i..][1..] == candidates[i + 1..];
      var parsed := parse(candidates[i]);
      if Overflows(parsed) {
        return Raised;
      }
      if IsObject(parsed) {
        return Object(parsed.json.fields);
      }
    }
    return Nothing;
  }

  // The object is that of the first candidate that holds one, when none before it overflows the parser.
  lemma {:induction false} ObjectIff(parse: Parser, candidates: seq<string>, fields: Fields)
    ensures FirstObject(parse, candidates) == Object(fields) <==>
              exists k :: 0 <= k < |candidates| && parse(candidates[k]) == Value(JObject(fields))
                && forall i :: 0 <= i < k ==> !Overflows(parse(candidates[i])) && !IsObject(parse(candidates[i]))
  {
    if candidates != [] {
      var rest := candidates[1..];
      ObjectIff(parse, rest, fields);
      assert forall k :: 0 < k < |candidates| ==> candidates[k] == rest[k - 1];
      assert forall k :: 0 <= k < |rest| ==> rest[k] == candidates[k + 1];
      var p := parse(candidates[0]);
      if !Overflows(p) && !IsObject(p) {
        if FirstObject(parse, rest) == Object(fields) {
          var k :| 0 <= k < |rest| && parse(rest[k]) == Value(JObject(fields))
            && forall i :: 0 <= i < k ==> !Overflows(parse(rest[i])) && !IsObject(parse(rest[i]));
          assert parse(candidates[k + 1]) == Value(JObject(fields));
        }
        forall k | 0 <= k < |candidates| && parse(candidates[k]) == Value(JObject(fields))
                   && (forall i :: 0 <= i < k ==> !Overflows(parse(candidates[i])) && !IsObject(parse(candidates[i])))
          ensures FirstObject(parse, candidates) == Object(fields)
        {
          assert parse(rest[k - 1]) == Value(JObject(fields));
          assert forall i :: 0 <= i < k - 1 ==> !Overflows(parse(rest[i])) && !IsObject(parse(rest[i]));
        }
      }
    }
  }

  // Its comment promises never to raise. It raises exactly when some candidate overflows the parser
  // and no candidate before that one is an object.
  lemma {:induction false} RaisesIff(parse: Parser, candidates: seq<string>)
    ensures FirstObject(parse, candidates) == Raised <==>
              exists k :: 0 <= k < |candidates|
                && Overflows(parse(candidates[k]))
                && forall i :: 0 <= i < k ==> !IsObject(parse(candidates[i]))
  {
    if candidates != [] {
      var rest := candidates[1..];
      RaisesIff(parse, rest);
      var p := parse(candidates[0]);
      if !Overflows(p) && !IsObject(p) {
        if FirstObject(parse, rest) == Raised {
          var k :| 0 <= k < |rest| && Overflows(parse(rest[k]))
            && forall i :: 0 <= i < k ==> !IsObject(parse(rest[i]));
          assert parse(candidates[k + 1]) == parse(rest[k]);
          assert forall i :: 0 < i < k + 1 ==> candidates[i] == rest[i - 1];
        } else {
          forall k | 0 <= k < |candidates| && Overflows(parse(candidates[k]))
            ensures exists i :: 0 <= i < k && IsObject(parse(candidates[i]))
          {
            assert rest[k - 1] == candidates[k];
            var i :| 0 <= i < k - 1 && IsObject(parse(rest[i]));
            assert candidates[i + 1] == rest[i];
          }
        }
      }
    }
  }

  // The candidates of an unfenced response, and of a wrapped one: the text as it stands, the text up to
  // the last fence, and the text up to the first fence if that is another.
  function WrappedTexts(info: string, body: string): seq<string> {
    var first := Find(body + FENCE, FENCE, 0);
    [Fenced(info, body), Strip(body)]
    + (if first.Some? && first.value < |body| then [Strip(body[..first.value])] else [])
  }

  lemma WrappedCandidates(before: string, info: string, body: string, after: string)
    returns (candidates: seq<string>)
    requires AllSpace(before) && AllSpace(after) && '\n' !in info
    ensures candidates == FenceCandidates(Wrap(before, info, body, after)) == WrappedTexts(info, body)
  {
    hide Strip, Find, FindLast;
    candidates := FenceCandidates(Wrap(before, info, body, after));
    StripWrapped(before, info, body, after);
    FencedParts(info, body);
    LastFence(body);
    FirstFence(body);
  }

  lemma FirstFence(body: string)
    ensures
      var first := Find(body + FENCE, FENCE, 0);
      && first.Some? && first.value <= |body|
      && (body + FENCE)[..first.value] == body[..first.value]
  {
    hide Find;
    assert OccursAt(body + FENCE, FENCE, |body|);
  }

  lemma OneRaisesIff(parse: Parser, text: string)
    ensures FirstObject(parse, [text]) == Raised <==> Overflows(parse(text))
  {
    assert [text][1..] == [];
    assert FirstObject(parse, []) == Nothing;
  }

  // A response that is no fence raises exactly when its own text overflows the parser.
  lemma PlainResponseRaisesIff(parse: Parser, content: string)
    requires !StartsWith(Strip(content), FENCE)
    ensures FirstObject(parse, FenceCandidates(content)) == Raised <==> Overflows(parse(Strip(content)))
  {
    hide Strip;
    OneRaisesIff(parse, Strip(content));
  }

  // A wrapped response raises exactly when one of its two or three texts overflows before any of them
  // is an object.
  lemma WrappedResponseRaisesIff(parse: Parser, before: string, info: string, body: string, after: string)
    requires AllSpace(before) && AllSpace(after) && '\n' !in info
    ensures
      var texts := WrappedTexts(info, body);
      FirstObject(parse, FenceCandidates(Wrap(before, info, body, after))) == Raised <==>
        || Overflows(parse(texts[0]))
        || (!IsObject(parse(texts[0])) && Overflows(parse(texts[1])))
        || (|texts| == 3 && !IsObject(parse(texts[0])) && !IsObject(parse(texts[1])) && Overflows(parse(texts[2])))
  {
    var texts := WrappedCandidates(before, info, body, after);
    FewRaiseIff(parse, texts);
  }

  lemma FewRaiseIff(parse: Parser, texts: seq<string>)
    requires 2 <= |texts| <= 3
    ensures FirstObject(parse, texts) == Raised <==>
              || Overflows(parse(texts[0]))
              || (!IsObject(parse(texts[0])) && Overflows(parse(texts[1])))
              || (|texts| == 3 && !IsObject(parse(texts[0])) && !IsObject(parse(texts[1])) && Overflows(parse(texts[2])))
  {
    var rest, last := texts[1..], texts[2..];
    assert rest[0] == texts[1] && rest[1..] == last;
    if |texts| == 3 {
      assert last[0] == texts[2] && last[1..] == [];
    }
    assert FirstObject(parse, last) == Raised <==> |texts| == 3 && Overflows(parse(texts[2]));
  }

  function Brackets(n: nat): (s: string)
    ensures |s| == n && forall i :: 0 <= i < n ==> s[i] == '['
  {
    seq(n, i => '[')
  }

  // Any parser whose recursion is limited gives up on enough opening brackets, whatever follows them.
  ghost predicate GivesUpBeyond(parse: Parser, limit: nat) {
    forall n: nat, rest :: n > limit ==> parse(Brackets(n) + rest).TooDeep?
  }

  lemma {:induction false} StripRightStops(s: string, n: nat)
    requires 0 < n <= |s| && !IsSpace(s[n - 1])
    ensures |StripRight(s)| >= n
  {
    if n < |s| && IsSpace(s[|s| - 1]) {
      StripRightStops(s[..|s| - 1], n);
    }
  }

  lemma StripBrackets(n: nat, rest: string) returns (kept: string)
    requires n > 0
    ensures Strip(Brackets(n) + rest) == Brackets(n) + kept
  {
    var s := Brackets(n) + rest;
    assert StripLeft(s) == s;
    StripRightStops(s, n);
    kept := StripRight(s)[n..];
    assert StripRight(s)[..n] == Brackets(n);
  }

  // The comment's promise fails for every such parser: a reply that opens more brackets than the limit
  // escapes, however it goes on.
  lemma DepthEscapes(parse: Parser, limit: nat, n: nat, rest: string)
    requires GivesUpBeyond(parse, limit) && n > limit
    ensures FirstObject(parse, FenceCandidates(Brackets(n) + rest)) == Raised
  {
    hide FenceCandidates, FirstObject, Strip;
    var kept := StripBrackets(n, rest);
    assert (Brackets(n) + kept)[0] == '[';
    assert FENCE[0] == '`';
    PlainResponseRaisesIff(parse, Brackets(n) + rest);
  }

  // A verdict wrapped in one fence is found whatever fences its feedback quotes, unless the wrapped
  // text as it stands already settles the answer.
  lemma WrappedVerdictIsFound(parse: Parser, before: string, info: string, body: string, after: string)
    requires AllSpace(before) && AllSpace(after) && '\n' !in info
    requires IsObject(parse(Strip(body))) && parse(Fenced(info, body)).Malformed?
    ensures FirstObject(parse, FenceCandidates(Wrap(before, info, body, after)))
         == Object(parse(Strip(body)).json.fields)
  {
    var candidates := WrappedCandidates(before, info, body, after);
    SecondIsObject(parse, candidates);
  }

  lemma SecondIsObject(parse: Parser, candidates: seq<string>)
    requires |candidates| >= 2 && parse(candidates[0]).Malformed? && IsObject(parse(candidates[1]))
    ensures FirstObject(parse, candidates) == Object(parse(candidates[1]).json.fields)
  {
    assert candidates[1..][0] == candidates[1];
  }
}
