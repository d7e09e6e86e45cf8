// src/nodes/llm/_experiment_design.py: the design.json contract. An LLM's design is checked and
// rebuilt from a whitelist; every rejection is the one ValueError.
module ExperimentDesign {
  import opened Common
  import opened JsonValues
  import opened Phrases
  import opened Text

  const FORBIDDEN_CV_KEYS := {
    "cv", "cv_strategy", "folds", "fold_indices", "n_folds", "n_splits", "validation", "test_size", "shuffle"
  }

  // --- model family ----------------------------------------------------------------

  // Canonical names with their aliases.
  type Families = seq<(string, seq<string>)>

  predicate HasAnyPhrase(text: string, phrases: seq<string>) {
    exists k :: 0 <= k < |phrases| && HasPhrase(text, phrases[k])
  }

  function Matching(allowed: Families, text: string): seq<string> {
    if allowed == [] then []
    else (if HasAnyPhrase(text, allowed[0].1) then [allowed[0].0] else []) + Matching(allowed[1..], text)
  }

  // normalize_model_family
  function NormalizeFamily(value: Value, allowed: Families): Option<string> {
    if !value.Str? || Strip(value.s) == "" then None else FamilyIn(allowed, CollapseSeparators(value.s))
  }

  function FamilyIn(allowed: Families, text: string): Option<string> {
    var matched := Matching(allowed, text);
    if |matched| == 1 then Some(matched[0]) else None
  }

  // Entry i is the one entry whose aliases occur.
  predicate OnlyMatch(allowed: Families, text: string, i: int) {
    && 0 <= i < |allowed| && HasAnyPhrase(text, allowed[i].1)
    && forall j :: 0 <= j < |allowed| && j != i ==> !HasAnyPhrase(text, allowed[j].1)
  }

  lemma {:induction false} NoneMatching(allowed: Families, text: string)
    ensures Matching(allowed, text) == [] <==>
              forall j :: 0 <= j < |allowed| ==> !HasAnyPhrase(text, allowed[j].1)
  {
    if allowed != [] {
      NoneMatching(allowed[1..], text);
      assert forall j :: 1 <= j < |allowed| ==> allowed[j] == allowed[1..][j - 1];
    }
  }

  lemma {:induction false} SingleMatching(allowed: Families, text: string)
    ensures |Matching(allowed, text)| == 1 ==>
              exists i :: OnlyMatch(allowed, text, i) && Matching(allowed, text) == [allowed[i].0]
    ensures (exists i :: OnlyMatch(allowed, text, i)) ==> |Matching(allowed, text)| == 1
  {
    if allowed != [] {
      var rest := allowed[1..];
      assert forall j :: 1 <= j < |allowed| ==> allowed[j] == rest[j - 1];
      NoneMatching(rest, text);
      if HasAnyPhrase(text, allowed[0].1) {
        if Matching(rest, text) == [] {
          assert OnlyMatch(allowed, text, 0);
        }
      } else {
        SingleMatching(rest, text);
        if |Matching(rest, text)| == 1 {
          var i :| OnlyMatch(rest, text, i) && Matching(rest, text) == [rest[i].0];
          assert OnlyMatch(allowed, text, i + 1);
        }
        if i :| OnlyMatch(allowed, text, i) {
          assert OnlyMatch(rest, text, i - 1);
        }
      }
    }
  }

  lemma FamilyInIsOnlyMatch(allowed: Families, text: string, family: string)
    ensures FamilyIn(allowed, text) == Some(family) <==>
              exists i :: OnlyMatch(allowed, text, i) && allowed[i].0 == family
  {
    SingleMatching(allowed, text);
    if i :| OnlyMatch(allowed, text, i) {
      var j :| OnlyMatch(allowed, text, j) && Matching(allowed, text) == [allowed[j].0];
      assert i == j;
    }
  }

  // A family is accepted exactly when it is the only one named: ambiguity is never resolved.
  lemma FamilyIsUnambiguous(name: string, allowed: Families, family: string)
    requires Strip(name) != ""
    ensures NormalizeFamily(Str(name), allowed) == Some(family) <==>
              exists i :: OnlyMatch(allowed, CollapseSeparators(name), i) && allowed[i].0 == family
  {
    FamilyInIsOnlyMatch(allowed, CollapseSeparators(name), family);
  }

  // --- search space ----------------------------------------------------------------

  datatype Kind = IntKind | FloatKind

  datatype ParamSpec =
    | Categorical(choices: seq<Value>)
    | Numeric(kind: Kind, low: Value, high: Value, log: Option<bool>, step: Option<Value>)

  // _STEP_RANGE_TOLERANCE
  const STEP_SLACK: real := 1.000000001

  // _validate_numeric: a finite number of the kind, an int only where doubles are exact.
  predicate IsBound(kind: Kind, v: Value) {
    match v
    case Int(i) => -MAX_EXACT <= i <= MAX_EXACT
    case Float(x) => kind.FloatKind? && x.Some?
    case _ => false
  }

  function Num(v: Value): real {
    match v
    case Int(i) => i as real
    case Float(Some(x)) => x
    case _ => 0.0
  }

  predicate StepFits(kind: Kind, low: Value, high: Value, step: Value) {
    IsBound(kind, step) && 0.0 < Num(step) <= (Num(high) - Num(low)) * STEP_SLACK
  }

  // _validate_numeric_param with _validate_log
  function ValidateNumeric(kind: Kind, spec: Dict): Option<ParamSpec> {
    if "low" !in spec || "high" !in spec then None
    else
      var low, high := spec["low"], spec["high"];
      if !IsBound(kind, low) || !IsBound(kind, high) || Num(low) >= Num(high) then None
      else if "log" in spec && !spec["log"].Bool? then None
      else if "log" in spec && spec["log"].b && (Num(low) <= 0.0 || "step" in spec) then None
      else if "step" in spec && !StepFits(kind, low, high, spec["step"]) then None
      else
        Some(Numeric(kind, low, high,
                     if "log" in spec then Some(spec["log"].b) else None,
                     if "step" in spec then Some(spec["step"]) else None))
  }

  ghost predicate DistinctChoices(choices: seq<Value>) {
    forall i, j :: 0 <= i < j < |choices| ==> EqualityKey(choices[i]) != EqualityKey(choices[j])
  }

  ghost predicate GoodChoices(choices: seq<Value>) {
    choices != [] && (forall i :: 0 <= i < |choices| ==> IsScalar(choices[i])) && DistinctChoices(choices)
  }

  ghost function Choices(value: Value): Option<seq<Value>> {
    if value.List? && GoodChoices(value.items) then Some(value.items) else None
  }

  // _validate_choices: no two accepted choices compare equal.
  method ValidateChoices(value: Value) returns (r: Option<seq<Value>>)
    ensures r == Choices(value)
  {
    if !value.List? || value.items == [] {
      return None;
    }
    var items := value.items;
    var seen: set<Value> := {};
    for i := 0 to |items|
      invariant forall j :: 0 <= j < i ==> IsScalar(items[j])
      invariant DistinctChoices(items[..i])
      invariant forall key :: key in seen <==> exists j :: 0 <= j < i && EqualityKey(items[j]) == key
    {
      if !IsScalar(items[i]) {
        return None;
      }
      if EqualityKey(items[i]) in seen {
        return None;
      }
      seen := seen + {EqualityKey(items[i])};
    }
    assert items[..|items|] == items;
    return Some(items);
  }

  // _validate_param_spec
  ghost function ValidateSpec(spec: Value): Option<ParamSpec> {
    if !spec.Obj? then None
    else
      var kind := Lookup(spec.dict, "type");
      if kind == Str("categorical") then
        match Choices(Lookup(spec.dict, "choices"))
        case None => None
        case Some(choices) => Some(Categorical(choices))
      else if kind == Str("int") then ValidateNumeric(IntKind, spec.dict)
      else if kind == Str("float") then ValidateNumeric(FloatKind, spec.dict)
      else None
  }

  // What a usable entry is, whatever object it came from.
  ghost predicate Sound(p: ParamSpec) {
    match p
    case Categorical(choices) => GoodChoices(choices)
    case Numeric(kind, low, high, log, step) =>
      && IsBound(kind, low) && IsBound(kind, high) && Num(low) < Num(high)
      && (log == Some(true) ==> Num(low) > 0.0 && step.None?)
      && (step.Some? ==> StepFits(kind, low, high, step.value))
  }

  function KindName(kind: Kind): string {
    if kind.IntKind? then "int" else "float"
  }

  function NumericJson(p: ParamSpec): Dict
    requires p.Numeric?
  {
    map["type" := Str(KindName(p.kind)), "low" := p.low, "high" := p.high]
    + (if p.log.Some? then map["log" := Bool(p.log.value)] else map[])
    + (if p.step.Some? then map["step" := p.step.value] else map[])
  }

  // The rebuilt object.
  function SpecJson(p: ParamSpec): Value {
    if p.Categorical? then Obj(map["type" := Str("categorical"), "choices" := List(p.choices)])
    else Obj(NumericJson(p))
  }

  lemma NumericRebuilt(p: ParamSpec)
    requires p.Numeric?
    ensures ValidateNumeric(p.kind, NumericJson(p)) == if Sound(p) then Some(p) else None
  {
    var d := NumericJson(p);
    assert d["low"] == p.low && d["high"] == p.high;
    assert "log" in d <==> p.log.Some?;
    assert "step" in d <==> p.step.Some?;
  }

  lemma AcceptedSpecIsSound(spec: Value)
    ensures ValidateSpec(spec).Some? ==> Sound(ValidateSpec(spec).value)
  {
  }

  // The validator's outputs are exactly the sound entries, and it leaves every one of them alone.
  lemma SpecIsFixpoint(p: ParamSpec)
    ensures ValidateSpec(SpecJson(p)) == if Sound(p) then Some(p) else None
  {
    if p.Numeric? {
      NumericRebuilt(p);
      assert NumericJson(p)["type"] == Str(KindName(p.kind));
    }
  }

  // The object holds this entry under the keys of its kind; other keys are ignored.
  predicate ReadsAs(spec: Value, p: ParamSpec) {
    spec.Obj? &&
    match p
    case Categorical(choices) =>
      Lookup(spec.dict, "type") == Str("categorical") && Lookup(spec.dict, "choices") == List(choices)
    case Numeric(kind, low, high, log, step) =>
      && Lookup(spec.dict, "type") == Str(if kind.IntKind? then "int" else "float")
      && "low" in spec.dict && spec.dict["low"] == low && "high" in spec.dict && spec.dict["high"] == high
      && (if "log" in spec.dict then log.Some? && spec.dict["log"] == Bool(log.value) else log.None?)
      && step == if "step" in spec.dict then Some(spec.dict["step"]) else None
  }

  lemma KindNamesDiffer()
    ensures Str("categorical") != Str("int") && Str("categorical") != Str("float") && Str("int") != Str("float")
  {
    assert |"categorical"| == 11 && |"int"| == 3 && |"float"| == 5;
  }

  // An entry is accepted exactly when it reads as a sound one.
  lemma SpecAcceptedIff(spec: Value, p: ParamSpec)
    ensures ValidateSpec(spec) == Some(p) <==> ReadsAs(spec, p) && Sound(p)
  {
    KindNamesDiffer();
  }

  // The bounds in figures: integers up to 2 to the 53rd, whatever finite doubles otherwise; a step is
  // positive and no longer than the range, up to one part in a thousand million.
  lemma SoundNumbers(low: int, high: int, log: Option<bool>, step: Option<int>)
    ensures
      var steps := if step.Some? then Some(Int(step.value)) else None;
      Sound(Numeric(IntKind, Int(low), Int(high), log, steps)) <==>
        && -9007199254740992 <= low < high <= 9007199254740992
        && (log == Some(true) ==> low > 0 && step.None?)
        && (step.Some? ==>
              0 < step.value <= 9007199254740992
              && 1000000000 * step.value <= 1000000001 * (high - low))
  {
    if step.Some? {
      var range, s := high - low, step.value;
      assert (s as real) <= (range as real) * 1.000000001 <==> 1000000000.0 * (s as real) <= 1000000001.0 * (range as real);
      assert 1000000000.0 * (s as real) == (1000000000 * s) as real && 1000000001.0 * (range as real) == (1000000001 * range) as real;
      assert (low as real) < (high as real) <==> low < high;
      assert (high as real) - (low as real) == range as real;
    }
  }

  lemma SoundReals(low: real, high: real, log: Option<bool>, step: Option<real>)
    ensures
      var steps := if step.Some? then Some(Float(Some(step.value))) else None;
      Sound(Numeric(FloatKind, Float(Some(low)), Float(Some(high)), log, steps)) <==>
        && low < high && (log == Some(true) ==> low > 0.0 && step.None?)
        && (step.Some? ==> 0.0 < step.value <= (high - low) * 1.000000001)
    ensures !Sound(Numeric(IntKind, Float(Some(low)), Float(Some(high)), log, None))
    ensures !Sound(Numeric(FloatKind, Float(None), Float(Some(high)), log, None))
    ensures !Sound(Numeric(FloatKind, Float(Some(low)), Float(None), log, None))
  {
  }

  // --- names and tokens ------------------------------------------------------------

  predicate IsLetter(c: char) {
    'a' <= c <= 'z' || 'A' <= c <= 'Z'
  }

  // _PARAM_NAME_RE
  predicate IsParamName(name: string) {
    && 1 <= |name| <= 64 && (IsLetter(name[0]) || name[0] == '_')
    && forall i :: 0 < i < |name| ==> IsLetter(name[i]) || IsDigit(name[i]) || name[i] == '_'
  }

  // _PREPROCESSING_STEP_RE
  predicate IsStepToken(name: string) {
    && 1 <= |name| <= 64 && 'a' <= name[0] <= 'z'
    && forall i :: 0 < i < |name| ==> 'a' <= name[i] <= 'z' || IsDigit(name[i]) || name[i] == '_'
  }

  const LETTERS := "abcdefghijklmnopqrstuvwxyz"
  const CAPITALS := "ABCDEFGHIJKLMNOPQRSTUVWXYZ"
  const DIGITS := "0123456789"

  lemma CharactersAre(c: char)
    ensures c in LETTERS <==> 'a' <= c <= 'z'
    ensures c in CAPITALS <==> 'A' <= c <= 'Z'
    ensures c in DIGITS <==> '0' <= c <= '9'
  {
  }

  // A usable name, character by character: a letter or an underscore, then up to 63 more of these or
  // digits.
  lemma ParamNameGrows(name: string, c: char)
    ensures !IsParamName("")
    ensures IsParamName(name + [c]) <==>
              if name == "" then c in LETTERS || c in CAPITALS || c == '_'
              else IsParamName(name) && |name| < 64 && (c in LETTERS || c in CAPITALS || c in DIGITS || c == '_')
  {
    CharactersAre(c);
    hide LETTERS, CAPITALS, DIGITS;
    var s := name + [c];
    assert s[|name|] == c && forall i :: 0 <= i < |name| ==> s[i] == name[i];
  }

  lemma StepTokenGrows(name: string, c: char)
    ensures !IsStepToken("")
    ensures IsStepToken(name + [c]) <==>
              if name == "" then c in LETTERS
              else IsStepToken(name) && |name| < 64 && (c in LETTERS || c in DIGITS || c == '_')
  {
    CharactersAre(c);
    hide LETTERS, CAPITALS, DIGITS;
    var s := name + [c];
    assert s[|name|] == c && forall i :: 0 <= i < |name| ==> s[i] == name[i];
  }

  type SearchSpace = map<string, ParamSpec>

  // _validate_search_space
  ghost function ValidateSearchSpace(value: Value): Option<SearchSpace> {
    if !value.Obj? || value.dict == map[] then None
    else if exists k :: k in value.dict && (!IsParamName(k) || ValidateSpec(value.dict[k]).None?) then None
    else Some(map k | k in value.dict :: ValidateSpec(value.dict[k]).value)
  }

  ghost function FixedParams(value: Value): Option<Dict> {
    if value.Obj? && forall k :: k in value.dict ==> IsParamName(k) && IsFlat(value.dict[k])
    then Some(value.dict) else None
  }

  // _validate_fixed_params
  method ValidateFixedParams(value: Value) returns (r: Option<Dict>)
    ensures r == FixedParams(value)
  {
    if !value.Obj? {
      return None;
    }
    var data := value.dict;
    var validated: Dict := map[];
    var todo := data.Keys;
    while todo != {}
      invariant todo <= data.Keys
      invariant validated.Keys == data.Keys - todo
      invariant forall k :: k in validated ==> validated[k] == data[k] && IsParamName(k) && IsFlat(data[k])
      decreases |todo|
    {
      var k :| k in todo;
      if !IsParamName(k) || !IsFlat(data[k]) {
        return None;
      }
      validated := validated[k := data[k]];
      todo := todo - {k};
    }
    assert validated == data;
    return Some(validated);
  }

  function Strings(items: seq<Value>): (r: Option<seq<string>>)
    ensures r.Some? ==> |r.value| == |items| && forall i :: 0 <= i < |items| ==> items[i] == Str(r.value[i])
  {
    if items == [] then Some([])
    else
      match (items[0], Strings(items[1..]))
      case (Str(s), Some(rest)) => Some([s] + rest)
      case _ => None
  }

  function StringList(items: seq<string>): Value {
    List(seq(|items|, i requires 0 <= i < |items| => Str(items[i])))
  }

  lemma {:induction false} StringsRoundTrip(items: seq<string>)
    ensures Strings(StringList(items).items) == Some(items)
  {
    if items != [] {
      var values := StringList(items).items;
      StringsRoundTrip(items[1..]);
      assert values[1..] == StringList(items[1..]).items;
      assert values[0] == Str(items[0]);
      assert items == [items[0]] + items[1..];
    }
  }

  predicate AllSteps(steps: seq<string>) {
    forall i :: 0 <= i < |steps| ==> IsStepToken(steps[i])
  }

  // _validate_preprocessing
  function ValidatePreprocessing(value: Value): Option<seq<string>> {
    if !value.List? then None
    else
      match Strings(value.items)
      case None => None
      case Some(steps) => if AllSteps(steps) then Some(steps) else None
  }

  // --- the design ------------------------------------------------------------------

  datatype Design = Design(
    specialist: string,
    modelFamily: string,
    searchSpace: SearchSpace,
    fixedParams: Dict,
    preprocessing: seq<string>,
    rationale: string,
    featureSpecRef: string)

  // _reject_forbidden_cv_keys
  predicate NamesCv(value: Value) {
    value.Obj? && exists k :: k in value.dict && k in FORBIDDEN_CV_KEYS
  }

  predicate RedefinesCv(data: Dict) {
    NamesCv(Obj(data)) || NamesCv(Lookup(data, "search_space")) || NamesCv(Lookup(data, "fixed_params"))
  }

  // validate_experiment_design
  ghost function ValidateDesign(data: Dict, specialist: string, allowed: Families, ref: string): Option<Design> {
    if RedefinesCv(data) then None
    else Assemble(NormalizeFamily(Lookup(data, "model_family"), allowed),
                  ValidateSearchSpace(Lookup(data, "search_space")),
                  FixedParams(Lookup(data, "fixed_params")),
                  ValidatePreprocessing(Lookup(data, "preprocessing")),
                  ValidateRationale(Lookup(data, "rationale")), specialist, ref)
  }

  // _validate_rationale
  function ValidateRationale(value: Value): Option<string> {
    if value.Str? && Strip(value.s) != "" then Some(value.s) else None
  }

  // Every part valid and no name both tuned and fixed.
  function Assemble(family: Option<string>, space: Option<SearchSpace>, fixed: Option<Dict>, steps: Option<seq<string>>,
                    rationale: Option<string>, specialist: string, ref: string): Option<Design>
  {
    if family.None? || space.None? || fixed.None? || steps.None? || rationale.None? then None
    else if space.value.Keys !! fixed.value.Keys
    then Some(Design(specialist, family.value, space.value, fixed.value, steps.value, rationale.value, ref))
    else None
  }

  // What coder may rely on in any design it reads.
  ghost predicate SoundDesign(d: Design) {
    && d.searchSpace != map[]
    && (forall k :: k in d.searchSpace ==> IsParamName(k) && k !in FORBIDDEN_CV_KEYS && Sound(d.searchSpace[k]))
    && (forall k :: k in d.fixedParams ==> IsParamName(k) && k !in FORBIDDEN_CV_KEYS && IsFlat(d.fixedParams[k]))
    && d.searchSpace.Keys !! d.fixedParams.Keys
    && AllSteps(d.preprocessing)
    && Strip(d.rationale) != ""
  }

  lemma AcceptedSpaceIsSound(value: Value)
    ensures ValidateSearchSpace(value).Some? ==>
              var space := ValidateSearchSpace(value).value;
              && value.Obj? && space.Keys == value.dict.Keys && space != map[]
              && forall k :: k in space ==> IsParamName(k) && Sound(space[k])
  {
    if ValidateSearchSpace(value).Some? {
      forall k | k in value.dict ensures Sound(ValidateSpec(value.dict[k]).value) {
        AcceptedSpecIsSound(value.dict[k]);
      }
      assert ValidateSearchSpace(value).value.Keys == value.dict.Keys;
    }
  }

  // An accepted design tunes something within proper ranges, fixes nothing it tunes, and names no
  // cross-validation setting; an object naming one at the three checked places is rejected.
  lemma AcceptedDesignIsSound(data: Dict, specialist: string, allowed: Families, ref: string)
    ensures RedefinesCv(data) ==> ValidateDesign(data, specialist, allowed, ref).None?
    ensures ValidateDesign(data, specialist, allowed, ref).Some? ==>
              SoundDesign(ValidateDesign(data, specialist, allowed, ref).value)
  {
    AcceptedSpaceIsSound(Lookup(data, "search_space"));
  }

  // A search space is accepted exactly as the map of its accepted entries, under usable names.
  lemma SpaceAcceptedIff(value: Value, space: SearchSpace)
    ensures ValidateSearchSpace(value) == Some(space) <==>
              && value.Obj? && space != map[] && space.Keys == value.dict.Keys
              && forall k :: k in space ==> IsParamName(k) && ValidateSpec(value.dict[k]) == Some(space[k])
  {
    if value.Obj? {
      var validated := ValidateSearchSpace(value);
      if validated.Some? {
        assert validated.value.Keys == value.dict.Keys;
      }
      if space.Keys == value.dict.Keys && space != map[]
         && forall k :: k in space ==> IsParamName(k) && ValidateSpec(value.dict[k]) == Some(space[k])
      {
        assert value.dict != map[];
        assert (map k | k in value.dict :: ValidateSpec(value.dict[k]).value) == space;
      }
    }
  }

  // No key of the object is one of cross-validation's.
  predicate FreeOfCv(value: Value) {
    value.Obj? ==>
      forall k :: k in value.dict ==>
        k !in {"cv", "cv_strategy", "folds", "fold_indices", "n_folds", "n_splits", "validation", "test_size", "shuffle"}
  }

  // A design is accepted exactly when the object names no cross-validation key at the three places, each
  // part is accepted by itself, and nothing is both tuned and fixed; it holds just those parts.
  lemma DesignAcceptedIff(data: Dict, specialist: string, allowed: Families, ref: string, d: Design)
    ensures ValidateDesign(data, specialist, allowed, ref) == Some(d) <==>
              && FreeOfCv(Obj(data)) && FreeOfCv(Lookup(data, "search_space")) && FreeOfCv(Lookup(data, "fixed_params"))
              && NormalizeFamily(Lookup(data, "model_family"), allowed) == Some(d.modelFamily)
              && ValidateSearchSpace(Lookup(data, "search_space")) == Some(d.searchSpace)
              && Lookup(data, "fixed_params") == Obj(d.fixedParams)
              && (forall k :: k in d.fixedParams ==> IsParamName(k) && IsFlat(d.fixedParams[k]) && k !in d.searchSpace)
              && Lookup(data, "preprocessing") == StringList(d.preprocessing)
              && (forall i :: 0 <= i < |d.preprocessing| ==> IsStepToken(d.preprocessing[i]))
              && Lookup(data, "rationale") == Str(d.rationale) && Strip(d.rationale) != ""
              && d.specialist == specialist && d.featureSpecRef == ref
  {
    FreeOfCvIff(Obj(data));
    FreeOfCvIff(Lookup(data, "search_space"));
    FreeOfCvIff(Lookup(data, "fixed_params"));
    StepsAcceptedIff(Lookup(data, "preprocessing"), d.preprocessing);
    hide FreeOfCv, NamesCv, NormalizeFamily, ValidateSearchSpace, IsParamName, IsStepToken, IsFlat, Strip, StringList,
      ValidatePreprocessing, Lookup;
  }

  lemma FreeOfCvIff(value: Value)
    ensures FreeOfCv(value) <==> !NamesCv(value)
  {
  }

  lemma StepsAcceptedIff(value: Value, steps: seq<string>)
    ensures ValidatePreprocessing(value) == Some(steps) <==>
              value == StringList(steps) && forall i :: 0 <= i < |steps| ==> IsStepToken(steps[i])
  {
    hide IsStepToken;
    if ValidatePreprocessing(value) == Some(steps) {
      assert value.items == StringList(steps).items;
    }
    StringsRoundTrip(steps);
  }

  function SpaceJson(space: SearchSpace): Value {
    Obj(map k | k in space :: SpecJson(space[k]))
  }

  const CV_STRATEGY_REF := "validation/fold_config.json"

  // The rebuilt object: exactly the eight DESIGN_KEYS.
  function DesignJson(d: Design): Dict {
    map[
      "specialist" := Str(d.specialist),
      "model_family" := Str(d.modelFamily),
      "search_space" := SpaceJson(d.searchSpace),
      "fixed_params" := Obj(d.fixedParams),
      "preprocessing" := StringList(d.preprocessing),
      "rationale" := Str(d.rationale),
      "feature_spec_ref" := Str(d.featureSpecRef),
      "cv_strategy_ref" := Str(CV_STRATEGY_REF)
    ]
  }

  lemma SpaceIsFixpoint(space: SearchSpace)
    requires space != map[] && forall k :: k in space ==> IsParamName(k) && Sound(space[k])
    ensures ValidateSearchSpace(SpaceJson(space)) == Some(space)
  {
    var value := SpaceJson(space);
    forall k | k in space ensures ValidateSpec(value.dict[k]) == Some(space[k]) {
      SpecIsFixpoint(space[k]);
    }
    assert value.dict.Keys == space.Keys;
    assert (map k | k in value.dict :: ValidateSpec(value.dict[k]).value) == space;
  }

  lemma DesignLookups(d: Design)
    ensures var j := DesignJson(d);
      && Lookup(j, "model_family") == Str(d.modelFamily)
      && Lookup(j, "search_space") == SpaceJson(d.searchSpace)
      && Lookup(j, "fixed_params") == Obj(d.fixedParams)
      && Lookup(j, "preprocessing") == StringList(d.preprocessing)
      && Lookup(j, "rationale") == Str(d.rationale)
  {
  }

  const DESIGN_KEYS := {
    "specialist", "model_family", "search_space", "fixed_params", "preprocessing", "rationale", "feature_spec_ref",
    "cv_strategy_ref"
  }

  lemma DesignKeysAreNoCvKeys(k: string)
    requires k in DESIGN_KEYS
    ensures k !in FORBIDDEN_CV_KEYS
  {
  }

  lemma DesignNamesNoCv(d: Design)
    requires SoundDesign(d)
    ensures !RedefinesCv(DesignJson(d))
  {
    DesignLookups(d);
    assert DesignJson(d).Keys == DESIGN_KEYS;
    forall k | k in DesignJson(d) ensures k !in FORBIDDEN_CV_KEYS {
      DesignKeysAreNoCvKeys(k);
    }
  }

  lemma PartsAreFixpoints(d: Design)
    requires SoundDesign(d)
    ensures ValidateSearchSpace(SpaceJson(d.searchSpace)) == Some(d.searchSpace)
    ensures FixedParams(Obj(d.fixedParams)) == Some(d.fixedParams)
    ensures ValidatePreprocessing(StringList(d.preprocessing)) == Some(d.preprocessing)
    ensures ValidateRationale(Str(d.rationale)) == Some(d.rationale)
  {
    SpaceIsFixpoint(d.searchSpace);
    StringsRoundTrip(d.preprocessing);
  }

  lemma AssembleIs(d: Design, family: Option<string>)
    requires d.searchSpace.Keys !! d.fixedParams.Keys
    ensures Assemble(family, Some(d.searchSpace), Some(d.fixedParams), Some(d.preprocessing), Some(d.rationale),
                     d.specialist, d.featureSpecRef) == Some(d)
       <==> family == Some(d.modelFamily)
  {
  }

  // A sound design survives a second validation unchanged exactly when its family name, spelled as
  // written to disk, is recognized as itself.
  lemma DesignIsFixpoint(d: Design, allowed: Families)
    requires SoundDesign(d)
    ensures ValidateDesign(DesignJson(d), d.specialist, allowed, d.featureSpecRef) == Some(d)
       <==> NormalizeFamily(Str(d.modelFamily), allowed) == Some(d.modelFamily)
  {
    DesignNamesNoCv(d);
    DesignLookups(d);
    PartsAreFixpoints(d);
    AssembleIs(d, NormalizeFamily(Str(d.modelFamily), allowed));
  }
}
