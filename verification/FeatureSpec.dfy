// src/nodes/llm/feature_engineer.py: the feature_spec.json contract and the guard that keeps fitted
// operations inside each fold. Every rejection is the one ValueError.
module FeatureSpec {
  import opened CamelCase
  import opened Common
  import opened JsonValues
  import opened Phrases
  import opened Text
  import opened ExperimentDesign

  // --- reading an operation --------------------------------------------------------

  // _normalized_operation_variants
  function Variants(value: string): seq<string> {
    var split, joined := NormalizeOperation(value), CollapseSeparators(value);
    if split == joined then [split] else [split, joined]
  }

  predicate AnyHas(texts: seq<string>, keywords: seq<string>) {
    exists k :: 0 <= k < |texts| && HasAnyPhrase(texts[k], keywords)
  }

  // _matched_fit_scope_family, for any table of families: the first one matched.
  function MatchedFamily(families: Families, operation: string): Option<string> {
    FirstMatch(families, Variants(operation))
  }

  function FirstMatch(families: Families, texts: seq<string>): Option<string> {
    if families == [] then None
    else if AnyHas(texts, families[0].1) then Some(families[0].0)
    else FirstMatch(families[1..], texts)
  }

  lemma {:induction false} FirstMatchFinds(families: Families, texts: seq<string>)
    ensures FirstMatch(families, texts).Some? <==> exists f :: 0 <= f < |families| && AnyHas(texts, families[f].1)
  {
    if families != [] {
      FirstMatchFinds(families[1..], texts);
      assert forall f :: 1 <= f < |families| ==> families[f] == families[1..][f - 1];
      if f :| 1 <= f < |families| && AnyHas(texts, families[f].1) {
        assert AnyHas(texts, families[1..][f - 1].1);
      }
    }
  }

  // Splitting camelCase never loses a match the collapsed spelling had.
  lemma CollapsedMatchIsKept(families: Families, operation: string, f: nat)
    requires f < |families| && HasAnyPhrase(CollapseSeparators(operation), families[f].1)
    ensures MatchedFamily(families, operation).Some?
  {
    var texts := Variants(operation);
    assert texts[|texts| - 1] == CollapseSeparators(operation);
    assert AnyHas(texts, families[f].1);
    FirstMatchFinds(families, texts);
  }

  // And a match of the split spelling counts too.
  lemma SplitMatchCounts(families: Families, operation: string, f: nat)
    requires f < |families| && HasAnyPhrase(NormalizeOperation(operation), families[f].1)
    ensures MatchedFamily(families, operation).Some?
  {
    hide NormalizeOperation, CollapseSeparators, HasAnyPhrase;
    var texts := Variants(operation);
    assert texts[0] == NormalizeOperation(operation);
    assert AnyHas(texts, families[f].1);
    FirstMatchFinds(families, texts);
  }

  // Which operations count as fitted.
  type Guard = string -> bool

  function GuardOf(families: Families): Guard {
    operation => MatchedFamily(families, operation).Some?
  }

  // --- one entry -------------------------------------------------------------------

  datatype Feature = Feature(columns: seq<string>, operation: string, params: Dict, perFold: bool, rationale: string)

  predicate IsBlank(s: string) {
    Strip(s) == ""
  }

  predicate NoneBlank(columns: seq<string>) {
    forall i :: 0 <= i < |columns| ==> !IsBlank(columns[i])
  }

  predicate Distinct(columns: seq<string>) {
    forall i, j :: 0 <= i < j < |columns| ==> columns[i] != columns[j]
  }

  // _validate_columns
  function ValidateColumns(value: Value): Option<seq<string>> {
    if !value.List? || value.items == [] then None
    else
      match Strings(value.items)
      case None => None
      case Some(columns) => if NoneBlank(columns) && Distinct(columns) then Some(columns) else None
  }

  // _validate_text_field: the stripped text.
  function ValidateTextField(value: Value): Option<string> {
    if value.Str? && !IsBlank(value.s) then Some(Strip(value.s)) else None
  }

  predicate GoodParams(params: Dict) {
    forall k :: k in params ==> !IsBlank(k) && IsFlat(params[k])
  }

  // _validate_params
  method ValidateParams(value: Value) returns (r: Option<Dict>)
    ensures r == if value.Obj? && GoodParams(value.dict) then Some(value.dict) else None
  {
    if !value.Obj? {
      return None;
    }
    var data := value.dict;
    var validated: Dict := map[];
    var todo := data.Keys;
    while todo != {}
      invariant todo <= data.Keys
      invariant validated.Keys == data.Keys - todo
      invariant forall k :: k in validated ==> validated[k] == data[k] && !IsBlank(k) && IsFlat(data[k])
      decreases |todo|
    {
      var k :| k in todo;
      if IsBlank(k) || !IsFlat(data[k]) {
        return None;
      }
      validated := validated[k := data[k]];
      todo := todo - {k};
    }
    assert validated == data;
    return Some(validated);
  }

  function ScopeName(perFold: bool): string {
    if perFold then "per_fold" else "global"
  }

  // _validate_fit_scope: one of the two spellings, and per_fold for every matched operation. `fitted`
  // says that some family matched.
  function ValidateFitScope(fitted: bool, value: Value): Option<bool> {
    if value == Str(ScopeName(true)) then Some(true)
    else if value == Str(ScopeName(false)) && !fitted then Some(false)
    else None
  }

  // _validate_feature_entry
  function ValidateEntry(guard: Guard, item: Value): Option<Feature> {
    if !item.Obj? then None
    else
      var operation := ValidateTextField(Lookup(item.dict, "operation"));
      if operation.None? then None
      else
        Entry(ValidateColumns(Lookup(item.dict, "columns")), operation.value, Lookup(item.dict, "params"),
              ValidateFitScope(guard(operation.value), Lookup(item.dict, "fit_scope")),
              ValidateTextField(Lookup(item.dict, "rationale")))
  }

  function Entry(columns: Option<seq<string>>, operation: string, params: Value, scope: Option<bool>,
                 rationale: Option<string>): Option<Feature>
  {
    if columns.None? || !params.Obj? || !GoodParams(params.dict) || scope.None? || rationale.None? then None
    else Some(Feature(columns.value, operation, params.dict, scope.value, rationale.value))
  }

  predicate Padless(s: string) {
    s != "" && Trimmed(s)
  }

  // What coder may rely on in any entry it reads.
  predicate SoundFeature(guard: Guard, f: Feature) {
    && f.columns != [] && NoneBlank(f.columns) && Distinct(f.columns)
    && Padless(f.operation) && Padless(f.rationale) && GoodParams(f.params)
    && (guard(f.operation) ==> f.perFold)
  }

  // The rebuilt object: exactly the five _FEATURE_KEYS.
  function FeatureJson(f: Feature): Value {
    Obj(map[
      "columns" := StringList(f.columns),
      "operation" := Str(f.operation),
      "params" := Obj(f.params),
      "fit_scope" := Str(ScopeName(f.perFold)),
      "rationale" := Str(f.rationale)
    ])
  }

  lemma FeatureLookups(f: Feature)
    ensures FeatureJson(f).Obj?
    ensures var j := FeatureJson(f).dict;
      && Lookup(j, "columns") == StringList(f.columns)
      && Lookup(j, "operation") == Str(f.operation)
      && Lookup(j, "params") == Obj(f.params)
      && Lookup(j, "fit_scope") == Str(ScopeName(f.perFold))
      && Lookup(j, "rationale") == Str(f.rationale)
  {
  }

  lemma TextFieldIsPadless(value: Value)
    ensures ValidateTextField(value).Some? ==> Padless(ValidateTextField(value).value)
  {
    if value.Str? {
      StripTrimmed(value.s);
    }
  }

  lemma TextFieldIsFixpoint(s: string)
    ensures Padless(s) ==> ValidateTextField(Str(s)) == Some(s)
  {
    StripTrimmed(s);
  }

  lemma AcceptedEntryIsSound(guard: Guard, item: Value)
    ensures ValidateEntry(guard, item).Some? ==> SoundFeature(guard, ValidateEntry(guard, item).value)
  {
    hide Strip, Trimmed, ValidateTextField;
    if item.Obj? {
      TextFieldIsPadless(Lookup(item.dict, "operation"));
      TextFieldIsPadless(Lookup(item.dict, "rationale"));
    }
  }

  lemma EntryIsFixpoint(guard: Guard, f: Feature)
    requires SoundFeature(guard, f)
    ensures ValidateEntry(guard, FeatureJson(f)) == Some(f)
  {
    hide Strip, Trimmed, ValidateTextField, ValidateColumns, FeatureJson, Lookup;
    FeatureLookups(f);
    TextFieldIsFixpoint(f.operation);
    TextFieldIsFixpoint(f.rationale);
    ColumnsAreFixpoint(f.columns);
    ScopeIsFixpoint(guard(f.operation), f.perFold);
  }

  lemma ColumnsAreFixpoint(columns: seq<string>)
    requires columns != [] && NoneBlank(columns) && Distinct(columns)
    ensures ValidateColumns(StringList(columns)) == Some(columns)
  {
    StringsRoundTrip(columns);
  }

  lemma ScopeIsFixpoint(fitted: bool, perFold: bool)
    ensures ValidateFitScope(fitted, Str(ScopeName(perFold))) == if fitted && !perFold then None else Some(perFold)
  {
    assert |ScopeName(true)| != |ScopeName(false)|;
  }

  // What an entry must hold to be accepted, as it comes from the LLM.
  ghost predicate Acceptable(families: Families, item: Value) {
    item.Obj? &&
    var d := item.dict;
    && (exists columns :: Lookup(d, "columns") == StringList(columns) && ProperColumns(columns))
    && Lookup(d, "operation").Str? && Strip(Lookup(d, "operation").s) != ""
    && Lookup(d, "params").Obj?
    && (forall k :: k in Lookup(d, "params").dict ==> Strip(k) != "" && IsFlat(Lookup(d, "params").dict[k]))
    && Lookup(d, "rationale").Str? && Strip(Lookup(d, "rationale").s) != ""
    && (|| Lookup(d, "fit_scope") == Str("per_fold")
        || (Lookup(d, "fit_scope") == Str("global") && MatchedFamily(families, Strip(Lookup(d, "operation").s)).None?))
  }

  ghost predicate ProperColumns(columns: seq<string>) {
    && columns != []
    && (forall i :: 0 <= i < |columns| ==> Strip(columns[i]) != "")
    && forall i, j :: 0 <= i < j < |columns| ==> columns[i] != columns[j]
  }

  // An entry is accepted exactly then; texts lose their outer white space and everything else is kept. An
  // operation that no family matches may be global.
  lemma EntryAcceptedIff(families: Families, item: Value)
    ensures
      var f := ValidateEntry(GuardOf(families), item);
      && (f.Some? <==> Acceptable(families, item))
      && (f.Some? ==>
            && Lookup(item.dict, "columns") == StringList(f.value.columns)
            && f.value.operation == Strip(Lookup(item.dict, "operation").s)
            && Lookup(item.dict, "params") == Obj(f.value.params)
            && (f.value.perFold <==> Lookup(item.dict, "fit_scope") == Str("per_fold"))
            && f.value.rationale == Strip(Lookup(item.dict, "rationale").s))
  {
    hide Strip, MatchedFamily, Lookup, IsFlat, StringList, Strings;
    if item.Obj? {
      ColumnsAcceptedIff(Lookup(item.dict, "columns"));
      assert |ScopeName(true)| != |ScopeName(false)|;
    }
  }

  lemma ColumnsAcceptedIff(value: Value)
    ensures ValidateColumns(value).Some? <==> exists columns :: value == StringList(columns) && ProperColumns(columns)
    ensures ValidateColumns(value).Some? ==> value == StringList(ValidateColumns(value).value)
  {
    if ValidateColumns(value).Some? {
      var columns := ValidateColumns(value).value;
      assert value.items == StringList(columns).items;
      assert ProperColumns(columns);
    }
    if columns :| value == StringList(columns) && ProperColumns(columns) {
      ColumnsAreFixpoint(columns);
    }
  }

  // --- the list --------------------------------------------------------------------

  type Validator = Value -> Option<Feature>

  function EntryValidator(guard: Guard): Validator {
    item => ValidateEntry(guard, item)
  }

  function EntriesOf(validate: Validator, items: seq<Value>): (r: Option<seq<Feature>>)
    ensures r.Some? ==> |r.value| == |items|
    ensures r.Some? ==> forall i :: 0 <= i < |items| ==> validate(items[i]) == Some(r.value[i])
  {
    if items == [] then Some([])
    else
      var first, rest := validate(items[0]), EntriesOf(validate, items[1..]);
      if first.None? || rest.None? then None else Some([first.value] + rest.value)
  }

  function Key(f: Feature): (seq<string>, string) {
    (f.columns, f.operation)
  }

  predicate DistinctKeys(entries: seq<Feature>) {
    forall i, j :: 0 <= i < j < |entries| ==> Key(entries[i]) != Key(entries[j])
  }

  function Features(guard: Guard, value: Value): Option<seq<Feature>> {
    if !value.List? then None
    else
      match EntriesOf(EntryValidator(guard), value.items)
      case None => None
      case Some(entries) => if DistinctKeys(entries) then Some(entries) else None
  }

  // _validate_features: no operation is applied twice to the same columns.
  method ValidateFeatures(guard: Guard, value: Value) returns (r: Option<seq<Feature>>)
    ensures r == Features(guard, value)
  {
    if !value.List? {
      return None;
    }
    var entries := EntriesOf(EntryValidator(guard), value.items);
    if entries.None? {
      return None;
    }
    r := RejectRepeats(entries.value);
  }

  method RejectRepeats(entries: seq<Feature>) returns (r: Option<seq<Feature>>)
    ensures r == if DistinctKeys(entries) then Some(entries) else None
  {
    var firstSeen: map<(seq<string>, string), nat> := map[];
    for i := 0 to |entries|
      invariant DistinctKeys(entries[..i])
      invariant forall j :: 0 <= j < i ==> Key(entries[j]) in firstSeen
      invariant forall key :: key in firstSeen ==> firstSeen[key] < i && Key(entries[firstSeen[key]]) == key
    {
      var key := Key(entries[i]);
      if key in firstSeen {
        assert Key(entries[firstSeen[key]]) == Key(entries[i]);
        return None;
      }
      firstSeen := firstSeen[key := i];
    }
    assert entries[..|entries|] == entries;
    return Some(entries);
  }

  predicate AllSound(guard: Guard, entries: seq<Feature>) {
    forall i :: 0 <= i < |entries| ==> SoundFeature(guard, entries[i])
  }

  function FeaturesJson(entries: seq<Feature>): Value {
    List(seq(|entries|, i requires 0 <= i < |entries| => FeatureJson(entries[i])))
  }

  lemma AcceptedFeaturesAreSound(guard: Guard, value: Value)
    ensures Features(guard, value).Some? ==>
              AllSound(guard, Features(guard, value).value) && DistinctKeys(Features(guard, value).value)
  {
    if Features(guard, value).Some? {
      var entries := Features(guard, value).value;
      forall i | 0 <= i < |entries| ensures SoundFeature(guard, entries[i]) {
        AcceptedEntryIsSound(guard, value.items[i]);
      }
    }
  }

  lemma {:induction false} EntriesAre(validate: Validator, items: seq<Value>, entries: seq<Feature>)
    requires |items| == |entries|
    requires forall i :: 0 <= i < |items| ==> validate(items[i]) == Some(entries[i])
    ensures EntriesOf(validate, items) == Some(entries)
  {
    if items != [] {
      EntriesAre(validate, items[1..], entries[1..]);
      assert entries == [entries[0]] + entries[1..];
    }
  }

  // What is accepted is written back and accepted again, unchanged.
  lemma FeaturesAreFixpoint(guard: Guard, entries: seq<Feature>)
    requires AllSound(guard, entries) && DistinctKeys(entries)
    ensures Features(guard, FeaturesJson(entries)) == Some(entries)
  {
    var items := FeaturesJson(entries).items;
    forall i | 0 <= i < |entries| ensures EntryValidator(guard)(items[i]) == Some(entries[i]) {
      EntryIsFixpoint(guard, entries[i]);
    }
    EntriesAre(EntryValidator(guard), items, entries);
  }

  // The words an operation is read as: the ones between its separators, or those of a camel spelling,
  // without the boundaries that do not show.
  ghost predicate ReadAs(operation: string, words: seq<string>) {
    || words == Words(IsSeparator, Lower(operation))
    || exists camel :: AllCamelWords(camel) && operation == Camel(camel) && words == Merged(camel)
  }

  // In one of its readings the keyword's words stand consecutively.
  ghost predicate Spells(operation: string, keyword: seq<string>) {
    exists words :: ReadAs(operation, words) && AllWordChars(words) && Consecutive(words, keyword)
  }

  // An accepted entry whose operation spells out a family's keyword, in any case, with any separators
  // or as a class name, is fitted per fold.
  lemma FittedIsPerFold(families: Families, value: Value, f: nat, k: nat, keyword: seq<string>)
    requires f < |families| && k < |families[f].1| && families[f].1[k] == Join(keyword, " ")
    requires AllWordChars(keyword) && keyword != []
    ensures
      var accepted := Features(GuardOf(families), value);
      accepted.Some? ==>
        forall i :: 0 <= i < |accepted.value| && Spells(accepted.value[i].operation, keyword) ==> accepted.value[i].perFold
  {
    hide Features, Spells;
    var accepted := Features(GuardOf(families), value);
    if accepted.Some? {
      AcceptedFeaturesAreSound(GuardOf(families), value);
      forall i | 0 <= i < |accepted.value| && Spells(accepted.value[i].operation, keyword)
        ensures accepted.value[i].perFold
      {
        SpelledIsFitted(families, accepted.value[i], f, k, keyword);
      }
    }
  }

  lemma SpelledIsFitted(families: Families, entry: Feature, f: nat, k: nat, keyword: seq<string>)
    requires f < |families| && k < |families[f].1| && families[f].1[k] == Join(keyword, " ")
    requires AllWordChars(keyword) && keyword != []
    requires SoundFeature(GuardOf(families), entry) && Spells(entry.operation, keyword)
    ensures entry.perFold
  {
    KeywordIsMatched(families, entry.operation, f, k, keyword);
  }

  lemma KeywordIsMatched(families: Families, operation: string, f: nat, k: nat, keyword: seq<string>)
    requires f < |families| && k < |families[f].1| && families[f].1[k] == Join(keyword, " ")
    requires AllWordChars(keyword) && keyword != []
    requires Spells(operation, keyword)
    ensures MatchedFamily(families, operation).Some?
  {
    hide Words, Lower, Join, Merged, Camel, CollapseSeparators, NormalizeOperation, HasPhrase, MatchedFamily;
    var words :| ReadAs(operation, words) && AllWordChars(words) && Consecutive(words, keyword);
    PhraseIsConsecutiveWords(words, keyword);
    assert HasAnyPhrase(Join(words, " "), families[f].1);
    if words == Words(IsSeparator, Lower(operation)) {
      CollapseIsWords(operation);
      CollapsedMatchIsKept(families, operation, f);
    } else {
      var camel :| AllCamelWords(camel) && operation == Camel(camel) && words == Merged(camel);
      CamelIsSplit(camel);
      SplitMatchCounts(families, operation, f);
    }
  }

  lemma CamelCons(w: string, words: seq<string>)
    requires IsCamelWord(w) && AllCamelWords(words)
    ensures AllCamelWords([w] + words) && Camel([w] + words) == Capitalized(w) + Camel(words)
  {
    assert ([w] + words)[1..] == words;
  }

  lemma MergedCons(w: string, words: seq<string>)
    requires words != []
    ensures
      var rest := Merged(words);
      Merged([w] + words) == if Shows(w, words[0]) then [w] + rest else [w + rest[0]] + rest[1..]
  {
    assert ([w] + words)[1..] == words;
  }

  // Two words of which the first has more than a letter.
  lemma TwoWords(a: string, b: string)
    requires IsCamelWord(a) && IsCamelWord(b) && |a| > 1
    ensures NormalizeOperation(Capitalized(a) + Capitalized(b)) == a + " " + b
  {
    hide NormalizeOperation, Join, Camel, Merged, Capitalized;
    TwoCamel(a, b);
    CamelIsSplit([a] + [b]);
    TwoMerged(a, b);
    JoinCons(a, [b]);
    JoinCons(b, []);
    assert [b] + [] == [b];
  }

  lemma TwoCamel(a: string, b: string)
    requires IsCamelWord(a) && IsCamelWord(b)
    ensures AllCamelWords([a] + [b]) && Camel([a] + [b]) == Capitalized(a) + Capitalized(b)
  {
    CamelCons(a, [b]);
    CamelCons(b, []);
    assert [b] + [] == [b] && Camel([]) == "" && Capitalized(b) + "" == Capitalized(b);
  }

  lemma TwoMerged(a: string, b: string)
    ensures Merged([b]) == [b]
    ensures Shows(a, b) ==> Merged([a] + [b]) == [a] + [b]
  {
    MergedCons(a, [b]);
  }

  // A class name of the kind the keywords cannot reach unsplit.
  lemma TargetEncoderIsRead()
    ensures NormalizeOperation("TargetEncoder") == "target encoder"
  {
    hide NormalizeOperation;
    TwoWords("target", "encoder");
    assert Capitalized("target") == "Target" && Capitalized("encoder") == "Encoder";
    assert "Target" + "Encoder" == "TargetEncoder" && "target" + " " + "encoder" == "target encoder";
  }

  const KNN_IMPUTER := ["k"] + (["n"] + (["n"] + ["imputer"]))

  lemma KnnImputerCamel()
    ensures AllCamelWords(KNN_IMPUTER) && Camel(KNN_IMPUTER) == "KNNImputer"
  {
    hide Camel;
    TwoCamel("n", "imputer");
    CamelCons("n", ["n"] + ["imputer"]);
    CamelCons("k", ["n"] + (["n"] + ["imputer"]));
    assert Capitalized("k") == "K" && Capitalized("n") == "N" && Capitalized("imputer") == "Imputer";
    assert "N" + "Imputer" == "NImputer" && "N" + "NImputer" == "NNImputer" && "K" + "NNImputer" == "KNNImputer";
  }

  lemma KnnImputerMerged()
    ensures Merged(KNN_IMPUTER) == ["knn"] + ["imputer"]
  {
    hide Merged;
    TwoMerged("n", "imputer");
    MergedCons("n", ["n"] + ["imputer"]);
    assert "n" + "n" == "nn" && "k" + "nn" == "knn";
    assert (["n"] + ["imputer"])[1..] == ["imputer"] && (["nn"] + ["imputer"])[1..] == ["imputer"];
    assert Merged(["n"] + (["n"] + ["imputer"])) == ["nn"] + ["imputer"];
    MergedCons("k", ["n"] + (["n"] + ["imputer"]));
  }

  // An acronym stays one word.
  lemma KnnImputerIsRead()
    ensures NormalizeOperation("KNNImputer") == "knn imputer"
  {
    hide NormalizeOperation, Join, Camel, Merged;
    KnnImputerCamel();
    KnnImputerMerged();
    CamelIsSplit(KNN_IMPUTER);
    JoinCons("knn", ["imputer"]);
    JoinCons("imputer", []);
    assert ["imputer"] + [] == ["imputer"] && "knn" + " " + "imputer" == "knn imputer";
  }
}
