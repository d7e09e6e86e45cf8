// What makes a table of model families give every family name it writes to disk back.
module FamilyTables {
  import opened Common
  import opened ExperimentDesign
  import opened JsonValues
  import opened Phrases
  import opened Text

  // A family's canonical name and its aliases, word by word: the source writes the name with
  // underscores and the aliases with spaces.
  datatype Family = Family(key: seq<string>, aliases: seq<seq<string>>)

  type WordTable = seq<Family>

  function Spaced(phrases: seq<seq<string>>): seq<string> {
    seq(|phrases|, k requires 0 <= k < |phrases| => Join(phrases[k], " "))
  }

  function Named(table: WordTable): Families {
    seq(|table|, i requires 0 <= i < |table| => (Join(table[i].key, "_"), Spaced(table[i].aliases)))
  }

  predicate IsPlainWord(w: string) {
    w != "" && forall c :: c in w ==> 'a' <= c <= 'z'
  }

  predicate IsPhrase(words: seq<string>) {
    words != [] && forall w :: w in words ==> IsPlainWord(w)
  }

  // The name holds one of the family's own aliases and no alias of another family.
  ghost predicate NamesItself(table: WordTable, i: nat)
    requires i < |table|
  {
    && (exists k :: 0 <= k < |table[i].aliases| && Consecutive(table[i].key, table[i].aliases[k]))
    && forall j, k :: 0 <= j < |table| && j != i && 0 <= k < |table[j].aliases| ==>
         !Consecutive(table[i].key, table[j].aliases[k])
  }

  predicate PlainFamily(f: Family) {
    IsPhrase(f.key) && forall a :: a in f.aliases ==> IsPhrase(a)
  }

  ghost predicate SelfNaming(table: WordTable) {
    forall i :: 0 <= i < |table| ==> PlainFamily(table[i]) && NamesItself(table, i)
  }

  // --- a self-naming table gives its names back ------------------------------------

  lemma PlainLetters(w: string, i: nat)
    requires IsPlainWord(w) && i < |w|
    ensures 'a' <= w[i] <= 'z'
  {
    assert w[i] in w;
  }

  lemma PhraseWords(words: seq<string>)
    requires IsPhrase(words)
    ensures AllWords(IsSeparator, words) && AllWordChars(words)
  {
    forall k, i | 0 <= k < |words| && 0 <= i < |words[k]| ensures 'a' <= words[k][i] <= 'z' {
      PlainLetters(words[k], i);
    }
    assert forall k :: 0 <= k < |words| ==> IsPlainWord(words[k]);
  }

  lemma {:induction false} PhraseIsLower(words: seq<string>)
    requires IsPhrase(words)
    ensures IsLower(Join(words, "_")) && Join(words, "_") != "" && !IsSpace(Join(words, "_")[0])
  {
    var w := words[0];
    assert w in words;
    forall i | 0 <= i < |w| ensures 'a' <= w[i] <= 'z' {
      PlainLetters(w, i);
    }
    if |words| > 1 {
      assert forall v :: v in words[1..] ==> v in words;
      PhraseIsLower(words[1..]);
    }
  }

  // A name collapses to its words.
  lemma NameCollapses(words: seq<string>)
    requires IsPhrase(words)
    ensures CollapseSeparators(Join(words, "_")) == Join(words, " ")
    ensures Strip(Join(words, "_")) != ""
  {
    PhraseWords(words);
    PhraseIsLower(words);
    CollapseIsWords(Join(words, "_"));
    LowerFixed(Join(words, "_"));
    WordsOfJoinBy(words, '_');
    NotBlank(Join(words, "_"));
  }

  lemma NotBlank(s: string)
    requires s != "" && !IsSpace(s[0])
    ensures Strip(s) != ""
  {
    assert StripLeft(s) == s;
    FirstStays(s);
  }

  lemma {:induction false} FirstStays(s: string)
    requires s != "" && !IsSpace(s[0])
    ensures StripRight(s) != ""
  {
    if |s| > 1 && IsSpace(s[|s| - 1]) {
      FirstStays(s[..|s| - 1]);
    }
  }

  // Alias by alias, matching the name is standing among its words.
  lemma MatchIsConsecutive(words: seq<string>, aliases: seq<seq<string>>)
    requires IsPhrase(words) && forall k :: 0 <= k < |aliases| ==> IsPhrase(aliases[k])
    ensures HasAnyPhrase(Join(words, " "), Spaced(aliases)) <==>
              exists k :: 0 <= k < |aliases| && Consecutive(words, aliases[k])
  {
    forall k | 0 <= k < |aliases|
      ensures HasPhrase(Join(words, " "), Spaced(aliases)[k]) <==> Consecutive(words, aliases[k])
    {
      PhraseWords(words);
      PhraseWords(aliases[k]);
      PhraseIsConsecutiveWords(words, aliases[k]);
    }
  }

  lemma AliasesMatchIff(table: WordTable, i: nat, j: nat)
    requires SelfNaming(table) && i < |table| && j < |table|
    ensures HasAnyPhrase(Join(table[i].key, " "), Spaced(table[j].aliases)) <==> j == i
  {
    MatchIsConsecutive(table[i].key, table[j].aliases);
    assert NamesItself(table, i);
    hide HasAnyPhrase, Consecutive, Join, Spaced;
  }

  lemma NameIsOnlyMatch(table: WordTable, i: nat)
    requires SelfNaming(table) && i < |table|
    ensures OnlyMatch(Named(table), Join(table[i].key, " "), i)
  {
    forall j | 0 <= j < |table|
      ensures HasAnyPhrase(Join(table[i].key, " "), Named(table)[j].1) <==> j == i
    {
      AliasesMatchIff(table, i, j);
    }
  }

  // Every canonical name is recognized as itself.
  lemma NameIsItsOwn(table: WordTable, i: nat)
    requires SelfNaming(table) && i < |table|
    ensures NormalizeFamily(Str(Named(table)[i].0), Named(table)) == Some(Named(table)[i].0)
  {
    NameIsOnlyMatch(table, i);
    hide SelfNaming, CollapseSeparators, OnlyMatch, NormalizeFamily, Strip, Join;
    assert IsPhrase(table[i].key) by {
      KeyIsPhrase(table, i);
    }
    NameCollapses(table[i].key);
    FamilyIsUnambiguous(Named(table)[i].0, Named(table), Named(table)[i].0);
  }

  lemma KeyIsPhrase(table: WordTable, i: nat)
    requires SelfNaming(table) && i < |table|
    ensures IsPhrase(table[i].key)
  {
  }

  // Under a self-naming table the validator is a fixpoint on its own output: whatever design it accepts,
  // it accepts again as written, unchanged.
  lemma AcceptedDesignIsFixpoint(data: Dict, specialist: string, table: WordTable, ref: string)
    requires SelfNaming(table)
    ensures
      var d := ValidateDesign(data, specialist, Named(table), ref);
      d.Some? ==> ValidateDesign(DesignJson(d.value), specialist, Named(table), ref) == d
  {
    hide SelfNaming, DesignJson, NormalizeFamily, SoundDesign;
    var d := ValidateDesign(data, specialist, Named(table), ref);
    if d.Some? {
      AcceptedDesignIsSound(data, specialist, Named(table), ref);
      var i := FamilyAccepted(Lookup(data, "model_family"), table, d.value.modelFamily);
      NameIsItsOwn(table, i);
      DesignIsFixpoint(d.value, Named(table));
    }
  }

  lemma FamilyAccepted(value: Value, table: WordTable, family: string) returns (i: nat)
    requires NormalizeFamily(value, Named(table)) == Some(family)
    ensures i < |table| && family == Named(table)[i].0
  {
    hide CollapseSeparators, HasAnyPhrase;
    FamilyInIsOnlyMatch(Named(table), CollapseSeparators(value.s), family);
    var at :| OnlyMatch(Named(table), CollapseSeparators(value.s), at) && Named(table)[at].0 == family;
    i := at;
  }

  // --- telling words apart ---------------------------------------------------------

  // Enough to tell two words apart: their lengths, first or last letters differ.
  predicate Unlike(a: string, b: string) {
    |a| != |b| || (a != "" && b != "" && (a[0] != b[0] || a[|a| - 1] != b[|b| - 1]))
  }

  predicate Stranger(w: string, words: seq<string>) {
    forall v :: v in words ==> Unlike(w, v)
  }

  // The alias has a word at one of its ends that is not among the given ones.
  predicate Foreign(alias: seq<string>, words: seq<string>) {
    alias != [] && (Stranger(alias[0], words) || Stranger(alias[|alias| - 1], words))
  }

  lemma ForeignStandsNowhere(alias: seq<string>, words: seq<string>, key: seq<string>, p: nat)
    requires Foreign(alias, words) && forall w :: w in key ==> w in words
    ensures !StandsAt(key, alias, p)
  {
    if p + |alias| <= |key| {
      assert key[p..p + |alias|][0] == key[p];
      assert key[p..p + |alias|][|alias| - 1] == key[p + |alias| - 1];
      assert key[p] in words && key[p + |alias| - 1] in words;
    }
  }

  predicate AllForeign(aliases: seq<seq<string>>, words: seq<string>) {
    forall a :: a in aliases ==> Foreign(a, words)
  }

  predicate AllPhrases(aliases: seq<seq<string>>) {
    forall a :: a in aliases ==> IsPhrase(a)
  }

  predicate Covers(names: seq<seq<string>>, i: nat, words: seq<string>) {
    forall j, w :: 0 <= j < |names| && j != i && w in names[j] ==> w in words
  }

  // A table whose names are its families' first aliases, and whose aliases are plain and foreign to the words
  // of every other family's name.
  ghost predicate Apart(table: WordTable, names: seq<seq<string>>, others: seq<seq<string>>) {
    && |table| == |names| == |others|
    && forall i :: 0 <= i < |table| ==>
         && table[i].key == names[i]
         && table[i].aliases != [] && table[i].aliases[0] == names[i]
         && AllPhrases(table[i].aliases)
         && Covers(names, i, others[i]) && AllForeign(table[i].aliases, others[i])
  }

  lemma OwnNamesItself(table: WordTable, names: seq<seq<string>>, others: seq<seq<string>>, i: nat)
    requires Apart(table, names, others) && i < |table|
    ensures NamesItself(table, i)
  {
    hide Foreign, IsPhrase;
    var key := names[i];
    assert key[0..0 + |key|] == key;
    assert StandsAt(key, table[i].aliases[0], 0);
    forall j, k | 0 <= j < |table| && j != i && 0 <= k < |table[j].aliases|
      ensures !Consecutive(key, table[j].aliases[k])
    {
      var alias := table[j].aliases[k];
      assert alias in table[j].aliases && Covers(names, j, others[j]);
      if Consecutive(key, alias) {
        var p: nat :| StandsAt(key, alias, p);
        ForeignStandsNowhere(alias, others[j], key, p);
      }
    }
  }

  lemma SelfNamingByWords(table: WordTable, names: seq<seq<string>>, others: seq<seq<string>>)
    requires Apart(table, names, others)
    ensures SelfNaming(table)
  {
    hide IsPhrase, Foreign, Covers;
    forall i | 0 <= i < |table| ensures NamesItself(table, i) && PlainFamily(table[i]) {
      OwnNamesItself(table, names, others, i);
      assert table[i].aliases[0] in table[i].aliases;
    }
    hide NamesItself;
  }
}
