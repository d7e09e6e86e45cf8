// Free-text names and keywords: the separator-collapsing normalization and whole-phrase matching that
// src/nodes/llm/_experiment_design.py and src/nodes/llm/feature_engineer.py share. Letters are ASCII.
module Phrases {
  import opened Text

  // str.lower
  function Lower(s: string): (r: string)
    ensures |r| == |s|
  {
    seq(|s|, i requires 0 <= i < |s| => LowerChar(s[i]))
  }

  predicate IsDash(c: char) {
    c == '-' || c == '_'
  }

  predicate IsSeparator(c: char) {
    IsDash(c) || IsSpace(c)
  }

  // re.sub(r"[...]+", " ", s) for the character class `p`; `inRun` says that the run this text starts
  // in has been replaced already.
  function SubRuns(p: char -> bool, s: string, inRun: bool): string {
    if s == "" then ""
    else if p(s[0]) then (if inRun then "" else " ") + SubRuns(p, s[1..], true)
    else [s[0]] + SubRuns(p, s[1..], false)
  }

  // _collapse_separators
  function CollapseSeparators(value: string): string {
    Strip(SubRuns(IsSpace, SubRuns(IsDash, Lower(value), false), false))
  }

  // --- what collapsing computes ----------------------------------------------------

  // How many characters at the front are not separators.
  function WordLength(p: char -> bool, s: string): (n: nat)
    ensures n <= |s| && (forall i :: 0 <= i < n ==> !p(s[i])) && (n < |s| ==> p(s[n]))
  {
    if s == "" || p(s[0]) then 0 else 1 + WordLength(p, s[1..])
  }

  // The maximal stretches without a separator.
  function Words(p: char -> bool, s: string): seq<string>
    decreases |s|
  {
    if s == "" then []
    else if p(s[0]) then Words(p, s[1..])
    else [s[..WordLength(p, s)]] + Words(p, s[WordLength(p, s)..])
  }

  predicate IsWord(p: char -> bool, w: string) {
    w != "" && forall i :: 0 <= i < |w| ==> !p(w[i])
  }

  predicate AllWords(p: char -> bool, words: seq<string>) {
    forall k :: 0 <= k < |words| ==> IsWord(p, words[k])
  }

  lemma {:induction false} WordsAreWords(p: char -> bool, s: string)
    ensures AllWords(p, Words(p, s))
    decreases |s|
  {
    if s != "" {
      WordsAreWords(p, if p(s[0]) then s[1..] else s[WordLength(p, s)..]);
    }
  }

  lemma {:induction false} WordLengthIs(p: char -> bool, w: string, rest: string)
    requires forall i :: 0 <= i < |w| ==> !p(w[i])
    requires rest == "" || p(rest[0])
    ensures WordLength(p, w + rest) == |w|
  {
    if w != "" {
      assert (w + rest)[1..] == w[1..] + rest;
      WordLengthIs(p, w[1..], rest);
    } else {
      assert w + rest == rest;
    }
  }

  lemma WordsFront(p: char -> bool, w: string, rest: string)
    requires IsWord(p, w) && (rest == "" || p(rest[0]))
    ensures Words(p, w + rest) == [w] + Words(p, rest)
  {
    WordLengthIs(p, w, rest);
    assert (w + rest)[..|w|] == w && (w + rest)[|w|..] == rest;
  }

  lemma {:induction false} WordsSkip(p: char -> bool, pad: string, s: string)
    requires forall i :: 0 <= i < |pad| ==> p(pad[i])
    ensures Words(p, pad + s) == Words(p, s)
  {
    if pad == "" {
      assert pad + s == s;
    } else {
      assert (pad + s)[1..] == pad[1..] + s;
      WordsSkip(p, pad[1..], s);
    }
  }

  lemma {:induction false} SubRunsWord(p: char -> bool, w: string, rest: string, inRun: bool)
    requires IsWord(p, w)
    ensures SubRuns(p, w + rest, inRun) == w + SubRuns(p, rest, false)
  {
    assert (w + rest)[1..] == w[1..] + rest;
    assert w == [w[0]] + w[1..];
    if |w| > 1 {
      SubRunsWord(p, w[1..], rest, false);
    } else {
      assert w[1..] + rest == rest;
    }
  }

  // Turning dashes into spaces first changes no word.
  lemma {:induction false} DashesBecomeSpaces(s: string, inRun: bool)
    ensures Words(IsSpace, SubRuns(IsDash, s, inRun)) == Words(IsSeparator, s)
    decreases |s|
  {
    if s == "" {
    } else if IsDash(s[0]) {
      var rest := SubRuns(IsDash, s[1..], true);
      DashesBecomeSpaces(s[1..], true);
      WordsSkip(IsSpace, " ", rest);
      assert SubRuns(IsDash, s, inRun) == if inRun then rest else " " + rest;
    } else if IsSpace(s[0]) {
      DashesBecomeSpaces(s[1..], false);
      WordsSkip(IsSpace, [s[0]], SubRuns(IsDash, s[1..], false));
    } else {
      var n := WordLength(IsSeparator, s);
      var w, rest := s[..n], s[n..];
      assert s == w + rest;
      SubRunsWord(IsDash, w, rest, inRun);
      WordsFront(IsSpace, w, SubRuns(IsDash, rest, false));
      DashesBecomeSpaces(rest, false);
    }
  }

  // What squeezing leaves behind the last word.
  function Trail(s: string): string {
    if Words(IsSpace, s) != [] && IsSpace(s[|s| - 1]) then " " else ""
  }

  lemma JoinCons(w: string, words: seq<string>)
    ensures Join([w] + words, " ") == if words == [] then w else w + " " + Join(words, " ")
    ensures words == [] ==> Join(words, " ") == ""
  {
    assert ([w] + words)[1..] == words;
  }

  // A word and what follows it.
  lemma SqueezeWord(w: string, rest: string)
    requires IsWord(IsSpace, w) && (rest == "" || IsSpace(rest[0]))
    ensures SubRuns(IsSpace, w + rest, true) ==
              if rest == "" then w else w + " " + SubRuns(IsSpace, rest[1..], true)
    ensures Words(IsSpace, w + rest) == [w] + if rest == "" then [] else Words(IsSpace, rest[1..])
  {
    SubRunsWord(IsSpace, w, rest, true);
    WordsFront(IsSpace, w, rest);
  }

  // Past a space, squeezing leaves the words, one space apart.
  lemma {:induction false} SqueezedWords(s: string)
    ensures SubRuns(IsSpace, s, true) == Join(Words(IsSpace, s), " ") + Trail(s)
    decreases |s|
  {
    if s == "" {
    } else if IsSpace(s[0]) {
      SqueezedWords(s[1..]);
      assert |s| > 1 ==> s[|s| - 1] == s[1..][|s| - 2];
    } else {
      var n := WordLength(IsSpace, s);
      SqueezedFromWord(s, s[..n], s[n..]);
    }
  }

  lemma {:induction false} SqueezedFromWord(s: string, w: string, rest: string)
    requires s == w + rest && IsWord(IsSpace, w) && (rest == "" || IsSpace(rest[0]))
    ensures SubRuns(IsSpace, s, true) == Join(Words(IsSpace, s), " ") + Trail(s)
    decreases |s|, 0
  {
    hide SubRuns, Words, Join;
    SqueezeWord(w, rest);
    if rest == "" {
      JoinCons(w, []);
      assert s[|s| - 1] == w[|w| - 1];
    } else {
      var tail := rest[1..];
      SqueezedWords(tail);
      JoinCons(w, Words(IsSpace, tail));
      assert s[|s| - 1] == if tail == "" then rest[0] else tail[|tail| - 1];
      NothingFollows();
      var text := Join(Words(IsSpace, tail), " ");
      assert w + " " + (text + Trail(tail)) == w + " " + text + Trail(tail);
      if Words(IsSpace, tail) == [] {
        WordlessIsSpace(tail);
      }
    }
  }

  lemma NothingFollows()
    ensures Words(IsSpace, "") == []
  {
  }

  lemma {:induction false} WordlessIsSpace(s: string)
    requires Words(IsSpace, s) == []
    ensures AllSpace(s)
  {
    if s != "" {
      assert IsSpace(s[0]);
      WordlessIsSpace(s[1..]);
      assert s == [s[0]] + s[1..];
    }
  }

  lemma {:induction false} JoinTrimmed(words: seq<string>)
    requires AllWords(IsSpace, words)
    ensures Trimmed(Join(words, " ")) && (words != [] ==> Join(words, " ") != "")
  {
    if |words| > 1 {
      JoinTrimmed(words[1..]);
    }
  }

  // Squeezing any text.
  lemma SqueezedText(t: string) returns (lead: string, trail: string)
    ensures AllSpace(lead) && AllSpace(trail)
    ensures SubRuns(IsSpace, t, false) == lead + (Join(Words(IsSpace, t), " ") + trail)
  {
    SqueezedWords(t);
    trail := Trail(t);
    lead := if t != "" && IsSpace(t[0]) then " " else "";
    assert SubRuns(IsSpace, t, false) == lead + SubRuns(IsSpace, t, true);
  }

  // The lower-cased words, one space apart.
  function Spoken(value: string): string {
    Join(Words(IsSeparator, Lower(value)), " ")
  }

  // Two substitutions and a strip amount to just that.
  lemma CollapseIsWords(value: string)
    ensures CollapseSeparators(value) == Spoken(value)
  {
    var t := SubRuns(IsDash, Lower(value), false);
    DashesBecomeSpaces(Lower(value), false);
    var lead, trail := SqueezedText(t);
    WordsAreWords(IsSpace, t);
    JoinTrimmed(Words(IsSpace, t));
    StripPadded(lead, Join(Words(IsSpace, t), " "), trail);
  }

  // Words joined by any one separator are read off again.
  lemma {:induction false} WordsOfJoinBy(words: seq<string>, c: char)
    requires AllWords(IsSeparator, words) && IsSeparator(c)
    ensures Words(IsSeparator, Join(words, [c])) == words
  {
    if words == [] {
    } else if |words| == 1 {
      assert words[0] + "" == words[0];
      WordsFront(IsSeparator, words[0], "");
    } else {
      var w, rest := words[0], words[1..];
      WordsOfJoinBy(rest, c);
      assert Join(words, [c]) == w + ([c] + Join(rest, [c]));
      WordsFront(IsSeparator, w, [c] + Join(rest, [c]));
      WordsSkip(IsSeparator, [c], Join(rest, [c]));
      assert words == [w] + rest;
    }
  }

  lemma WordsOfJoin(words: seq<string>)
    requires AllWords(IsSeparator, words)
    ensures Words(IsSeparator, Join(words, " ")) == words
  {
    WordsOfJoinBy(words, ' ');
  }

  predicate IsLower(s: string) {
    forall i :: 0 <= i < |s| ==> LowerChar(s[i]) == s[i]
  }

  lemma {:induction false} WordsStayLower(s: string)
    requires IsLower(s)
    ensures IsLower(Join(Words(IsSeparator, s), " "))
    decreases |s|
  {
    if s == "" {
    } else if IsSeparator(s[0]) {
      WordsStayLower(s[1..]);
    } else {
      var n := WordLength(IsSeparator, s);
      WordsStayLower(s[n..]);
      JoinCons(s[..n], Words(IsSeparator, s[n..]));
    }
  }

  lemma LowerFixed(s: string)
    requires IsLower(s)
    ensures Lower(s) == s
  {
  }

  lemma SpokenWords(value: string)
    ensures Words(IsSeparator, Spoken(value)) == Words(IsSeparator, Lower(value))
    ensures Spoken(Spoken(value)) == Spoken(value)
  {
    WordsStayLower(Lower(value));
    LowerFixed(Spoken(value));
    WordsAreWords(IsSeparator, Lower(value));
    WordsOfJoin(Words(IsSeparator, Lower(value)));
  }

  lemma CollapseIsIdempotent(value: string)
    ensures CollapseSeparators(CollapseSeparators(value)) == CollapseSeparators(value)
  {
    CollapseIsWords(value);
    SpokenWords(value);
    CollapseIsWords(Spoken(value));
  }

  // Two spellings collapse alike exactly when they have the same words up to letter case.
  lemma SpellingsCollapseAlike(a: string, b: string)
    ensures CollapseSeparators(a) == CollapseSeparators(b)
       <==> Words(IsSeparator, Lower(a)) == Words(IsSeparator, Lower(b))
  {
    CollapseIsWords(a);
    CollapseIsWords(b);
    SpokenWords(a);
    SpokenWords(b);
  }

  // --- whole-phrase matching -------------------------------------------------------

  // The ASCII members of \w.
  predicate IsWordChar(c: char) {
    'a' <= c <= 'z' || 'A' <= c <= 'Z' || '0' <= c <= '9' || c == '_'
  }

  // \b between positions i - 1 and i.
  predicate Boundary(text: string, i: nat)
    requires i <= |text|
  {
    (i > 0 && IsWordChar(text[i - 1])) != (i < |text| && IsWordChar(text[i]))
  }

  predicate PhraseAt(text: string, phrase: string, i: int) {
    OccursAt(text, phrase, i) && Boundary(text, i) && Boundary(text, i + |phrase|)
  }

  // re.search of the phrase between two \b.
  predicate HasPhrase(text: string, phrase: string) {
    exists i :: 0 <= i <= |text| && PhraseAt(text, phrase, i)
  }

  predicate WordChars(w: string) {
    w != "" && forall i :: 0 <= i < |w| ==> IsWordChar(w[i])
  }

  predicate AllWordChars(words: seq<string>) {
    forall k :: 0 <= k < |words| ==> WordChars(words[k])
  }

  // `phrase` stands among `words`, next to each other and in order.
  predicate Consecutive(words: seq<string>, phrase: seq<string>) {
    exists k :: 0 <= k <= |words| && StandsAt(words, phrase, k)
  }

  predicate StandsAt(words: seq<string>, phrase: seq<string>, k: nat) {
    k + |phrase| <= |words| && words[k..k + |phrase|] == phrase
  }

  lemma JoinHead(words: seq<string>)
    requires words != []
    ensures words == [words[0]] + words[1..]
    ensures Join(words, " ") == if |words| == 1 then words[0] else words[0] + " " + Join(words[1..], " ")
  {
    JoinCons(words[0], words[1..]);
  }

  lemma JoinChars(words: seq<string>)
    requires words != []
    ensures var t, w := Join(words, " "), words[0];
      && |t| >= |w| && (forall i :: 0 <= i < |w| ==> t[i] == w[i])
      && (if |words| == 1 then |t| == |w| else |t| > |w| && t[|w|] == ' ')
  {
    JoinHead(words);
  }

  // The first word of a matching phrase is the first word of the text.
  lemma FirstWord(words: seq<string>, phrase: seq<string>)
    requires AllWordChars(words) && AllWordChars(phrase) && phrase != []
    requires PhraseAt(Join(words, " "), Join(phrase, " "), 0)
    ensures words != [] && words[0] == phrase[0] && (|phrase| > 1 ==> |words| > 1)
  {
    JoinChars(phrase);
    assert words != [];
    JoinChars(words);
    FirstWordOf(Join(words, " "), words[0], |words| > 1, Join(phrase, " "), phrase[0], |phrase| > 1);
  }

  predicate StartsWithWord(t: string, w: string, more: bool) {
    && |t| >= |w| && (forall i :: 0 <= i < |w| ==> t[i] == w[i])
    && (if more then |t| > |w| && t[|w|] == ' ' else |t| == |w|)
  }

  lemma FirstWordOf(text: string, w: string, moreWords: bool, sought: string, p: string, moreSought: bool)
    requires WordChars(w) && WordChars(p)
    requires StartsWithWord(text, w, moreWords) && StartsWithWord(sought, p, moreSought)
    requires PhraseAt(text, sought, 0)
    ensures w == p && (moreSought ==> moreWords)
  {
    assert forall i :: 0 <= i < |sought| ==> text[..|sought|][i] == text[i] == sought[i];
  }

  // A phrase at the front of the text is made of its first words.
  lemma {:induction false} PrefixIsWords(words: seq<string>, phrase: seq<string>)
    requires AllWordChars(words) && AllWordChars(phrase) && phrase != []
    requires PhraseAt(Join(words, " "), Join(phrase, " "), 0)
    ensures StandsAt(words, phrase, 0)
  {
    FirstWord(words, phrase);
    if |phrase| > 1 {
      JoinHead(words);
      JoinHead(phrase);
      JoinHead(phrase[1..]);
      var front := words[0] + " ";
      SameFront(front, Join(words[1..], " "), Join(phrase[1..], " "));
      PrefixIsWords(words[1..], phrase[1..]);
    }
  }

  // Behind a front that ends in a space, boundaries and occurrences are those of the text alone.
  lemma BoundaryShift(front: string, text: string, i: nat)
    requires front != "" && front[|front| - 1] == ' ' && i <= |text|
    ensures Boundary(front + text, |front| + i) <==> Boundary(text, i)
  {
    var whole := front + text;
    assert whole[|front| + i - 1] == if i > 0 then text[i - 1] else ' ';
    assert i < |text| ==> whole[|front| + i] == text[i];
  }

  lemma OccursShift(front: string, text: string, sought: string, i: nat)
    ensures OccursAt(front + text, sought, |front| + i) <==> OccursAt(text, sought, i)
  {
    if i + |sought| <= |text| {
      assert (front + text)[|front| + i..|front| + i + |sought|] == text[i..i + |sought|];
    }
  }

  // Dropping a common front that ends in a space keeps the match.
  lemma SameFront(front: string, text: string, sought: string)
    requires front != "" && front[|front| - 1] == ' '
    requires sought != "" && IsWordChar(sought[0])
    requires PhraseAt(front + text, front + sought, 0)
    ensures PhraseAt(text, sought, 0)
  {
    var whole := front + text;
    assert whole[..|front| + |sought|] == front + sought;
    assert whole[|front|..|front| + |sought|] == (front + sought)[|front|..] == sought;
    OccursShift(front, text, sought, 0);
    assert text[0] == text[..|sought|][0];
    BoundaryShift(front, text, |sought|);
  }

  lemma {:induction false} PhraseAtIsWords(words: seq<string>, phrase: seq<string>, i: nat)
    requires AllWordChars(words) && AllWordChars(phrase) && phrase != []
    requires i <= |Join(words, " ")| && PhraseAt(Join(words, " "), Join(phrase, " "), i)
    ensures Consecutive(words, phrase)
    decreases |words|
  {
    if i == 0 {
      PrefixIsWords(words, phrase);
    } else {
      LaterWord(words, phrase, i);
      PhraseAtIsWords(words[1..], phrase, i - |words[0]| - 1);
      var k :| 0 <= k <= |words[1..]| && StandsAt(words[1..], phrase, k);
      assert words[k + 1..k + 1 + |phrase|] == words[1..][k..k + |phrase|];
      assert StandsAt(words, phrase, k + 1);
    }
  }

  lemma PastFirstWord(words: seq<string>, phrase: seq<string>, i: nat)
    requires AllWordChars(words) && AllWordChars(phrase) && phrase != []
    requires 0 < i <= |Join(words, " ")| && PhraseAt(Join(words, " "), Join(phrase, " "), i)
    ensures |words| > 1 && i > |words[0]|
  {
    var text, sought := Join(words, " "), Join(phrase, " ");
    JoinChars(phrase);
    assert words != [];
    JoinChars(words);
    hide Join, PhraseAt;
    NotInWord(text, words[0], |words| > 1, sought, i);
    MatchFits(text, sought, i);
  }

  // A match that does not start the text starts after its first word.
  lemma LaterWord(words: seq<string>, phrase: seq<string>, i: nat)
    requires AllWordChars(words) && AllWordChars(phrase) && phrase != []
    requires 0 < i <= |Join(words, " ")| && PhraseAt(Join(words, " "), Join(phrase, " "), i)
    ensures |words| > 1 && i > |words[0]|
    ensures i - |words[0]| - 1 <= |Join(words[1..], " ")|
    ensures PhraseAt(Join(words[1..], " "), Join(phrase, " "), i - |words[0]| - 1)
  {
    hide Join, PhraseAt, AllWordChars;
    PastFirstWord(words, phrase, i);
    JoinHead(words);
    AfterFront(words[0] + " ", Join(words[1..], " "), Join(phrase, " "), i - |words[0]| - 1);
  }

  lemma MatchFits(text: string, sought: string, i: nat)
    requires PhraseAt(text, sought, i)
    ensures i + |sought| <= |text|
  {
  }

  lemma AfterFront(front: string, text: string, sought: string, at: nat)
    requires front != "" && front[|front| - 1] == ' '
    requires PhraseAt(front + text, sought, |front| + at)
    ensures at + |sought| <= |text| && PhraseAt(text, sought, at)
  {
    OccursShift(front, text, sought, at);
    BoundaryShift(front, text, at);
    BoundaryShift(front, text, at + |sought|);
  }

  lemma NotInWord(text: string, w: string, more: bool, sought: string, i: nat)
    requires WordChars(w) && StartsWithWord(text, w, more)
    requires sought != "" && IsWordChar(sought[0])
    requires 0 < i <= |text| && PhraseAt(text, sought, i)
    ensures i > |w|
  {
    assert text[i] == text[i..i + |sought|][0];
  }

  lemma {:induction false} JoinAppend(a: seq<string>, b: seq<string>)
    requires a != [] && b != []
    ensures Join(a + b, " ") == Join(a, " ") + " " + Join(b, " ")
  {
    JoinHead(a);
    JoinHead(a + b);
    assert (a + b)[1..] == a[1..] + b;
    if |a| > 1 {
      JoinAppend(a[1..], b);
    }
  }

  lemma JoinAround(before: seq<string>, phrase: seq<string>, after: seq<string>) returns (lead: string, trail: string)
    requires phrase != []
    ensures lead == "" || lead[|lead| - 1] == ' '
    ensures trail == "" || trail[0] == ' '
    ensures Join(before + (phrase + after), " ") == lead + (Join(phrase, " ") + trail)
  {
    if after == [] {
      trail := "";
      assert phrase + after == phrase;
    } else {
      trail := " " + Join(after, " ");
      JoinAppend(phrase, after);
    }
    if before == [] {
      lead := "";
      assert before + (phrase + after) == phrase + after;
    } else {
      lead := Join(before, " ") + " ";
      JoinAppend(before, phrase + after);
    }
  }

  // Consecutive words do match: each end of the phrase is a word's end.
  lemma WordsMatch(words: seq<string>, phrase: seq<string>, k: nat)
    requires AllWordChars(phrase) && phrase != [] && StandsAt(words, phrase, k)
    ensures HasPhrase(Join(words, " "), Join(phrase, " "))
  {
    var before, after := words[..k], words[k + |phrase|..];
    assert words == before + (phrase + after);
    var lead, trail := JoinAround(before, phrase, after);
    JoinEnds(phrase);
    MatchInside(lead, Join(phrase, " "), trail);
  }

  lemma {:induction false} JoinEnds(phrase: seq<string>)
    requires AllWordChars(phrase) && phrase != []
    ensures var t := Join(phrase, " "); t != "" && IsWordChar(t[0]) && IsWordChar(t[|t| - 1])
  {
    JoinHead(phrase);
    if |phrase| > 1 {
      JoinEnds(phrase[1..]);
    }
  }

  lemma MatchInside(lead: string, phrase: string, trail: string)
    requires phrase != "" && IsWordChar(phrase[0]) && IsWordChar(phrase[|phrase| - 1])
    requires lead == "" || !IsWordChar(lead[|lead| - 1])
    requires trail == "" || !IsWordChar(trail[0])
    ensures HasPhrase(lead + (phrase + trail), phrase)
  {
    var text := lead + (phrase + trail);
    assert text[|lead|..|lead| + |phrase|] == phrase;
    assert text[|lead| + |phrase| - 1] == phrase[|phrase| - 1];
    assert PhraseAt(text, phrase, |lead|);
  }

  // Over plain words, a whole-phrase match is the phrase's words standing consecutively in the text.
  lemma PhraseIsConsecutiveWords(words: seq<string>, phrase: seq<string>)
    requires AllWordChars(words) && AllWordChars(phrase) && phrase != []
    ensures HasPhrase(Join(words, " "), Join(phrase, " ")) <==> Consecutive(words, phrase)
  {
    if HasPhrase(Join(words, " "), Join(phrase, " ")) {
      var i :| 0 <= i <= |Join(words, " ")| && PhraseAt(Join(words, " "), Join(phrase, " "), i);
      PhraseAtIsWords(words, phrase, i);
    }
    if Consecutive(words, phrase) {
      var k :| 0 <= k <= |words| && StandsAt(words, phrase, k);
      WordsMatch(words, phrase, k);
    }
  }
}
