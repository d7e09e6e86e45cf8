// src/nodes/llm/feature_engineer.py: class names are split into words before they are matched.
module CamelCase {
  import opened Phrases
  import opened Text

  predicate IsUpper(c: char) {
    'A' <= c <= 'Z'
  }

  predicate IsSmall(c: char) {
    'a' <= c <= 'z'
  }

  // _CAMEL_WORD_BOUNDARY and _CAMEL_ACRONYM_BOUNDARY, both of no width.
  predicate WordCut(s: string, i: nat) {
    0 < i < |s| && (IsSmall(s[i - 1]) || IsDigit(s[i - 1])) && IsUpper(s[i])
  }

  predicate AcronymCut(s: string, i: nat) {
    0 < i < |s| - 1 && IsUpper(s[i - 1]) && IsUpper(s[i]) && IsSmall(s[i + 1])
  }

  // boundary.sub(" ", s) from position `from` on.
  function SpaceOut(cut: (string, nat) -> bool, s: string, from: nat): string
    requires from <= |s|
    decreases |s| - from
  {
    if from == |s| then ""
    else (if cut(s, from) then " " else "") + [s[from]] + SpaceOut(cut, s, from + 1)
  }

  // _normalize_operation
  function NormalizeOperation(value: string): string {
    CollapseSeparators(SpaceOut(AcronymCut, SpaceOut(WordCut, value, 0), 0))
  }

  // --- camel spellings -------------------------------------------------------------

  // A word of small letters and digits that starts with a letter.
  predicate IsCamelWord(w: string) {
    w != "" && IsSmall(w[0]) && forall i :: 0 <= i < |w| ==> IsSmall(w[i]) || IsDigit(w[i])
  }

  predicate AllCamelWords(words: seq<string>) {
    forall k :: 0 <= k < |words| ==> IsCamelWord(words[k])
  }

  function Capitalized(w: string): (r: string)
    requires IsCamelWord(w)
    ensures |r| == |w| && IsUpper(r[0]) && r[1..] == w[1..]
  {
    [(w[0] as int - 32) as char] + w[1..]
  }

  function Camel(words: seq<string>): string
    requires AllCamelWords(words)
  {
    if words == [] then "" else Capitalized(words[0]) + Camel(words[1..])
  }

  // Whether the boundary between two words shows: the first has more than its capital, or the second
  // goes on with a small letter.
  predicate GoesOn(w: string) {
    |w| > 1 && IsSmall(w[1])
  }

  predicate Shows(w: string, next: string) {
    |w| > 1 || GoesOn(next)
  }

  // The words with every boundary that does not show removed.
  function Merged(words: seq<string>): (r: seq<string>)
    ensures |r| <= |words| && (words != [] ==> r != [])
  {
    if |words| <= 1 then words
    else
      var rest := Merged(words[1..]);
      if Shows(words[0], words[1]) then [words[0]] + rest else [words[0] + rest[0]] + rest[1..]
  }

  // --- the two passes --------------------------------------------------------------

  // After the first pass: a space behind every word of more than one letter but the last.
  function Spaced(words: seq<string>): (r: string)
    requires AllCamelWords(words)
    ensures words != [] ==> |r| >= |words[0]| && r[..|words[0]|] == Capitalized(words[0])
    ensures |words| == 1 ==> |r| == |words[0]|
  {
    if words == [] then ""
    else if |words| == 1 then Capitalized(words[0])
    else Capitalized(words[0]) + ((if |words[0]| > 1 then " " else "") + Spaced(words[1..]))
  }

  // After the second: a space at every boundary that shows.
  function Split2(words: seq<string>): string
    requires AllCamelWords(words)
  {
    if words == [] then ""
    else if |words| == 1 then Capitalized(words[0])
    else Capitalized(words[0]) + ((if Shows(words[0], words[1]) then " " else "") + Split2(words[1..]))
  }

  lemma {:induction false} NoCuts(cut: (string, nat) -> bool, s: string, from: nat, upto: nat)
    requires from <= upto <= |s| && forall i: nat :: from <= i < upto ==> !cut(s, i)
    ensures SpaceOut(cut, s, from) == s[from..upto] + SpaceOut(cut, s, upto)
    decreases |s| - from
  {
    hide SpaceOut;
    if from < upto {
      SpaceOutStep(cut, s, from);
      NoCuts(cut, s, from + 1, upto);
      assert s[from..upto] == [s[from]] + s[from + 1..upto];
      Regroup("", [s[from]], s[from + 1..upto], SpaceOut(cut, s, upto));
    }
  }

  lemma InsideWord(pre: string, w: string, tail: string, i: nat)
    requires IsCamelWord(w) && |pre| < i < |pre| + |w|
    ensures (pre + (Capitalized(w) + tail))[i] == w[i - |pre|]
    ensures !WordCut(pre + (Capitalized(w) + tail), i) && !AcronymCut(pre + (Capitalized(w) + tail), i)
  {
    assert (pre + (Capitalized(w) + tail))[i] == Capitalized(w)[1..][i - |pre| - 1];
  }

  // A stretch without a cut inside: a cut before it or none, then the stretch.
  lemma ReadOff(cut: (string, nat) -> bool, s: string, from: nat, w: string)
    requires w != "" && from + |w| <= |s| && s[from..from + |w|] == w
    requires forall i: nat :: from < i < from + |w| ==> !cut(s, i)
    ensures SpaceOut(cut, s, from) == (if cut(s, from) then " " else "") + (w + SpaceOut(cut, s, from + |w|))
  {
    SpaceOutStep(cut, s, from);
    hide SpaceOut;
    NoCuts(cut, s, from + 1, from + |w|);
    var head, middle, rest := [s[from]], s[from + 1..from + |w|], SpaceOut(cut, s, from + |w|);
    assert head + middle == w;
    Regroup(if cut(s, from) then " " else "", head, middle, rest);
  }

  lemma SpaceOutStep(cut: (string, nat) -> bool, s: string, from: nat)
    requires from < |s|
    ensures SpaceOut(cut, s, from) == (if cut(s, from) then " " else "") + [s[from]] + SpaceOut(cut, s, from + 1)
  {
  }

  lemma Regroup(a: string, b: string, c: string, d: string)
    ensures a + b + (c + d) == a + ((b + c) + d)
  {
  }

  predicate EndsPlain(pre: string) {
    pre != "" && (IsSmall(pre[|pre| - 1]) || IsDigit(pre[|pre| - 1]))
  }

  lemma EndOfWord(pre: string, w: string)
    requires IsCamelWord(w)
    ensures EndsPlain(pre + Capitalized(w)) <==> |w| > 1
    ensures EndsUpper(pre + Capitalized(w)) <==> |w| == 1
  {
    var last := (pre + Capitalized(w))[|pre| + |w| - 1];
    assert |w| > 1 ==> last == Capitalized(w)[1..][|w| - 2];
  }

  // One word of the first pass.
  lemma FirstPassWord(pre: string, w: string, tail: string)
    requires IsCamelWord(w)
    ensures SpaceOut(WordCut, pre + (Capitalized(w) + tail), |pre|) ==
            (if EndsPlain(pre) then " " else "")
            + (Capitalized(w) + SpaceOut(WordCut, pre + Capitalized(w) + tail, |pre + Capitalized(w)|))
  {
    var s := pre + (Capitalized(w) + tail);
    forall i: nat | |pre| < i < |pre| + |w| ensures !WordCut(s, i) {
      InsideWord(pre, w, tail, i);
    }
    assert s[|pre|..|pre| + |w|] == Capitalized(w);
    assert s[|pre|] == Capitalized(w)[0];
    assert s == pre + Capitalized(w) + tail;
    hide SpaceOut, Capitalized;
    ReadOff(WordCut, s, |pre|, Capitalized(w));
  }

  lemma {:induction false} FirstPass(pre: string, words: seq<string>)
    requires AllCamelWords(words) && words != []
    ensures SpaceOut(WordCut, pre + Camel(words), |pre|) == (if EndsPlain(pre) then " " else "") + Spaced(words)
    decreases |words|
  {
    var w, rest := words[0], words[1..];
    FirstPassWord(pre, w, Camel(rest));
    EndOfWord(pre, w);
    if |words| == 1 {
      assert Camel(rest) == "";
      assert Capitalized(w) + "" == Capitalized(w);
    } else {
      hide SpaceOut, EndsPlain, Capitalized;
      FirstPass(pre + Capitalized(w), rest);
    }
  }

  predicate EndsUpper(pre: string) {
    pre != "" && IsUpper(pre[|pre| - 1])
  }

  // One word of the second pass.
  lemma SecondPassWord(pre: string, w: string, tail: string)
    requires IsCamelWord(w) && (|w| > 1 || tail == "" || IsUpper(tail[0]))
    ensures SpaceOut(AcronymCut, pre + (Capitalized(w) + tail), |pre|) ==
            (if EndsUpper(pre) && GoesOn(w) then " " else "")
            + (Capitalized(w) + SpaceOut(AcronymCut, pre + Capitalized(w) + tail, |pre + Capitalized(w)|))
  {
    var s := pre + (Capitalized(w) + tail);
    forall i: nat | |pre| < i < |pre| + |w| ensures !AcronymCut(s, i) {
      InsideWord(pre, w, tail, i);
    }
    CutBeforeWord(pre, w, tail);
    assert s[|pre|..|pre| + |w|] == Capitalized(w);
    assert s == pre + Capitalized(w) + tail;
    hide SpaceOut, Capitalized, AcronymCut;
    ReadOff(AcronymCut, s, |pre|, Capitalized(w));
  }

  // Whether the acronym boundary lies right before a word.
  lemma CutBeforeWord(pre: string, w: string, tail: string)
    requires IsCamelWord(w) && (|w| > 1 || tail == "" || IsUpper(tail[0]))
    ensures AcronymCut(pre + (Capitalized(w) + tail), |pre|) <==> EndsUpper(pre) && GoesOn(w)
  {
    var s := pre + (Capitalized(w) + tail);
    assert s[|pre|] == Capitalized(w)[0];
    if |w| > 1 {
      assert s[|pre| + 1] == Capitalized(w)[1..][0];
    } else if tail != "" {
      assert s[|pre| + 1] == tail[0];
    }
  }

  lemma {:induction false} SecondPass(pre: string, words: seq<string>)
    requires AllCamelWords(words) && words != []
    ensures SpaceOut(AcronymCut, pre + Spaced(words), |pre|) ==
            (if EndsUpper(pre) && GoesOn(words[0]) then " " else "") + Split2(words)
    decreases |words|
  {
    var w, rest, next := words[0], words[1..], pre + Capitalized(words[0]);
    SpacedStartsUpper(words);
    SecondPassWord(pre, w, SpacedTail(words));
    EndOfWord(pre, w);
    if |words| == 1 {
      assert Capitalized(w) + "" == Capitalized(w);
    } else if |w| > 1 {
      SpaceReadOff(next, Spaced(rest));
      assert !EndsUpper(next + " ");
      hide SpaceOut, Capitalized, EndsUpper;
      SecondPass(next + " ", rest);
      assert "" + Split2(rest) == Split2(rest);
    } else {
      assert "" + Spaced(rest) == Spaced(rest);
      hide SpaceOut, Capitalized, EndsUpper;
      SecondPass(next, rest);
    }
  }

  // What follows the first word after the first pass.
  function SpacedTail(words: seq<string>): (r: string)
    requires AllCamelWords(words) && words != []
    ensures Spaced(words) == Capitalized(words[0]) + r
  {
    if |words| == 1 then assert Capitalized(words[0]) + "" == Capitalized(words[0]); ""
    else (if |words[0]| > 1 then " " else "") + Spaced(words[1..])
  }

  lemma SpaceReadOff(pre: string, text: string)
    ensures SpaceOut(AcronymCut, pre + (" " + text), |pre|) == " " + SpaceOut(AcronymCut, pre + " " + text, |pre + " "|)
  {
    var s := pre + (" " + text);
    assert s == pre + " " + text && s[|pre|] == ' ';
  }

  lemma SpacedStartsUpper(words: seq<string>)
    requires AllCamelWords(words) && words != []
    ensures |words[0]| > 1 || SpacedTail(words) == "" || IsUpper(SpacedTail(words)[0])
  {
    if |words| > 1 {
      assert Spaced(words[1..])[0] == Spaced(words[1..])[..|words[1]|][0];
    }
  }

  // --- what splitting computes -----------------------------------------------------

  lemma LowerCapitalized(w: string)
    requires IsCamelWord(w)
    ensures Lower(Capitalized(w)) == w
  {
  }

  lemma LowerConcat(a: string, b: string)
    ensures Lower(a + b) == Lower(a) + Lower(b)
  {
  }

  lemma {:induction false} LowerSplit(words: seq<string>)
    requires AllCamelWords(words)
    ensures Lower(Split2(words)) == Join(Merged(words), " ")
  {
    if words == [] {
    } else if |words| == 1 {
      LowerCapitalized(words[0]);
      JoinCons(words[0], []);
    } else {
      hide Lower, Join, Capitalized;
      LowerSplit(words[1..]);
      LowerFirst(words[0], if Shows(words[0], words[1]) then " " else "", Split2(words[1..]));
      MergedJoin(words);
    }
  }

  lemma LowerFirst(w: string, sep: string, rest: string)
    requires IsCamelWord(w) && (sep == " " || sep == "")
    ensures Lower(Capitalized(w) + (sep + rest)) == w + (sep + Lower(rest))
  {
    LowerCapitalized(w);
    LowerConcat(Capitalized(w), sep + rest);
    LowerConcat(sep, rest);
    assert Lower(sep) == sep;
  }

  lemma MergedJoin(words: seq<string>)
    requires |words| > 1
    ensures Join(Merged(words), " ") ==
            words[0] + ((if Shows(words[0], words[1]) then " " else "") + Join(Merged(words[1..]), " "))
  {
    var rest := Merged(words[1..]);
    hide Join, Merged;
    if Shows(words[0], words[1]) {
      MergedStep(words);
      JoinCons(words[0], rest);
      assert words[0] + " " + Join(rest, " ") == words[0] + (" " + Join(rest, " "));
    } else {
      MergedStep(words);
      JoinGlued(words[0], rest);
    }
  }

  lemma MergedStep(words: seq<string>)
    requires |words| > 1
    ensures
      var rest := Merged(words[1..]);
      Merged(words) == if Shows(words[0], words[1]) then [words[0]] + rest else [words[0] + rest[0]] + rest[1..]
  {
  }

  lemma JoinGlued(w: string, rest: seq<string>)
    requires rest != []
    ensures Join([w + rest[0]] + rest[1..], " ") == w + ("" + Join(rest, " "))
  {
    hide Join;
    JoinHead(rest);
    JoinCons(w + rest[0], rest[1..]);
    if |rest| > 1 {
      Glue(w, rest[0], Join(rest[1..], " "));
    }
  }

  lemma Glue(w: string, first: string, more: string)
    ensures w + first + " " + more == w + ("" + (first + " " + more))
  {
    assert "" + (first + " " + more) == first + " " + more;
  }

  lemma {:induction false} MergedWords(words: seq<string>)
    requires AllCamelWords(words)
    ensures AllWords(IsSeparator, Merged(words)) && AllWordChars(Merged(words))
  {
    if |words| > 1 {
      MergedWords(words[1..]);
    }
  }

  lemma TwoPasses(words: seq<string>)
    requires AllCamelWords(words)
    ensures SpaceOut(AcronymCut, SpaceOut(WordCut, Camel(words), 0), 0) == Split2(words)
  {
    if words != [] {
      FirstPass("", words);
      SecondPass("", words);
      assert "" + Camel(words) == Camel(words) && "" + Spaced(words) == Spaced(words);
    }
  }

  // A camel spelling is normalized to its words, except that a boundary that does not show is none.
  lemma CamelIsSplit(words: seq<string>)
    requires AllCamelWords(words)
    ensures NormalizeOperation(Camel(words)) == Join(Merged(words), " ")
  {
    hide SpaceOut, CollapseSeparators, Lower, Words, Join, Merged, Split2, Camel;
    TwoPasses(words);
    CollapseIsWords(Split2(words));
    LowerSplit(words);
    MergedWords(words);
    WordsOfJoin(Merged(words));
  }

  // Every one-letter word but the last is followed by a word that goes on with a small letter.
  ghost predicate AllShow(words: seq<string>) {
    forall k :: 0 <= k < |words| - 1 && |words[k]| == 1 ==> GoesOn(words[k + 1])
  }

  lemma {:induction false} MergedIffHidden(words: seq<string>)
    requires AllCamelWords(words)
    ensures if AllShow(words) then Merged(words) == words else |Merged(words)| < |words|
  {
    if |words| > 1 {
      var rest := words[1..];
      MergedIffHidden(rest);
      assert forall k :: 1 <= k < |words| ==> words[k] == rest[k - 1];
      assert words == [words[0]] + rest;
      if AllShow(rest) && Shows(words[0], words[1]) {
        assert AllShow(words);
      } else if k :| 0 <= k < |rest| - 1 && |rest[k]| == 1 && !GoesOn(rest[k + 1]) {
        assert |words[k + 1]| == 1 && !GoesOn(words[k + 2]);
      } else {
        assert |words[0]| == 1 && !GoesOn(words[1]);
      }
    }
  }

  lemma CamelWordsAreWords(words: seq<string>)
    requires AllCamelWords(words)
    ensures AllWords(IsSeparator, words) && AllWordChars(words)
  {
  }

  // The spelling is split into just its words if and only if every boundary shows.
  lemma CamelIsSplitIff(words: seq<string>)
    requires AllCamelWords(words)
    ensures NormalizeOperation(Camel(words)) == Join(words, " ") <==> AllShow(words)
  {
    hide NormalizeOperation, Camel, Words, Join, Merged, AllShow;
    CamelIsSplit(words);
    MergedIffHidden(words);
    MergedWords(words);
    CamelWordsAreWords(words);
    WordsOfJoin(Merged(words));
    WordsOfJoin(words);
  }
}
