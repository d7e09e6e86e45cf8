// src/nodes/llm/_delivery_common.py: workspace files are quoted into a prompt under one shared
// character budget, each inside a fence its own text cannot close.
module DeliveryRender {
  import opened Common
  import opened Text

  const MISSING_FILE := "(not present in " + "the workspace)"
  const BUDGET_EXHAUSTED := "(omitted: the " + "20000-character " + ("injection budget " + "was already used)")

  // --- fences ----------------------------------------------------------------------

  function Ticks(n: nat): (s: string)
    ensures |s| == n && forall i :: 0 <= i < n ==> s[i] == '`'
  {
    seq(n, _ => '`')
  }

  // The backticks s ends with.
  function TrailingRun(s: string): (n: nat)
    ensures n <= |s| && forall i :: |s| - n <= i < |s| ==> s[i] == '`'
    ensures n < |s| ==> s[|s| - n - 1] != '`'
  {
    if s == "" || s[|s| - 1] != '`' then 0 else 1 + TrailingRun(s[..|s| - 1])
  }

  function LongestRun(s: string): nat {
    if s == "" then 0
    else
      var n, m := LongestRun(s[..|s| - 1]), TrailingRun(s);
      if n < m then m else n
  }

  function FenceLength(s: string): nat {
    if LongestRun(s) < 3 then 3 else LongestRun(s) + 1
  }

  // fence_for, and code_critic's _code_fence.
  method FenceFor(content: string) returns (fence: string)
    ensures fence == Ticks(FenceLength(content))
  {
    var longest, current := 0, 0;
    for i := 0 to |content|
      invariant current == TrailingRun(content[..i]) && longest == LongestRun(content[..i])
    {
      assert content[..i + 1][..i] == content[..i];
      if content[i] == '`' {
        current := current + 1;
        longest := if longest < current then current else longest;
      } else {
        current := 0;
      }
    }
    assert content[..|content|] == content;
    fence := Ticks(if 3 < longest + 1 then longest + 1 else 3);
  }

  // No run in s is longer than LongestRun(s), and one is as long.
  lemma {:induction false} LongestRunIsLongest(s: string, n: nat, i: nat)
    requires OccursAt(s, Ticks(n), i)
    ensures n <= LongestRun(s)
  {
    if n == 0 {
      return;
    }
    var front := s[..|s| - 1];
    if i + n < |s| {
      assert front[i..i + n] == s[i..i + n];
      LongestRunIsLongest(front, n, i);
    } else {
      assert forall k :: 0 <= k < n ==> s[i + k] == Ticks(n)[k];
      TrailingTicks(s, n);
    }
  }

  lemma {:induction false} TrailingTicks(s: string, n: nat)
    requires n <= |s| && forall k :: |s| - n <= k < |s| ==> s[k] == '`'
    ensures n <= TrailingRun(s)
  {
    if n > 0 {
      TrailingTicks(s[..|s| - 1], n - 1);
    }
  }

  lemma {:induction false} LongestRunOccurs(s: string) returns (i: nat)
    ensures OccursAt(s, Ticks(LongestRun(s)), i)
  {
    if s == "" {
      i := 0;
    } else {
      var front := s[..|s| - 1];
      if LongestRun(s) == LongestRun(front) {
        i := LongestRunOccurs(front);
        assert s[i..i + LongestRun(s)] == front[i..i + LongestRun(s)];
      } else {
        i := |s| - TrailingRun(s);
      }
    }
  }

  // The fence is the shortest one of at least three backticks that the content does not hold.
  lemma FenceIsTight(s: string) returns (at: nat)
    ensures FenceLength(s) >= 3
    ensures forall i :: !OccursAt(s, Ticks(FenceLength(s)), i)
    ensures FenceLength(s) > 3 ==> OccursAt(s, Ticks(FenceLength(s) - 1), at)
  {
    forall i ensures !OccursAt(s, Ticks(FenceLength(s)), i) {
      if OccursAt(s, Ticks(FenceLength(s)), i) {
        LongestRunIsLongest(s, FenceLength(s), i);
      }
    }
    at := LongestRunOccurs(s);
  }

  // --- the budget ------------------------------------------------------------------

  datatype Section = Section(path: string, text: string)

  function Marker(name: string, limit: nat): string {
    "... (truncated at " + Decimal(limit) + " characters of " + name + ")"
  }

  function Truncate(text: string, name: string, limit: int): string {
    if limit <= 0 then Marker(name, 0)
    else if |text| <= limit then text
    else text[..limit] + ("\n\n" + Marker(name, limit))
  }

  // The readable files by path.
  type Files = map<string, string>

  function Length(files: Files, path: string): nat {
    if path in files then |files[path]| else 0
  }

  // Characters readable in the first n candidates.
  function Total(files: Files, candidates: seq<string>, n: nat): nat
    requires n <= |candidates|
  {
    if n == 0 then 0 else Total(files, candidates, n - 1) + Length(files, candidates[n - 1])
  }

  // What is left of the budget when candidate n is reached.
  function Left(files: Files, candidates: seq<string>, budget: int, n: nat): int
    requires n <= |candidates|
  {
    if budget <= 0 then budget
    else if Total(files, candidates, n) >= budget then 0
    else budget - Total(files, candidates, n)
  }

  predicate IsRead(files: Files, candidates: seq<string>, budget: int, i: nat)
    requires i < |candidates|
  {
    Left(files, candidates, budget, i) > 0 && candidates[i] in files
  }

  function SectionAt(files: Files, candidates: seq<string>, budget: int, i: nat): Section
    requires i < |candidates|
  {
    var left := Left(files, candidates, budget, i);
    Section(candidates[i],
            if left <= 0 then BUDGET_EXHAUSTED
            else if candidates[i] !in files then MISSING_FILE
            else Truncate(files[candidates[i]], candidates[i], left))
  }

  // The read map after n candidates: a later candidate of the same name overwrites an earlier one.
  function ReadMap(files: Files, candidates: seq<string>, budget: int, n: nat): map<string, bool>
    requires n <= |candidates|
  {
    if n == 0 then map[]
    else ReadMap(files, candidates, budget, n - 1)[candidates[n - 1] := IsRead(files, candidates, budget, n - 1)]
  }

  // What one candidate adds, by what is left of the budget when it is reached.
  lemma CandidateStep(files: Files, candidates: seq<string>, budget: int, n: nat)
    requires n < |candidates|
    ensures
      var path, left := candidates[n], Left(files, candidates, budget, n);
      var read := left > 0 && path in files;
      && SectionAt(files, candidates, budget, n) ==
         Section(path, if left <= 0 then BUDGET_EXHAUSTED
                       else if !read then MISSING_FILE
                       else Truncate(files[path], path, left))
      && ReadMap(files, candidates, budget, n + 1) == ReadMap(files, candidates, budget, n)[path := read]
      && Left(files, candidates, budget, n + 1) ==
         (if !read then left else if |files[path]| < left then left - |files[path]| else 0)
  {
  }

  lemma NothingYet(files: Files, candidates: seq<string>, budget: int)
    ensures Left(files, candidates, budget, 0) == budget && ReadMap(files, candidates, budget, 0) == map[]
  {
  }

  ghost predicate SectionsFit(files: Files, candidates: seq<string>, budget: int, sections: seq<Section>)
    requires |sections| <= |candidates|
  {
    forall i :: 0 <= i < |sections| ==> sections[i] == SectionAt(files, candidates, budget, i)
  }

  // read_bounded_texts
  method ReadBoundedTexts(candidates: seq<string>, files: Files, budget: int)
    returns (sections: seq<Section>, readMap: map<string, bool>)
    ensures |sections| == |candidates|
    ensures forall i :: 0 <= i < |sections| ==> sections[i] == SectionAt(files, candidates, budget, i)
    ensures readMap == ReadMap(files, candidates, budget, |candidates|)
  {
    hide Truncate, Total, Left, ReadMap, SectionAt;
    NothingYet(files, candidates, budget);
    sections, readMap := [], map[];
    var remaining := budget;
    for n := 0 to |candidates|
      invariant |sections| == n && remaining == Left(files, candidates, budget, n)
      invariant SectionsFit(files, candidates, budget, sections)
      invariant readMap == ReadMap(files, candidates, budget, n)
    {
      var path := candidates[n];
      CandidateStep(files, candidates, budget, n);
      if remaining <= 0 {
        sections := sections + [Section(path, BUDGET_EXHAUSTED)];
        readMap := readMap[path := false];
      } else if path !in files {
        sections := sections + [Section(path, MISSING_FILE)];
        readMap := readMap[path := false];
      } else {
        sections := sections + [Section(path, Truncate(files[path], path, remaining))];
        readMap := readMap[path := true];
        remaining := remaining - (if |files[path]| < remaining then |files[path]| else remaining);
      }
    }
  }

  // A candidate that is not named again later is recorded for what happened to it.
  lemma {:induction false} ReadMapRecordsLast(files: Files, candidates: seq<string>, budget: int, n: nat, i: nat)
    requires i < n <= |candidates| && candidates[i] !in candidates[i + 1..n]
    ensures candidates[i] in ReadMap(files, candidates, budget, n)
    ensures ReadMap(files, candidates, budget, n)[candidates[i]] == IsRead(files, candidates, budget, i)
    decreases n
  {
    if i < n - 1 {
      assert candidates[n - 1] == candidates[i + 1..n][n - 2 - i];
      assert candidates[i + 1..n] == candidates[i + 1..n - 1] + [candidates[n - 1]];
      ReadMapRecordsLast(files, candidates, budget, n - 1, i);
    }
  }

  // How many of file i's characters its section carries.
  function Injected(files: Files, candidates: seq<string>, budget: int, i: nat): nat
    requires i < |candidates|
  {
    var left := Left(files, candidates, budget, i);
    if !IsRead(files, candidates, budget, i) then 0
    else if Length(files, candidates[i]) < left then Length(files, candidates[i])
    else left
  }

  function InjectedTotal(files: Files, candidates: seq<string>, budget: int, n: nat): nat
    requires n <= |candidates|
  {
    if n == 0 then 0
    else InjectedTotal(files, candidates, budget, n - 1) + Injected(files, candidates, budget, n - 1)
  }

  // The sections together carry as much as there is or as the budget allows, whichever is less.
  lemma {:induction false} BudgetIsSpentExactly(files: Files, candidates: seq<string>, budget: nat, n: nat)
    requires n <= |candidates|
    ensures InjectedTotal(files, candidates, budget, n) ==
            if Total(files, candidates, n) < budget then Total(files, candidates, n) else budget
  {
    if n > 0 {
      BudgetIsSpentExactly(files, candidates, budget, n - 1);
    }
  }

  // A candidate is read exactly while the files before it leave some of the budget; where it is not, a
  // placeholder says whether the budget or the file is missing.
  lemma ReadIff(files: Files, candidates: seq<string>, budget: int, i: nat)
    requires i < |candidates|
    ensures IsRead(files, candidates, budget, i) <==> candidates[i] in files && Total(files, candidates, i) < budget
    ensures !IsRead(files, candidates, budget, i) ==>
      SectionAt(files, candidates, budget, i) ==
      Section(candidates[i], if Total(files, candidates, i) >= budget then BUDGET_EXHAUSTED else MISSING_FILE)
  {
  }

  lemma MarkerIs(name: string, limit: nat)
    ensures Marker(name, limit) == "... (truncated at " + Decimal(limit) + " characters of " + name + ")"
  {
    hide Decimal;
  }

  // A section that was read carries exactly its injected characters, and a marker naming their number
  // and the file if there are more; that happens only where the budget runs out, after which every
  // candidate is a placeholder. So at most one section is cut.
  lemma OnlyTheLastReadIsCut(files: Files, candidates: seq<string>, budget: int, i: nat, j: nat)
    requires i < |candidates| && IsRead(files, candidates, budget, i)
    ensures
      var path, text, k := candidates[i], files[candidates[i]], Injected(files, candidates, budget, i);
      && k <= |text|
      && SectionAt(files, candidates, budget, i) ==
         Section(path, if k == |text| then text
                       else text[..k] + ("\n\n" + ("... (truncated at " + Decimal(k) + " characters of " + path + ")")))
      && (k < |text| && i < j < |candidates| ==>
            Injected(files, candidates, budget, j) == 0
            && SectionAt(files, candidates, budget, j) == Section(candidates[j], BUDGET_EXHAUSTED))
  {
    hide Marker, Decimal;
    MarkerIs(candidates[i], Injected(files, candidates, budget, i));
    if Injected(files, candidates, budget, i) < |files[candidates[i]]| && i < j < |candidates| {
      TotalGrows(files, candidates, i + 1, j);
    }
  }

  lemma {:induction false} TotalGrows(files: Files, candidates: seq<string>, m: nat, n: nat)
    requires m <= n <= |candidates|
    ensures Total(files, candidates, m) <= Total(files, candidates, n)
    decreases n
  {
    if m < n {
      TotalGrows(files, candidates, m, n - 1);
    }
  }

  // --- rendering -------------------------------------------------------------------

  predicate IsPlaceholder(text: string) {
    text == MISSING_FILE || text == BUDGET_EXHAUSTED
  }

  // bare tells which texts are rendered without a fence: the two placeholders.
  function RenderSection(bare: string -> bool, s: Section): string {
    if bare(s.text) then "### " + s.path + "\n\n" + s.text
    else
      var fence := Ticks(FenceLength(s.text));
      "### " + s.path + "\n\n" + fence + "\n" + s.text + "\n" + fence
  }

  function Blocks(bare: string -> bool, sections: seq<Section>): seq<string> {
    seq(|sections|, i requires 0 <= i < |sections| => RenderSection(bare, sections[i]))
  }

  function Rendered(sections: seq<Section>): string {
    Join(Blocks(IsPlaceholder, sections), "\n\n")
  }

  // Only the two placeholders stand under their heading without a fence.
  lemma BareIff(s: Section)
    ensures RenderSection(IsPlaceholder, s) == "### " + s.path + "\n\n" + s.text <==>
      s.text == MISSING_FILE || s.text == BUDGET_EXHAUSTED
  {
    hide FenceLength;
    var fence := Ticks(FenceLength(s.text));
    assert |"### " + s.path + "\n\n" + fence + "\n" + s.text + "\n" + fence| > |"### " + s.path + "\n\n" + s.text|;
  }

  // One section of it.
  method RenderBlock(s: Section) returns (block: string)
    ensures block == RenderSection(IsPlaceholder, s)
  {
    hide FenceLength, Ticks;
    if s.text in [MISSING_FILE, BUDGET_EXHAUSTED] {
      return "### " + s.path + "\n\n" + s.text;
    }
    var fence := FenceFor(s.text);
    return "### " + s.path + "\n\n" + fence + "\n" + s.text + "\n" + fence;
  }

  // render_code_sections
  method RenderCodeSections(sections: seq<Section>) returns (text: string)
    ensures text == Rendered(sections)
  {
    hide RenderSection, IsPlaceholder;
    var blocks: seq<string> := [];
    for i := 0 to |sections|
      invariant blocks == Blocks(IsPlaceholder, sections)[..i]
    {
      var block := RenderBlock(sections[i]);
      blocks := blocks + [block];
    }
    assert Blocks(IsPlaceholder, sections)[..|sections|] == Blocks(IsPlaceholder, sections);
    text := Join(blocks, "\n\n");
  }

  // --- reading back: fenced code blocks as section 4.5 of the CommonMark Spec defines them ------

  function LeadingRun(line: string, c: char): (n: nat)
    ensures n <= |line| && forall i :: 0 <= i < n ==> line[i] == c
    ensures n < |line| ==> line[n] != c
  {
    if line == "" || line[0] != c then 0 else 1 + LeadingRun(line[1..], c)
  }

  // The number of backticks of an opening fence: at most three spaces of indentation, at least three
  // backticks, and none in the info string.
  function OpeningFence(line: string): Option<nat> {
    var indent := LeadingRun(line, ' ');
    var n := LeadingRun(line[indent..], '`');
    if indent <= 3 && n >= 3 && '`' !in line[indent + n..] then Some(n) else None
  }

  // A closing fence: at least as many backticks as the opening one, and only white space after.
  predicate ClosesFence(line: string, width: nat) {
    var indent := LeadingRun(line, ' ');
    var n := LeadingRun(line[indent..], '`');
    indent <= 3 && n >= width && Blank(line[indent + n..])
  }

  predicate Blank(s: string) {
    forall i :: 0 <= i < |s| ==> s[i] == ' ' || s[i] == '\t'
  }

  // The lines of the block and the lines after its closing fence; an unclosed block runs to the end.
  function ReadFenced(lines: seq<string>, width: nat): (r: (seq<string>, seq<string>))
    ensures |r.1| <= |lines|
  {
    if lines == [] then ([], [])
    else if ClosesFence(lines[0], width) then ([], lines[1..])
    else
      var (content, rest) := ReadFenced(lines[1..], width);
      ([lines[0]] + content, rest)
  }

  // A document of headed sections, each holding one code block or one bare line.
  function ReadSections(lines: seq<string>): Option<seq<Section>>
    decreases |lines|
  {
    if |lines| < 3 || !StartsWith(lines[0], "### ") || lines[1] != "" then None
    else
      var path := lines[0][4..];
      var (text, rest) :=
        match OpeningFence(lines[2])
        case Some(n) => var (content, rest) := ReadFenced(lines[3..], n); (Join(content, "\n"), rest)
        case None => (lines[2], lines[3..]);
      if rest == [] then Some([Section(path, text)])
      else if rest[0] != "" then None
      else
        match ReadSections(rest[1..])
        case None => None
        case Some(others) => Some([Section(path, text)] + others)
  }

  // --- the round trip --------------------------------------------------------------

  lemma {:induction false} LeadingRunOfTicks(n: nat)
    ensures LeadingRun(Ticks(n), '`') == n && LeadingRun(Ticks(n), ' ') == 0
  {
  }

  lemma FenceLine(n: nat)
    requires n >= 3
    ensures OpeningFence(Ticks(n)) == Some(n) && ClosesFence(Ticks(n), n)
  {
    LeadingRunOfTicks(n);
    assert Ticks(n)[0..] == Ticks(n);
  }

  lemma OccursBehind(text: string, piece: string, at: nat)
    requires text != "" && OccursAt(text[1..], piece, at)
    ensures OccursAt(text, piece, at + 1)
  {
    assert text[at + 1..at + 1 + |piece|] == text[1..][at..at + |piece|];
  }

  lemma OccursFirst(text: string, piece: string)
    requires text != "" && OccursAt(text[1..], piece, 0)
    ensures OccursAt(text, [text[0]] + piece, 0)
  {
    assert text[1..][0..|piece|] == text[1..1 + |piece|];
    assert text[0..1 + |piece|] == [text[0]] + text[1..1 + |piece|];
  }

  // A line of a text is a piece of the text.
  lemma {:induction false} LineOccurs(text: string, c: char, k: nat) returns (at: nat)
    requires k < |Split(text, c)|
    ensures OccursAt(text, Split(text, c)[k], at)
    ensures k == 0 ==> at == 0
  {
    hide OccursAt;
    at := 0;
    if text == "" || (text[0] == c && k == 0) {
      EmptyOccurs(text);
    } else if text[0] == c {
      at := LineOccurs(text[1..], c, k - 1);
      OccursBehind(text, Split(text[1..], c)[k - 1], at);
      at := at + 1;
    } else {
      at := LineOccurs(text[1..], c, k);
      if k > 0 {
        OccursBehind(text, Split(text[1..], c)[k], at);
        at := at + 1;
      } else {
        OccursFirst(text, Split(text[1..], c)[0]);
      }
    }
  }

  lemma EmptyOccurs(text: string)
    ensures OccursAt(text, "", 0)
  {
  }

  lemma ClosingHoldsTicks(piece: string, n: nat) returns (at: nat)
    requires ClosesFence(piece, n)
    ensures OccursAt(piece, Ticks(n), at)
  {
    at := LeadingRun(piece, ' ');
    assert piece[at..][..n] == Ticks(n);
    assert piece[at..at + n] == Ticks(n);
  }

  lemma PieceOccurs(text: string, a: nat, b: nat, sought: string, at: nat)
    requires a <= b <= |text| && OccursAt(text[a..b], sought, at)
    ensures OccursAt(text, sought, a + at)
  {
    forall i | 0 <= i < |sought| ensures text[a + at..a + at + |sought|][i] == sought[i] {
      assert text[a..b][at..at + |sought|][i] == text[a..b][at + i] == text[a + at + i];
    }
  }

  // No piece of a text closes the text's own fence, wherever a reader takes lines to start and end.
  lemma NoPieceCloses(text: string, a: nat, b: nat)
    requires a <= b <= |text|
    ensures !ClosesFence(text[a..b], FenceLength(text))
  {
    var piece, n := text[a..b], FenceLength(text);
    var _ := FenceIsTight(text);
    hide ClosesFence, FenceLength, Ticks;
    if ClosesFence(piece, n) {
      var at := ClosingHoldsTicks(piece, n);
      PieceOccurs(text, a, b, Ticks(n), at);
    }
  }

  lemma NoLineCloses(text: string, k: nat)
    requires k < |Split(text, '\n')|
    ensures !ClosesFence(Split(text, '\n')[k], FenceLength(text))
  {
    hide Split, ClosesFence, FenceLength;
    var at := LineOccurs(text, '\n', k);
    NoPieceCloses(text, at, at + |Split(text, '\n')[k]|);
  }

  lemma {:induction false} ReadFencedText(content: seq<string>, fence: string, rest: seq<string>, width: nat)
    requires forall k :: 0 <= k < |content| ==> !ClosesFence(content[k], width)
    requires ClosesFence(fence, width)
    ensures ReadFenced(content + [fence] + rest, width) == (content, rest)
  {
    var lines := content + [fence] + rest;
    if content == [] {
      assert lines[1..] == rest;
    } else {
      assert lines[1..] == content[1..] + [fence] + rest;
      ReadFencedText(content[1..], fence, rest, width);
      assert [content[0]] + content[1..] == content;
    }
  }

  // The lines a section renders to.
  function SectionLines(bare: string -> bool, s: Section): seq<string> {
    ["### " + s.path, ""] +
    if bare(s.text) then [s.text]
    else
      var fence := Ticks(FenceLength(s.text));
      [fence] + Split(s.text, '\n') + [fence]
  }

  ghost predicate OneLine(text: string) {
    Split(text, '\n') == [text] && OpeningFence(text).None?
  }

  ghost predicate BareIsOneLine(bare: string -> bool) {
    forall text :: bare(text) ==> OneLine(text)
  }

  lemma MissingFileHasNoBreak()
    ensures '\n' !in MISSING_FILE && MISSING_FILE != "" && MISSING_FILE[0] == '('
  {
    assert '\n' !in "(not present in ";
    assert '\n' !in "the workspace)";
  }

  lemma BudgetExhaustedHasNoBreak()
    ensures '\n' !in BUDGET_EXHAUSTED && BUDGET_EXHAUSTED != "" && BUDGET_EXHAUSTED[0] == '('
  {
    assert '\n' !in "(omitted: the " + "20000-character " by {
      assert '\n' !in "(omitted: the ";
      assert '\n' !in "20000-character ";
    }
    assert '\n' !in "injection budget " + "was already used)" by {
      assert '\n' !in "injection budget ";
      assert '\n' !in "was already used)";
    }
  }

  lemma PlaceholdersAreOneLine()
    ensures BareIsOneLine(IsPlaceholder)
  {
    hide OneLine;
    forall text | IsPlaceholder(text) ensures OneLine(text) {
      if text == MISSING_FILE {
        MissingFileHasNoBreak();
      } else {
        BudgetExhaustedHasNoBreak();
      }
      ParenthesizedLine(text);
    }
  }

  lemma ParenthesizedLine(text: string)
    requires '\n' !in text && text != "" && text[0] == '('
    ensures OneLine(text)
  {
    SplitWhole(text, '\n');
    assert LeadingRun(text, ' ') == 0 && text[0..] == text;
    assert LeadingRun(text, '`') == 0;
  }

  lemma HeadedLines(path: string, body: string)
    requires '\n' !in path
    ensures Split("### " + path + "\n\n" + body, '\n') == ["### " + path, ""] + Split(body, '\n')
  {
    var head := "### " + path;
    assert head + "\n\n" + body == head + ['\n'] + ("" + ['\n'] + body);
    SplitAt(head, '\n', "" + ['\n'] + body);
    SplitAt("", '\n', body);
    SplitWhole(head, '\n');
    assert ["### " + path] + ([""] + Split(body, '\n')) == ["### " + path, ""] + Split(body, '\n');
  }

  lemma RenderedLines(bare: string -> bool, s: Section)
    requires '\n' !in s.path && BareIsOneLine(bare)
    ensures Split(RenderSection(bare, s), '\n') == SectionLines(bare, s)
  {
    if bare(s.text) {
      HeadedLines(s.path, s.text);
    } else {
      var fence := Ticks(FenceLength(s.text));
      var body := fence + "\n" + s.text + "\n" + fence;
      assert RenderSection(bare, s) == "### " + s.path + "\n\n" + body;
      HeadedLines(s.path, body);
      SplitWhole(fence, '\n');
      assert body == (fence + ['\n'] + s.text) + ['\n'] + fence;
      SplitAt(fence + ['\n'] + s.text, '\n', fence);
      SplitAt(fence, '\n', s.text);
    }
  }

  function AllLines(bare: string -> bool, sections: seq<Section>): seq<string>
    requires sections != []
  {
    if |sections| == 1 then SectionLines(bare, sections[0])
    else SectionLines(bare, sections[0]) + [""] + AllLines(bare, sections[1..])
  }

  lemma BlankLineBetween(a: string, b: string)
    ensures Split(a + "\n\n" + b, '\n') == Split(a, '\n') + [""] + Split(b, '\n')
  {
    assert a + "\n\n" + b == a + ['\n'] + ("" + ['\n'] + b);
    SplitAt(a, '\n', "" + ['\n'] + b);
    SplitAt("", '\n', b);
  }

  lemma {:induction false} DocumentLines(bare: string -> bool, sections: seq<Section>)
    requires sections != [] && BareIsOneLine(bare)
    requires forall i :: 0 <= i < |sections| ==> '\n' !in sections[i].path
    ensures Split(Join(Blocks(bare, sections), "\n\n"), '\n') == AllLines(bare, sections)
  {
    var blocks := Blocks(bare, sections);
    RenderedLines(bare, sections[0]);
    if |sections| > 1 {
      assert blocks[1..] == Blocks(bare, sections[1..]);
      DocumentLines(bare, sections[1..]);
      BlankLineBetween(blocks[0], Join(blocks[1..], "\n\n"));
    }
  }

  // What ReadSections makes of a section followed by rest.
  function ReadAfter(s: Section, rest: seq<string>): Option<seq<Section>> {
    if rest == [] then Some([s])
    else if rest[0] != "" then None
    else
      match ReadSections(rest[1..])
      case None => None
      case Some(others) => Some([s] + others)
  }

  lemma ReadBareSection(path: string, text: string, rest: seq<string>)
    requires OpeningFence(text).None?
    ensures ReadSections(["### " + path, ""] + [text] + rest) == ReadAfter(Section(path, text), rest)
  {
    var lines := ["### " + path, ""] + [text] + rest;
    assert lines[0][4..] == path && lines[3..] == rest;
  }

  lemma ReadQuotedSection(path: string, text: string, rest: seq<string>)
    ensures
      var fence := Ticks(FenceLength(text));
      ReadSections(["### " + path, ""] + ([fence] + Split(text, '\n') + [fence]) + rest) ==
      ReadAfter(Section(path, text), rest)
  {
    hide FenceLength, Ticks, Split, Join, ReadFenced, OpeningFence;
    var n, content := FenceLength(text), Split(text, '\n');
    var fence := Ticks(n);
    FencedTextReadsBack(text, rest);
    var lines := ["### " + path, ""] + ([fence] + content + [fence]) + rest;
    assert lines[0] == "### " + path && lines[0][4..] == path && lines[1] == "" && lines[2] == fence;
    assert lines[3..] == content + [fence] + rest;
  }

  lemma FencedTextReadsBack(text: string, rest: seq<string>)
    ensures
      var n, content := FenceLength(text), Split(text, '\n');
      && OpeningFence(Ticks(n)) == Some(n)
      && ReadFenced(content + [Ticks(n)] + rest, n) == (content, rest)
      && Join(content, "\n") == text
  {
    var n, content := FenceLength(text), Split(text, '\n');
    var _ := FenceIsTight(text);
    FenceLine(n);
    forall k | 0 <= k < |content| ensures !ClosesFence(content[k], n) {
      NoLineCloses(text, k);
    }
    ReadFencedText(content, Ticks(n), rest, n);
    JoinSplit(text, '\n');
  }

  lemma ReadOneSection(bare: string -> bool, s: Section, rest: seq<string>)
    requires BareIsOneLine(bare)
    ensures ReadSections(SectionLines(bare, s) + rest) == ReadAfter(s, rest)
  {
    if bare(s.text) {
      ReadBareSection(s.path, s.text, rest);
    } else {
      ReadQuotedSection(s.path, s.text, rest);
    }
  }

  lemma {:induction false} LinesRoundTrip(bare: string -> bool, sections: seq<Section>)
    requires sections != [] && BareIsOneLine(bare)
    ensures ReadSections(AllLines(bare, sections)) == Some(sections)
  {
    if |sections| == 1 {
      ReadOneSection(bare, sections[0], []);
      assert SectionLines(bare, sections[0]) + [] == AllLines(bare, sections);
      assert sections == [sections[0]];
    } else {
      LinesRoundTrip(bare, sections[1..]);
      ReadFirstSection(bare, sections[0], AllLines(bare, sections[1..]), sections[1..]);
      assert [sections[0]] + sections[1..] == sections;
    }
  }

  lemma ReadFirstSection(bare: string -> bool, s: Section, lines: seq<string>, others: seq<Section>)
    requires BareIsOneLine(bare) && ReadSections(lines) == Some(others)
    ensures ReadSections(SectionLines(bare, s) + [""] + lines) == Some([s] + others)
  {
    var rest := [""] + lines;
    assert SectionLines(bare, s) + [""] + lines == SectionLines(bare, s) + rest;
    assert rest[1..] == lines && rest[0] == "";
    ReadOneSection(bare, s, rest);
  }

  // Whatever the quoted files hold, backticks and headings included, reading the rendered sections
  // back gives exactly the sections.
  lemma RenderingRoundTrip(sections: seq<Section>)
    requires sections != [] && forall i :: 0 <= i < |sections| ==> '\n' !in sections[i].path
    ensures ReadSections(Split(Rendered(sections), '\n')) == Some(sections)
  {
    PlaceholdersAreOneLine();
    DocumentLines(IsPlaceholder, sections);
    LinesRoundTrip(IsPlaceholder, sections);
  }
}
