// How the pipeline names an experiment's directory, and how every later reader finds that
// directory again: src/nodes/compute/_evaluation_common.py, the recording half of
// src/nodes/llm/coder.py, and the out-of-fold lookups of src/nodes/llm/ensemble_specialist.py.
// A path is a string; pathlib's view of it is its sequence of parts.
module ExperimentPaths {
  import opened Common
  import opened Text

  const FALLBACK_OOF := "oof_predictions.parquet"

  // --- pathlib ---------------------------------------------------------------------

  function Meaningful(pieces: seq<string>): (r: seq<string>)
    ensures forall p :: p in r ==> p in pieces && p != "" && p != "."
  {
    if pieces == [] then []
    else if pieces[0] == "" || pieces[0] == "." then Meaningful(pieces[1..])
    else [pieces[0]] + Meaningful(pieces[1..])
  }

  // PurePosixPath(path).parts, without the root marker of an absolute path.
  function Parts(path: string): seq<string> {
    Meaningful(Split(path, '/'))
  }

  // str(PurePosixPath(*parts)) for a relative path.
  function Render(parts: seq<string>): string {
    if parts == [] then "." else Join(parts, "/")
  }

  // What Parts can return.
  ghost predicate Clean(parts: seq<string>) {
    forall p :: p in parts ==> p != "" && p != "." && '/' !in p
  }

  lemma PartsAreClean(path: string)
    ensures Clean(Parts(path))
  {
  }

  lemma {:induction false} MeaningfulKeepsClean(parts: seq<string>)
    requires Clean(parts)
    ensures Meaningful(parts) == parts
  {
    if parts != [] {
      assert parts[0] in parts && forall p :: p in parts[1..] ==> p in parts;
      MeaningfulKeepsClean(parts[1..]);
    }
  }

  lemma JoinThree(a: string, b: string, c: string, sep: string)
    ensures Join([a, b], sep) == a + sep + b
    ensures Join([a, b, c], sep) == a + sep + b + sep + c
  {
    assert [a, b][1..] == [b];
    assert [a, b, c][1..] == [b, c];
    assert [b, c][1..] == [c];
    assert Join([b, c], sep) == b + sep + c;
    assert a + sep + (b + sep + c) == a + sep + b + sep + c;
  }

  // Rendering clean parts loses nothing.
  lemma PartsOfRender(parts: seq<string>)
    requires Clean(parts)
    ensures Parts(Render(parts)) == parts
    ensures parts == [] ==> Render(parts) == "."
  {
    if parts == [] {
      SplitWhole(".", '/');
    } else {
      SplitJoin(parts, '/');
      MeaningfulKeepsClean(parts);
    }
  }

  predicate IsAbsolute(path: string) {
    StartsWith(path, "/")
  }

  // relative_to_workspace, with None for its ValueError.
  function Relativize(path: string, root: seq<string>): Option<string> {
    if !IsAbsolute(path) then Some(path)
    else if root <= Parts(path) then Some(Render(Parts(path)[|root|..]))
    else None
  }

  // bool(PurePath(name).suffix)
  predicate HasSuffix(name: string) {
    match FindLast(name, ".", |name|)
    case Some(i) => 0 < i < |name| - 1
    case None => false
  }

  // The directory a recorded `path` value points at: experiment_dir_from_state's tail, which
  // ensemble_specialist repeats entry by entry. None where the source gives the pointer up.
  function RecordedDir(path: Option<string>, root: seq<string>): Option<string> {
    if path.None? || Strip(path.value) == "" then None
    else
      match Relativize(Strip(path.value), root)
      case None => None
      case Some(reference) =>
        var parts := Parts(reference);
        if ".." in parts then None
        else
          var dir := if parts != [] && HasSuffix(parts[|parts| - 1]) then parts[..|parts| - 1] else parts;
          if dir == [] then None else Some(Render(dir))
  }

  // --- the well-known directory of an iteration ------------------------------------

  function ExpName(k: nat): string {
    "exp_" + Decimal(k)
  }

  // EXPERIMENT_DIR_PATTERN.format(iteration=k)
  function ExpDir(k: nat): string {
    "experiments/" + ExpName(k)
  }

  // What coder records as `path`: the parent of its output file.
  function CoderDir(k: nat): string {
    var parts := Parts(ExpDir(k) + "/train.py");
    Render(if parts == [] then [] else parts[..|parts| - 1])
  }

  lemma ExpDirParts(k: nat)
    ensures Clean(["experiments", ExpName(k)])
    ensures Render(["experiments", ExpName(k)]) == ExpDir(k)
    ensures Parts(ExpDir(k)) == ["experiments", ExpName(k)]
  {
    var parts := ["experiments", ExpName(k)];
    JoinThree("experiments", ExpName(k), "", "/");
    assert "experiments" + "/" == "experiments/";
    PartsOfRender(parts);
  }

  lemma CoderDirIsExpDir(k: nat)
    ensures CoderDir(k) == ExpDir(k)
  {
    var parts := ["experiments", ExpName(k), "train.py"];
    ExpDirParts(k);
    JoinThree("experiments", ExpName(k), "train.py", "/");
    assert Render(parts) == ExpDir(k) + "/train.py";
    PartsOfRender(parts);
    assert parts[..2] == ["experiments", ExpName(k)];
  }

  lemma ExpNameIsPlain(k: nat)
    ensures !HasSuffix(ExpName(k)) && ExpName(k) != ".."
    ensures Trimmed(ExpDir(k))
  {
    var s := ExpName(k);
    assert forall i :: 0 <= i < |s| ==> s[i] != '.';
    forall i ensures !OccursAt(s, ".", i) {
      OccursChar(s, '.', i);
    }
    var d := ExpDir(k);
    assert d[|d| - 1] == Decimal(k)[|Decimal(k)| - 1];
  }

  lemma ExpNameInjective(a: nat, b: nat)
    requires ExpName(a) == ExpName(b)
    ensures a == b
  {
    assert ExpName(a)[4..] == Decimal(a) && ExpName(b)[4..] == Decimal(b);
    DecimalInjective(a, b);
  }

  // The recorded pointer leads back to the directory it was recorded for, under any root.
  lemma RecordedExpDir(k: nat, root: seq<string>)
    ensures RecordedDir(Some(ExpDir(k)), root) == Some(ExpDir(k))
  {
    hide RecordedDir, Parts, Render, HasSuffix, Strip, Trimmed, Clean, Decimal;
    ExpDirParts(k);
    ExpNameIsPlain(k);
    StripTrimmed(ExpDir(k));
    assert ExpDir(k)[0] == 'e';
    PlainReference(["experiments", ExpName(k)], ExpDir(k), root);
  }

  // A relative reference without `..` whose last part has no suffix is taken as it is.
  lemma PlainReference(parts: seq<string>, path: string, root: seq<string>)
    requires Strip(path) == path && path != "" && path[0] != '/' && Parts(path) == parts && Render(parts) == path
    requires |parts| == 2 && parts[0] == "experiments" && parts[1] != ".." && !HasSuffix(parts[1])
    ensures RecordedDir(Some(path), root) == Some(path)
  {
    hide Strip, Parts, Render, HasSuffix;
    assert parts[0][0] == 'e';
  }

  // A name has a suffix exactly when a dot with something on either side stands before a rest
  // without dots.
  lemma SuffixIff(name: string)
    ensures HasSuffix(name) <==>
      exists i :: 0 < i < |name| - 1 && name[i] == '.' && '.' !in name[i + 1..]
  {
    match FindLast(name, ".", |name|)
    case Some(i) =>
      OccursChar(name, '.', i);
      assert name[i] == '.';
      forall j | i < j < |name| ensures name[j] != '.' {
        OccursChar(name, '.', j);
      }
      assert '.' !in name[i + 1..];
      forall j | 0 <= j < i && name[j] == '.' ensures '.' in name[j + 1..] {
        assert name[j + 1..][i - j - 1] == '.';
      }
    case None =>
      forall j | 0 <= j < |name| ensures name[j] != '.' {
        OccursChar(name, '.', j);
      }
  }

  // The parts of a path below the workspace: those of a relative path, or those an absolute one has
  // under the root.
  ghost predicate LiesAt(text: string, root: seq<string>, parts: seq<string>) {
    Parts(text) == if text != "" && text[0] == '/' then root + parts else parts
  }

  // What a recorded value points at, spelled out: of a path in the workspace without `..`, the
  // directory itself, or for a file the one it is in.
  lemma RecordedDirIff(path: string, root: seq<string>, dir: seq<string>)
    requires Clean(dir)
    ensures RecordedDir(Some(path), root) == Some(Render(dir)) <==>
      && dir != []
      && exists parts: seq<string> ::
           && LiesAt(Strip(path), root, parts)
           && ".." !in parts
           && parts != []
           && dir == (if HasSuffix(parts[|parts| - 1]) then parts[..|parts| - 1] else parts)
  {
    var text := Strip(path);
    hide Parts, Strip, HasSuffix, Render, LiesAt, Relativize, Clean;
    if text == "" {
      forall parts | LiesAt(text, root, parts) ensures parts == [] {
        NothingInBlank(root, parts);
      }
    } else {
      forall parts | LiesAt(text, root, parts) ensures Relativize(text, root).Some? && parts == Parts(Relativize(text, root).value) {
        BelowRoot(text, root, parts);
      }
      if Relativize(text, root).Some? {
        var reference := Relativize(text, root).value;
        BelowRoot(text, root, Parts(reference));
        DirectoryIs(reference, dir);
      }
    }
  }

  lemma DirectoryIs(reference: string, dir: seq<string>)
    requires Clean(dir)
    ensures
      var parts := Parts(reference);
      var found := if parts != [] && HasSuffix(parts[|parts| - 1]) then parts[..|parts| - 1] else parts;
      Render(found) == Render(dir) <==> found == dir
  {
    hide Parts, HasSuffix, Render;
    var parts := Parts(reference);
    var found := if parts != [] && HasSuffix(parts[|parts| - 1]) then parts[..|parts| - 1] else parts;
    PartsAreClean(reference);
    assert forall p :: p in found ==> p in parts;
    PartsOfRender(found);
    PartsOfRender(dir);
  }

  lemma NothingInBlank(root: seq<string>, parts: seq<string>)
    requires LiesAt("", root, parts)
    ensures parts == []
  {
    SplitWhole("", '/');
  }

  // Relativizing finds the parts below the root, wherever there are such parts.
  lemma BelowRoot(text: string, root: seq<string>, parts: seq<string>)
    requires text != ""
    ensures LiesAt(text, root, parts) <==> Relativize(text, root).Some? && Parts(Relativize(text, root).value) == parts
  {
    if text[0] == '/' {
      if root <= Parts(text) {
        var below := Parts(text)[|root|..];
        PartsAreClean(text);
        assert forall p :: p in below ==> p in Parts(text);
        PartsOfRender(below);
        assert Parts(text) == root + below;
      }
      assert (root + parts)[|root|..] == parts;
    }
  }

  // --- reading the number back -----------------------------------------------------

  // The regex `exp_(\d+)$`, anchored at the start of s.
  function MatchExp(s: string): Option<nat> {
    if StartsWith(s, "exp_") && |s| > 4 && AllDigits(s[4..]) then Some(DecimalValue(s[4..])) else None
  }

  // re.search: the leftmost match.
  function SearchExp(s: string): Option<nat> {
    if MatchExp(s).Some? then MatchExp(s)
    else if s == "" then None
    else SearchExp(s[1..])
  }

  // iteration_from_experiment_dir: `$` also matches before a final newline.
  function IterationFromDir(dir: string): Option<nat> {
    SearchExp(if EndsWith(dir, "\n") then dir[..|dir| - 1] else dir)
  }

  lemma {:induction false} SearchExpRoundTrip(prefix: string, k: nat)
    ensures SearchExp(prefix + ExpName(k)) == Some(k)
  {
    var s := prefix + ExpName(k);
    var d := Decimal(k);
    if prefix == "" {
      assert s[4..] == d;
      DecimalRoundTrip(k);
    } else {
      assert s[|prefix|] == 'e';
      if |prefix| >= 4 {
        assert s[4..][|prefix| - 4] == 'e';
      } else {
        assert s[..4][|prefix|] == 'e';
      }
      assert s[1..] == prefix[1..] + ExpName(k);
      SearchExpRoundTrip(prefix[1..], k);
    }
  }

  // Whatever directory it sits in, the number printed into the name is the number read back.
  lemma IterationRoundTrip(prefix: string, k: nat)
    ensures IterationFromDir(prefix + ExpName(k)) == Some(k)
  {
    var s := prefix + ExpName(k);
    assert s[|s| - 1] == Decimal(k)[|Decimal(k)| - 1];
    SearchExpRoundTrip(prefix, k);
  }

  // From position i on, the name reads exp_ and the digits of n.
  ghost predicate NumberAt(name: string, i: int, n: nat) {
    0 <= i && i + 4 < |name| && name[i..i + 4] == "exp_" && AllDigits(name[i + 4..]) && DecimalValue(name[i + 4..]) == n
  }

  // A number is read exactly from a name that ends in exp_ and digits, and it is the number those
  // digits write; one final line break is looked past.
  lemma IterationIff(dir: string, n: nat)
    ensures
      var name := if dir != "" && dir[|dir| - 1] == '\n' then dir[..|dir| - 1] else dir;
      IterationFromDir(dir) == Some(n) <==> exists i :: NumberAt(name, i, n)
  {
    var name := if dir != "" && dir[|dir| - 1] == '\n' then dir[..|dir| - 1] else dir;
    assert EndsWith(dir, "\n") <==> dir != "" && dir[|dir| - 1] == '\n';
    SearchFinds(name, n);
  }

  lemma MatchIsNumber(s: string, n: nat)
    ensures MatchExp(s) == Some(n) <==> NumberAt(s, 0, n)
  {
    if |s| > 4 {
      assert s[0..4] == s[..4];
    }
  }

  lemma NumberShifts(s: string, i: int, n: nat)
    requires s != "" && 0 <= i
    ensures NumberAt(s[1..], i, n) <==> NumberAt(s, i + 1, n)
  {
    hide AllDigits, DecimalValue;
    if i + 5 < |s| {
      assert s[1..][i..i + 4] == s[i + 1..i + 5] && s[1..][i + 4..] == s[i + 5..];
    }
  }

  // The digits behind a match hold no second one.
  lemma OneNumber(s: string, i: int, n: nat)
    requires MatchExp(s).Some? && i > 0
    ensures !NumberAt(s, i, n)
  {
    hide DecimalValue;
    if i + 4 < |s| {
      assert s[i..i + 4][3] == s[i + 3] == s[4..][i - 1];
      assert s[4..][i - 1] != '_';
    }
  }

  lemma {:induction false} SearchFinds(s: string, n: nat)
    ensures SearchExp(s) == Some(n) <==> exists i :: NumberAt(s, i, n)
  {
    hide MatchExp, NumberAt;
    MatchIsNumber(s, n);
    if MatchExp(s).Some? {
      forall i | NumberAt(s, i, n) ensures i == 0 {
        NumberNotBefore(s, i, n);
        if i > 0 {
          OneNumber(s, i, n);
        }
      }
    } else if s == "" {
      forall i ensures !NumberAt(s, i, n) {
        NumberNotBefore(s, i, n);
      }
    } else {
      SearchFinds(s[1..], n);
      forall i | NumberAt(s, i, n) ensures NumberAt(s[1..], i - 1, n) {
        NumberNotBefore(s, i, n);
        NumberShifts(s, i - 1, n);
      }
      forall i | NumberAt(s[1..], i, n) ensures NumberAt(s, i + 1, n) {
        NumberNotBefore(s[1..], i, n);
        NumberShifts(s, i, n);
      }
    }
  }

  lemma NumberNotBefore(s: string, i: int, n: nat)
    ensures NumberAt(s, i, n) ==> 0 <= i < |s|
  {
  }

  // --- out-of-fold predictions -----------------------------------------------------

  // results["oof_path"]: None when absent or not a string.
  type OofField = Option<string>

  predicate Usable(oof: OofField) {
    oof.Some? && Strip(oof.value) != ""
  }

  // The file coder checks before it accepts a run (_oof_artifact_exists up to is_file), as parts
  // below the workspace root; None where the check fails outright. No symbolic links.
  function CoderOof(oof: OofField, k: nat, root: seq<string>): Option<seq<string>> {
    var candidate :=
      if Usable(oof) then
        match Relativize(Strip(oof.value), root)
        case None => None
        case Some(reference) => Some(Parts(reference))
      else Some(Parts(ExpDir(k)) + [FALLBACK_OOF]);
    match candidate
    case None => None
    case Some(parts) =>
      if ".." in parts then None
      else if !(Parts(ExpDir(k)) <= parts) then None
      else Some(parts)
  }

  // The file ensemble_specialist names for an experiment in directory dir (_oof_path_for_experiment).
  // readable is false when results.json could not be read as an object.
  function EnsembleOof(dir: string, readable: bool, oof: OofField, root: seq<string>): string {
    var fallback := dir + "/" + FALLBACK_OOF;
    if !readable || !Usable(oof) then fallback
    else
      match Relativize(Strip(oof.value), root)
      case None => fallback
      case Some(reference) =>
        if ".." in Parts(reference) || Parts(reference) == [] then fallback
        else Render(Parts(reference))
  }

  // The file coder accepts, spelled out: it lies in the experiment's own directory, no part is `..`,
  // and the results name it, relative to the workspace or by its full path; a blank or missing name
  // stands for the default file.
  lemma CoderOofIff(oof: OofField, k: nat, root: seq<string>, parts: seq<string>)
    ensures
      var text := if oof.Some? then Strip(oof.value) else "";
      CoderOof(oof, k, root) == Some(parts) <==>
        && ["experiments", ExpName(k)] <= parts
        && ".." !in parts
        && (if text == "" then parts == ["experiments", ExpName(k), "oof_predictions.parquet"] else LiesAt(text, root, parts))
  {
    hide Parts, Strip, LiesAt, Relativize, ExpName, ExpDir;
    ExpDirParts(k);
    if Usable(oof) {
      BelowRoot(Strip(oof.value), root, parts);
    } else {
      ExpNameIsPlain(k);
      assert ["experiments", ExpName(k)] + [FALLBACK_OOF] == ["experiments", ExpName(k), FALLBACK_OOF];
    }
  }

  // The file the ensemble names, spelled out: what readable results name in the workspace, if it is
  // something there and no part of it is `..`.
  lemma NamedOofIsRead(dir: string, path: string, root: seq<string>, parts: seq<string>)
    requires Strip(path) != "" && LiesAt(Strip(path), root, parts)
    ensures EnsembleOof(dir, true, Some(path), root) ==
      if ".." in parts || parts == [] then dir + "/oof_predictions.parquet" else Render(parts)
  {
    hide Parts, Strip, LiesAt, Relativize, Render;
    BelowRoot(Strip(path), root, parts);
  }

  // Otherwise the default file of the experiment's directory.
  lemma DefaultOofIsRead(dir: string, readable: bool, oof: OofField, root: seq<string>)
    requires readable && oof.Some? && Strip(oof.value) != "" ==>
      Strip(oof.value)[0] == '/' && !(root <= Parts(Strip(oof.value)))
    ensures EnsembleOof(dir, readable, oof, root) == dir + "/oof_predictions.parquet"
  {
    hide Parts, Strip;
  }

  // Where coder accepted the run, the ensemble names the very file coder saw, and that file
  // lies inside the experiment's own directory.
  lemma EnsembleReadsWhatCoderChecked(oof: OofField, k: nat, root: seq<string>)
    requires CoderOof(oof, k, root).Some?
    ensures
      var parts := Parts(EnsembleOof(ExpDir(k), true, oof, root));
      && CoderOof(oof, k, root) == Some(parts)
      && ["experiments", ExpName(k)] <= parts
  {
    ExpDirParts(k);
    if Usable(oof) {
      var reference := Relativize(Strip(oof.value), root).value;
      PartsAreClean(reference);
      PartsOfRender(Parts(reference));
    } else {
      OofFallbackParts(k);
      ExpNameIsPlain(k);
      assert ["experiments", ExpName(k)] + [FALLBACK_OOF] == ["experiments", ExpName(k), FALLBACK_OOF];
      assert CoderOof(oof, k, root) == Some(["experiments", ExpName(k), FALLBACK_OOF]);
    }
  }

  lemma OofFallbackParts(k: nat)
    ensures Parts(ExpDir(k) + "/" + FALLBACK_OOF) == ["experiments", ExpName(k), FALLBACK_OOF]
  {
    var parts := ["experiments", ExpName(k), FALLBACK_OOF];
    ExpDirParts(k);
    JoinThree("experiments", ExpName(k), FALLBACK_OOF, "/");
    PartsOfRender(parts);
  }

  // Distinct experiments never share an out-of-fold file, whatever paths their scripts chose.
  lemma OofPathsDistinct(a: nat, oofA: OofField, b: nat, oofB: OofField, root: seq<string>)
    requires a != b
    requires CoderOof(oofA, a, root).Some? && CoderOof(oofB, b, root).Some?
    ensures EnsembleOof(ExpDir(a), true, oofA, root) != EnsembleOof(ExpDir(b), true, oofB, root)
  {
    EnsembleReadsWhatCoderChecked(oofA, a, root);
    EnsembleReadsWhatCoderChecked(oofB, b, root);
    var pathA, pathB := EnsembleOof(ExpDir(a), true, oofA, root), EnsembleOof(ExpDir(b), true, oofB, root);
    if pathA == pathB {
      assert Parts(pathA)[1] == ExpName(a) && Parts(pathB)[1] == ExpName(b);
      ExpNameInjective(a, b);
    }
  }
}
