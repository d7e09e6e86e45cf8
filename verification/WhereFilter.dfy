// src/memory/store.py's translate_where and src/tools/rag.py's _legalize_where: metadata filters are
// rewritten into the subset Chroma accepts, keeping which documents they accept.
module WhereFilter {
  import opened Common

  // A metadata value or filter operand; only equality matters.
  type Atom = string

  datatype Operand = Members(values: seq<Atom>) | Single(value: Atom)

  // A filter dict in key order, the None a clause may be, or something that is neither.
  datatype Where = NoFilter | Filter(entries: seq<(string, Value)>) | NotAFilter

  // What a key maps to: a list of clauses, an operator dict, or anything else.
  datatype Value = Clauses(items: seq<Where>) | Operators(ops: map<string, Operand>) | Plain(value: Atom)

  const AND := "$and"
  const OR := "$or"
  const IN := "$in"
  const CONTAINS := "$contains"

  const LIST_FIELDS := {"problem_type", "methods_used", "dataset_characteristics"}

  datatype WhereError = InNotAList | InEmpty | ClauseNotADict

  predicate IsConnective(key: string) {
    key == AND || key == OR
  }

  // --- meaning ---------------------------------------------------------------------

  // A document, as far as filters can see it: the members of its list-valued fields, and the answer
  // to any other single condition.
  datatype Doc = Doc(members: (string, Atom) -> bool, holds: (string, string, Operand) -> bool, equals: (string, Value) -> bool)

  // One operator of an operator dict. On a list-valued field, $in asks for a common member and
  // $contains for the one member.
  predicate OpHolds(d: Doc, key: string, op: string, arg: Operand) {
    if key in LIST_FIELDS && op == IN && arg.Members? then exists v :: v in arg.values && d.members(key, v)
    else if key in LIST_FIELDS && op == CONTAINS && arg.Single? then d.members(key, arg.value)
    else d.holds(key, op, arg)
  }

  // A dict asks for all its entries, $and for all its clauses, $or for some clause; no filter asks
  // for nothing.
  predicate Accepts(w: Where, d: Doc)
    decreases w, 1
  {
    match w
    case NoFilter => true
    case NotAFilter => false
    case Filter(entries) => forall i :: 0 <= i < |entries| ==> EntryHolds(entries[i], d)
  }

  predicate EntryHolds(e: (string, Value), d: Doc)
    decreases e, 0
  {
    match e.1
    case Clauses(items) =>
      if e.0 == AND then forall i :: 0 <= i < |items| ==> Accepts(items[i], d)
      else if e.0 == OR then exists i :: 0 <= i < |items| && Accepts(items[i], d)
      else d.equals(e.0, e.1)
    case Operators(ops) => forall op :: op in ops ==> OpHolds(d, e.0, op, ops[op])
    case Plain(_) => d.equals(e.0, e.1)
  }

  // --- translate_where -------------------------------------------------------------

  predicate IsListIn(key: string, v: Value) {
    key in LIST_FIELDS && v.Operators? && IN in v.ops
  }

  function Containment(key: string, member: Atom): Where {
    Filter([(key, Operators(map[CONTAINS := Single(member)]))])
  }

  function Containments(key: string, members: seq<Atom>): seq<Where> {
    seq(|members|, i requires 0 <= i < |members| => Containment(key, members[i]))
  }

  function Combine(clauses: seq<Where>): Where {
    if clauses == [] then Filter([])
    else if |clauses| == 1 then clauses[0]
    else Filter([(AND, Clauses(clauses))])
  }

  function Translate(w: Where): Result<Where, WhereError>
    decreases w, 1
  {
    match w
    case NoFilter => Ok(NoFilter)
    case NotAFilter => Err(ClauseNotADict)
    case Filter(entries) =>
      match TranslateEntries(entries)
      case Err(e) => Err(e)
      case Ok(clauses) => Ok(Combine(clauses))
  }

  function TranslateEntries(entries: seq<(string, Value)>): (r: Result<seq<Where>, WhereError>)
    ensures r.Ok? ==> |r.value| == |entries|
    decreases entries, 0
  {
    if entries == [] then Ok([])
    else
      match TranslateEntry(entries[0])
      case Err(e) => Err(e)
      case Ok(clause) =>
        match TranslateEntries(entries[1..])
        case Err(e) => Err(e)
        case Ok(rest) => Ok([clause] + rest)
  }

  function TranslateEntry(e: (string, Value)): Result<Where, WhereError>
    decreases e, 0
  {
    if IsConnective(e.0) && e.1.Clauses? then
      match TranslateClauses(e.1.items)
      case Err(err) => Err(err)
      case Ok(items) => Ok(Filter([(e.0, Clauses(items))]))
    else if IsListIn(e.0, e.1) then
      var arg := e.1.ops[IN];
      if !arg.Members? then Err(InNotAList)
      else if arg.values == [] then Err(InEmpty)
      else Ok(Filter([(OR, Clauses(Containments(e.0, arg.values)))]))
    else Ok(Filter([e]))
  }

  // The clauses of a list, translated, without those that translate to nothing.
  function TranslateClauses(items: seq<Where>): Result<seq<Where>, WhereError>
    decreases items, 0
  {
    if items == [] then Ok([])
    else
      match Translate(items[0])
      case Err(e) => Err(e)
      case Ok(first) =>
        match TranslateClauses(items[1..])
        case Err(e) => Err(e)
        case Ok(rest) => Ok((if first == NoFilter then [] else [first]) + rest)
  }

  // The source's loop over the dict's items, first failure first.
  method TranslateWhere(w: Where) returns (r: Result<Where, WhereError>)
    ensures r == Translate(w)
    decreases w, 1
  {
    if w == NoFilter {
      return Ok(NoFilter);
    }
    if w == NotAFilter {
      return Err(ClauseNotADict);
    }
    var entries := w.entries;
    var clauses: seq<Where> := [];
    PrependNothing(TranslateEntries(entries));
    assert entries[0..] == entries;
    for i := 0 to |entries|
      invariant TranslateEntries(entries) == Prepend(clauses, TranslateEntries(entries[i..]))
    {
      assert entries[i..][1..] == entries[i + 1..];
      ghost var rest, before := TranslateEntries(entries[i + 1..]), clauses;
      var (key, value) := entries[i];
      if IsConnective(key) && value.Clauses? {
        var translated := TranslateList(value.items);
        if translated.Err? {
          return Err(translated.error);
        }
        clauses := clauses + [Filter([(key, Clauses(translated.value))])];
      } else if IsListIn(key, value) {
        var arg := value.ops[IN];
        if !arg.Members? {
          return Err(InNotAList);
        }
        if arg.values == [] {
          return Err(InEmpty);
        }
        clauses := clauses + [Filter([(OR, Clauses(Containments(key, arg.values)))])];
      } else {
        clauses := clauses + [Filter([(key, value)])];
      }
      PrependOne(before, clauses[|before|], rest);
    }
    assert entries[|entries|..] == [] && clauses + [] == clauses;
    return Ok(Combine(clauses));
  }

  method TranslateList(items: seq<Where>) returns (r: Result<seq<Where>, WhereError>)
    ensures r == TranslateClauses(items)
    decreases items, 0
  {
    var translated: seq<Where> := [];
    PrependNothing(TranslateClauses(items));
    assert items[0..] == items;
    for i := 0 to |items|
      invariant TranslateClauses(items) == Prepend(translated, TranslateClauses(items[i..]))
    {
      assert items[i..][1..] == items[i + 1..];
      var clause := TranslateWhere(items[i]);
      if clause.Err? {
        return Err(clause.error);
      }
      PrependOne(translated, clause.value, TranslateClauses(items[i + 1..]));
      if clause.value != NoFilter {
        translated := translated + [clause.value];
      }
    }
    assert items[|items|..] == [] && translated + [] == translated;
    return Ok(translated);
  }

  function Prepend(done: seq<Where>, rest: Result<seq<Where>, WhereError>): Result<seq<Where>, WhereError> {
    match rest
    case Err(e) => Err(e)
    case Ok(clauses) => Ok(done + clauses)
  }

  lemma PrependNothing(rest: Result<seq<Where>, WhereError>)
    ensures Prepend([], rest) == rest
  {
    if rest.Ok? {
      assert [] + rest.value == rest.value;
    }
  }

  lemma PrependOne(done: seq<Where>, next: Where, rest: Result<seq<Where>, WhereError>)
    ensures rest.Ok? ==> Prepend(done, Ok([next] + rest.value)) == Prepend(done + [next], rest)
    ensures rest.Ok? ==> [] + rest.value == rest.value
  {
    if rest.Ok? {
      assert done + ([next] + rest.value) == (done + [next]) + rest.value;
    }
  }

  // --- _legalize_where -------------------------------------------------------------

  function Legalize(w: Where): Where
    decreases w, 1
  {
    if w.Filter? && |w.entries| == 1 then
      var (key, value) := w.entries[0];
      if IsConnective(key) && value.Clauses? then
        var items := LegalizeAll(value.items);
        if |items| == 1 then items[0] else Filter([(key, Clauses(items))])
      else w
    else w
  }

  function LegalizeAll(items: seq<Where>): (r: seq<Where>)
    ensures |r| == |items|
    decreases items, 0
  {
    if items == [] then [] else [Legalize(items[0])] + LegalizeAll(items[1..])
  }

  // --- the composition RagStore.query sends to Chroma ------------------------------

  function ChromaWhere(w: Where): Result<Where, WhereError> {
    match Translate(w)
    case Err(e) => Err(e)
    case Ok(t) => Ok(Legalize(t))
  }

  // --- when translation fails ------------------------------------------------------

  // Everything wrong with a filter, in reading order.
  function Errors(w: Where): seq<WhereError>
    decreases w, 1
  {
    match w
    case NoFilter => []
    case NotAFilter => [ClauseNotADict]
    case Filter(entries) => EntriesErrors(entries)
  }

  function EntriesErrors(entries: seq<(string, Value)>): seq<WhereError>
    decreases entries, 0
  {
    if entries == [] then [] else EntryErrors(entries[0]) + EntriesErrors(entries[1..])
  }

  function EntryErrors(e: (string, Value)): seq<WhereError>
    decreases e, 0
  {
    match e.1
    case Clauses(items) => if e.0 in {"$and", "$or"} then ClausesErrors(items) else []
    case Operators(ops) =>
      if e.0 in {"problem_type", "methods_used", "dataset_characteristics"} && "$in" in ops then
        match ops["$in"]
        case Members(values) => if values == [] then [InEmpty] else []
        case Single(_) => [InNotAList]
      else []
    case Plain(_) => []
  }

  function ClausesErrors(items: seq<Where>): seq<WhereError>
    decreases items, 0
  {
    if items == [] then [] else Errors(items[0]) + ClausesErrors(items[1..])
  }

  predicate Answers<T>(r: Result<T, WhereError>, errors: seq<WhereError>) {
    if errors == [] then r.Ok? else r == Err(errors[0])
  }

  // Translation succeeds exactly when nothing is wrong, and otherwise raises the first error it meets.
  lemma {:induction false} FirstErrorIsRaised(w: Where)
    ensures Answers(Translate(w), Errors(w))
    decreases w, 1
  {
    if w.Filter? {
      EntriesRaiseFirst(w.entries);
    }
  }

  lemma {:induction false} EntriesRaiseFirst(entries: seq<(string, Value)>)
    ensures Answers(TranslateEntries(entries), EntriesErrors(entries))
    decreases entries, 0
  {
    if entries != [] {
      EntryRaisesFirst(entries[0]);
      EntriesRaiseFirst(entries[1..]);
    }
  }

  lemma {:induction false} EntryRaisesFirst(e: (string, Value))
    ensures Answers(TranslateEntry(e), EntryErrors(e))
    decreases e, 0
  {
    if e.1.Clauses? && IsConnective(e.0) {
      ClausesRaiseFirst(e.1.items);
    }
  }

  lemma {:induction false} ClausesRaiseFirst(items: seq<Where>)
    ensures Answers(TranslateClauses(items), ClausesErrors(items))
    decreases items, 0
  {
    if items != [] {
      FirstErrorIsRaised(items[0]);
      ClausesRaiseFirst(items[1..]);
    }
  }

  // Every clause reached is a dict or None, and every $in on a list-valued field has a non-empty list.
  ghost predicate Translatable(w: Where)
    decreases w, 1
  {
    match w
    case NoFilter => true
    case NotAFilter => false
    case Filter(entries) => forall i :: 0 <= i < |entries| ==> TranslatableEntry(entries[i])
  }

  ghost predicate TranslatableEntry(e: (string, Value))
    decreases e, 0
  {
    && (e.0 in {"$and", "$or"} && e.1.Clauses? ==> forall i :: 0 <= i < |e.1.items| ==> Translatable(e.1.items[i]))
    && (e.0 in {"problem_type", "methods_used", "dataset_characteristics"} && e.1.Operators? && "$in" in e.1.ops ==>
          e.1.ops["$in"].Members? && e.1.ops["$in"].values != [])
  }

  lemma {:induction false} TranslatableIff(w: Where)
    ensures Translate(w).Ok? <==> Translatable(w)
    decreases w, 1
  {
    FirstErrorIsRaised(w);
    NoErrorsIff(w);
  }

  lemma {:induction false} NoErrorsIff(w: Where)
    ensures Errors(w) == [] <==> Translatable(w)
    decreases w, 1
  {
    if w.Filter? {
      EntriesNoErrorsIff(w.entries);
    }
  }

  lemma {:induction false} EntriesNoErrorsIff(entries: seq<(string, Value)>)
    ensures EntriesErrors(entries) == [] <==> forall i :: 0 <= i < |entries| ==> TranslatableEntry(entries[i])
    decreases entries, 0
  {
    if entries != [] {
      EntryNoErrorsIff(entries[0]);
      EntriesNoErrorsIff(entries[1..]);
      hide TranslatableEntry, EntryErrors;
      assert forall i :: 0 < i < |entries| ==> entries[i] == entries[1..][i - 1];
    }
  }

  lemma {:induction false} EntryNoErrorsIff(e: (string, Value))
    ensures EntryErrors(e) == [] <==> TranslatableEntry(e)
    decreases e, 0
  {
    if e.1.Clauses? && e.0 in {"$and", "$or"} {
      ClausesNoErrorsIff(e.1.items);
    }
  }

  lemma {:induction false} ClausesNoErrorsIff(items: seq<Where>)
    ensures ClausesErrors(items) == [] <==> forall i :: 0 <= i < |items| ==> Translatable(items[i])
    decreases items, 0
  {
    if items != [] {
      NoErrorsIff(items[0]);
      ClausesNoErrorsIff(items[1..]);
      hide Translatable, Errors;
      assert forall i :: 0 < i < |items| ==> items[i] == items[1..][i - 1];
    }
  }

  // One $contains condition for each of the values.
  function AnyOf(key: string, values: seq<Atom>): seq<Where> {
    seq(|values|, i requires 0 <= i < |values| => Filter([(key, Operators(map["$contains" := Single(values[i])]))]))
  }

  // What a single condition becomes: $in on one of the three list-valued fields asks for some member by
  // $contains, anything else stays as it is.
  lemma ConditionIsTranslated(key: string, ops: map<string, Operand>)
    ensures
      var w := Translate(Filter([(key, Operators(ops))]));
      if key in {"problem_type", "methods_used", "dataset_characteristics"} && "$in" in ops then
        ops["$in"].Members? && ops["$in"].values != [] ==>
          w == Ok(Filter([("$or", Clauses(AnyOf(key, ops["$in"].values)))]))
      else
        w == Ok(Filter([(key, Operators(ops))]))
  {
    var e := (key, Operators(ops));
    OneEntry(e);
    if IsListIn(key, e.1) && ops[IN].Members? {
      assert Containments(key, ops[IN].values) == AnyOf(key, ops[IN].values);
    }
  }

  lemma OneEntry(e: (string, Value))
    ensures Translate(Filter([e])) == TranslateEntry(e)
  {
    hide TranslateEntry;
    assert [e][1..] == [] && TranslateEntries([]) == Ok([]);
    if TranslateEntry(e).Ok? {
      assert [TranslateEntry(e).value] + [] == [TranslateEntry(e).value];
    }
  }

  // --- meaning is preserved --------------------------------------------------------

  // What translation keeps the meaning of: no None among the clauses of an $or, and no other
  // operator beside $in on a list-valued field.
  ghost predicate Faithful(w: Where)
    decreases w, 1
  {
    w.Filter? ==> forall i :: 0 <= i < |w.entries| ==> FaithfulEntry(w.entries[i])
  }

  ghost predicate FaithfulEntry(e: (string, Value))
    decreases e, 0
  {
    && (IsListIn(e.0, e.1) ==> e.1.ops.Keys == {IN})
    && (IsConnective(e.0) && e.1.Clauses? ==>
          && (e.0 == OR ==> NoFilter !in e.1.items)
          && forall i :: 0 <= i < |e.1.items| ==> Faithful(e.1.items[i]))
  }

  // Entry by entry, which filters translation is sure to keep the meaning of.
  lemma FaithfulEntries(key: string, ops: map<string, Operand>, items: seq<Where>, value: Atom)
    ensures FaithfulEntry((key, Plain(value)))
    ensures FaithfulEntry((key, Operators(ops))) <==>
              (key in {"problem_type", "methods_used", "dataset_characteristics"} && "$in" in ops ==> ops.Keys == {"$in"})
    ensures FaithfulEntry((key, Clauses(items))) <==>
              && (key == "$or" ==> NoFilter !in items)
              && (key in {"$and", "$or"} ==> forall i :: 0 <= i < |items| ==> Faithful(items[i]))
    ensures Faithful(NoFilter) && Faithful(NotAFilter)
    ensures forall entries :: Faithful(Filter(entries)) <==> forall i :: 0 <= i < |entries| ==> FaithfulEntry(entries[i])
  {
  }

  ghost predicate AllAccept(ws: seq<Where>, d: Doc) {
    forall i :: 0 <= i < |ws| ==> Accepts(ws[i], d)
  }

  ghost predicate SomeAccepts(ws: seq<Where>, d: Doc) {
    exists i :: 0 <= i < |ws| && Accepts(ws[i], d)
  }

  lemma AcceptsOne(e: (string, Value), d: Doc)
    ensures Accepts(Filter([e]), d) <==> EntryHolds(e, d)
  {
    assert [e][0] == e;
  }

  lemma ConsAccepts(w: Where, ws: seq<Where>, d: Doc)
    ensures AllAccept([w] + ws, d) <==> Accepts(w, d) && AllAccept(ws, d)
    ensures SomeAccepts([w] + ws, d) <==> Accepts(w, d) || SomeAccepts(ws, d)
  {
    hide Accepts;
    var all := [w] + ws;
    assert all[0] == w && forall i :: 0 <= i < |ws| ==> all[i + 1] == ws[i];
  }

  lemma CombineAccepts(clauses: seq<Where>, d: Doc)
    ensures Accepts(Combine(clauses), d) <==> AllAccept(clauses, d)
  {
    if |clauses| > 1 {
      AcceptsOne((AND, Clauses(clauses)), d);
    }
  }

  lemma ContainmentAccepts(key: string, members: seq<Atom>, d: Doc)
    requires key in LIST_FIELDS
    ensures SomeAccepts(Containments(key, members), d) <==> exists v :: v in members && d.members(key, v)
  {
    forall v ensures Accepts(Containment(key, v), d) <==> d.members(key, v) {
      var ops := map[CONTAINS := Single(v)];
      AcceptsOne((key, Operators(ops)), d);
      assert forall op :: op in ops <==> op == CONTAINS;
      assert EntryHolds((key, Operators(ops)), d) <==> OpHolds(d, key, CONTAINS, ops[CONTAINS]);
      assert OpHolds(d, key, CONTAINS, Single(v)) <==> d.members(key, v);
    }
    var cs := Containments(key, members);
    if v :| v in members && d.members(key, v) {
      var i :| 0 <= i < |members| && members[i] == v;
      assert Accepts(cs[i], d);
    }
  }

  lemma {:induction false} TranslatePreserves(w: Where, d: Doc)
    requires Faithful(w) && Translate(w).Ok?
    ensures Accepts(Translate(w).value, d) <==> Accepts(w, d)
    decreases w, 1
  {
    if w.Filter? {
      EntriesPreserve(w.entries, d);
      CombineAccepts(TranslateEntries(w.entries).value, d);
    }
  }

  lemma {:induction false} EntriesPreserve(entries: seq<(string, Value)>, d: Doc)
    requires forall i :: 0 <= i < |entries| ==> FaithfulEntry(entries[i])
    requires TranslateEntries(entries).Ok?
    ensures AllAccept(TranslateEntries(entries).value, d) <==>
            forall i :: 0 <= i < |entries| ==> EntryHolds(entries[i], d)
    decreases entries, 0
  {
    if entries != [] {
      EntryPreserves(entries[0], d);
      EntriesPreserve(entries[1..], d);
      ConsAccepts(TranslateEntry(entries[0]).value, TranslateEntries(entries[1..]).value, d);
      assert forall i :: 0 < i < |entries| ==> entries[i] == entries[1..][i - 1];
      assert forall i :: 0 <= i < |entries| - 1 ==> entries[1..][i] == entries[i + 1];
    }
  }

  lemma {:induction false} EntryPreserves(e: (string, Value), d: Doc)
    requires FaithfulEntry(e) && TranslateEntry(e).Ok?
    ensures Accepts(TranslateEntry(e).value, d) <==> EntryHolds(e, d)
    decreases e, 0
  {
    if IsConnective(e.0) && e.1.Clauses? {
      var items := TranslateClauses(e.1.items).value;
      ClausesPreserve(e.1.items, d);
      AcceptsOne((e.0, Clauses(items)), d);
      assert e.0 == AND ==> (EntryHolds(e, d) <==> AllAccept(e.1.items, d));
      assert e.0 == OR ==> (EntryHolds(e, d) <==> SomeAccepts(e.1.items, d));
    } else if IsListIn(e.0, e.1) {
      var members := e.1.ops[IN].values;
      ContainmentAccepts(e.0, members, d);
      AcceptsOne((OR, Clauses(Containments(e.0, members))), d);
      assert IN in e.1.ops.Keys;
      assert EntryHolds(e, d) <==> OpHolds(d, e.0, IN, e.1.ops[IN]);
    } else {
      AcceptsOne(e, d);
    }
  }

  lemma {:induction false} ClausesPreserve(items: seq<Where>, d: Doc)
    requires forall i :: 0 <= i < |items| ==> Faithful(items[i])
    requires TranslateClauses(items).Ok?
    ensures AllAccept(TranslateClauses(items).value, d) <==> AllAccept(items, d)
    ensures NoFilter !in items ==> (SomeAccepts(TranslateClauses(items).value, d) <==> SomeAccepts(items, d))
    decreases items, 0
  {
    if items != [] {
      TranslatePreserves(items[0], d);
      ClausesPreserve(items[1..], d);
      var first, rest := Translate(items[0]).value, TranslateClauses(items[1..]).value;
      assert items == [items[0]] + items[1..];
      ConsAccepts(items[0], items[1..], d);
      TranslatedToNothing(items[0]);
      if first == NoFilter {
        assert [] + rest == rest;
        assert items[0] in items;
      } else {
        ConsAccepts(first, rest, d);
      }
      assert forall x :: x in items[1..] ==> x in items;
    }
  }

  // Only None translates to None.
  lemma TranslatedToNothing(w: Where)
    requires Translate(w).Ok?
    ensures Translate(w).value == NoFilter <==> w == NoFilter
    ensures Translate(w).value != NotAFilter
  {
    if w.Filter? {
      var clauses := TranslateEntries(w.entries).value;
      if |clauses| == 1 {
        assert clauses == [TranslateEntry(w.entries[0]).value] + TranslateEntries(w.entries[1..]).value;
      }
    }
  }

  // Collapsing never changes which documents pass, whatever the filter.
  lemma {:induction false} LegalizePreserves(w: Where, d: Doc)
    ensures Accepts(Legalize(w), d) <==> Accepts(w, d)
    decreases w, 1
  {
    if w.Filter? && |w.entries| == 1 && IsConnective(w.entries[0].0) && w.entries[0].1.Clauses? {
      var key, given := w.entries[0].0, w.entries[0].1.items;
      var items := LegalizeAll(given);
      LegalizeAllPreserves(given, d);
      assert w.entries == [w.entries[0]];
      AcceptsOne(w.entries[0], d);
      AcceptsOne((key, Clauses(items)), d);
      if |items| == 1 {
        assert Accepts(items[0], d) <==> Accepts(given[0], d);
      }
    }
  }

  lemma {:induction false} LegalizeAllPreserves(items: seq<Where>, d: Doc)
    ensures forall i :: 0 <= i < |items| ==> (Accepts(LegalizeAll(items)[i], d) <==> Accepts(items[i], d))
    decreases items, 0
  {
    if items != [] {
      LegalizePreserves(items[0], d);
      LegalizeAllPreserves(items[1..], d);
    }
  }

  // The filter Chroma receives accepts exactly the documents the caller's filter accepts.
  lemma QueryMeaning(w: Where, d: Doc)
    requires Faithful(w) && ChromaWhere(w).Ok?
    ensures Accepts(ChromaWhere(w).value, d) <==> Accepts(w, d)
  {
    TranslatePreserves(w, d);
    LegalizePreserves(Translate(w).value, d);
  }

  // --- and the two things translation may lose -------------------------------------

  // A second operator beside $in is dropped: asked for problem types among "tabular" that also contain
  // "text", the translated filter accepts a document that is tabular only.
  lemma OtherOperatorsAreDropped() returns (w: Where, d: Doc)
    ensures ChromaWhere(w).Ok? && Accepts(ChromaWhere(w).value, d) && !Accepts(w, d)
  {
    var ops := map[IN := Members(["tabular"]), CONTAINS := Single("text")];
    assert IN[1] == 'i' && CONTAINS[1] == 'c';
    assert IsListIn("problem_type", Operators(ops)) && ops[IN] == Members(["tabular"]);
    w := Filter([("problem_type", Operators(ops))]);
    d := Doc((k, v) => v == "tabular", (k, op, arg) => false, (k, v) => false);
    AcceptsOne(("problem_type", Operators(ops)), d);
    assert CONTAINS in ops && !OpHolds(d, "problem_type", CONTAINS, ops[CONTAINS]) by {
      assert |"text"| != |"tabular"|;
    }
    var cs := Containments("problem_type", ["tabular"]);
    var e, c := ("problem_type", Operators(ops)), Filter([(OR, Clauses(cs))]);
    assert TranslateEntry(e) == Ok(c);
    assert w.entries == [e] && [e][1..] == [] && TranslateEntries([e][1..]) == Ok([]);
    assert TranslateEntries([e]) == Ok([c] + []) && [c] + [] == [c];
    assert Translate(w) == Ok(c);
    ContainmentAccepts("problem_type", ["tabular"], d);
    assert "tabular" in ["tabular"];
    AcceptsOne((OR, Clauses(cs)), d);
    LegalizePreserves(Translate(w).value, d);
  }

  // A None among the clauses of an $or is dropped: the translated filter rejects documents the
  // caller's filter lets through.
  lemma NoneInOrIsDropped() returns (w: Where, d: Doc)
    ensures ChromaWhere(w).Ok? && !Accepts(ChromaWhere(w).value, d) && Accepts(w, d)
  {
    var e := ("source", Plain("kaggle"));
    var c := Filter([e]);
    w := Filter([(OR, Clauses([NoFilter, c]))]);
    d := Doc((k, v) => false, (k, op, arg) => false, (k, v) => false);
    AcceptsOne(e, d);
    AcceptsOne((OR, Clauses([NoFilter, c])), d);
    assert Accepts([NoFilter, c][0], d);
    assert TranslatedEntry(e) by {
      assert !IsConnective("source") by {
        assert "source"[0] == 's';
      }
    }
    TranslatedIsFixed(c);
    assert [NoFilter, c][1..] == [c] && [c][1..] == [];
    assert TranslateClauses([c]) == Ok([c] + []) && [c] + [] == [c];
    assert TranslateClauses([NoFilter, c]) == Ok([] + [c]) && [] + [c] == [c];
    var t := Filter([(OR, Clauses([c]))]);
    assert w.entries[1..] == [] && TranslateEntry(w.entries[0]) == Ok(t) && [t] + [] == [t];
    assert TranslateEntries(w.entries) == Ok([t] + []);
    assert Translate(w) == Ok(t);
    AcceptsOne((OR, Clauses([c])), d);
    LegalizePreserves(t, d);
  }

  // --- exactly when each of them is lost -------------------------------------------

  // Every operator beside $in follows from it: it is the $contains of the one member asked for.
  predicate Redundant(ops: map<string, Operand>)
    requires IN in ops && ops[IN].Members?
  {
    forall op :: op in ops && op != IN ==>
      op == CONTAINS && ops[op].Single? && forall v :: v in ops[IN].values ==> v == ops[op].value
  }

  // A list field's operator dict keeps its meaning exactly when what is dropped was redundant. Operators
  // other than $in and $contains are not interpreted, so where one of those is dropped the document
  // that tells the difference is an abstract one.
  lemma InKeepsMeaningIff(key: string, ops: map<string, Operand>)
    requires key in LIST_FIELDS && IN in ops && TranslateEntry((key, Operators(ops))).Ok?
    ensures
      var e := (key, Operators(ops));
      (forall d :: Accepts(TranslateEntry(e).value, d) <==> EntryHolds(e, d)) <==> Redundant(ops)
  {
    var e, values := (key, Operators(ops)), ops[IN].values;
    forall d ensures Accepts(TranslateEntry(e).value, d) <==> exists v :: v in values && d.members(key, v) {
      InMeans(key, ops, d);
    }
    if !Redundant(ops) {
      var op :| op in ops && op != IN
        && !(op == CONTAINS && ops[op].Single? && forall v :: v in values ==> v == ops[op].value);
      var d := Excluding(key, ops, op);
    }
  }

  lemma InMeans(key: string, ops: map<string, Operand>, d: Doc)
    requires key in LIST_FIELDS && IN in ops && TranslateEntry((key, Operators(ops))).Ok?
    ensures Accepts(TranslateEntry((key, Operators(ops))).value, d) <==>
              exists v :: v in ops[IN].values && d.members(key, v)
  {
    assert !IsConnective(key);
    var cs := Containments(key, ops[IN].values);
    ContainmentAccepts(key, ops[IN].values, d);
    AcceptsOne((OR, Clauses(cs)), d);
  }

  // A document with a member asked for that the other operator rules out.
  lemma Excluding(key: string, ops: map<string, Operand>, op: string) returns (d: Doc)
    requires key in LIST_FIELDS && IN in ops && TranslateEntry((key, Operators(ops))).Ok?
    requires op in ops && op != IN
    requires !(op == CONTAINS && ops[op].Single? && forall v :: v in ops[IN].values ==> v == ops[op].value)
    ensures Accepts(TranslateEntry((key, Operators(ops))).value, d) && !EntryHolds((key, Operators(ops)), d)
  {
    var values := ops[IN].values;
    if op == CONTAINS && ops[op].Single? {
      var v :| v in values && v != ops[op].value;
      d := Doc((k, m) => m == v, (k, o, arg) => false, (k, x) => false);
      assert d.members(key, v);
    } else {
      d := Doc((k, m) => true, (k, o, arg) => false, (k, x) => false);
      assert values[0] in values && d.members(key, values[0]);
    }
    InMeans(key, ops, d);
    assert !OpHolds(d, key, op, ops[op]);
  }

  // The document no single condition holds of.
  function Blank(): Doc {
    Doc((k, v) => false, (k, op, arg) => false, (k, v) => false)
  }

  // Filters know no negation: what accepts the blank document accepts every document.
  lemma {:induction false} BlankIsLeast(w: Where, d: Doc)
    requires Accepts(w, Blank())
    ensures Accepts(w, d)
    decreases w, 1
  {
    if w.Filter? {
      forall i | 0 <= i < |w.entries| ensures EntryHolds(w.entries[i], d) {
        EntryBlankIsLeast(w.entries[i], d);
      }
    }
  }

  lemma {:induction false} EntryBlankIsLeast(e: (string, Value), d: Doc)
    requires EntryHolds(e, Blank())
    ensures EntryHolds(e, d)
    decreases e, 0
  {
    match e.1
    case Clauses(items) =>
      forall i | 0 <= i < |items| && Accepts(items[i], Blank()) ensures Accepts(items[i], d) {
        BlankIsLeast(items[i], d);
      }
    case Operators(ops) =>
      BlankMeetsNoOperator(e.0, ops);
    case Plain(_) =>
  }

  lemma BlankMeetsNoOperator(key: string, ops: map<string, Operand>)
    ensures (forall op :: op in ops ==> OpHolds(Blank(), key, op, ops[op])) ==> ops == map[]
  {
    if op :| op in ops {
      assert !OpHolds(Blank(), key, op, ops[op]);
    }
  }

  ghost predicate SomeOther(items: seq<Where>, d: Doc) {
    exists i :: 0 <= i < |items| && items[i] != NoFilter && Accepts(items[i], d)
  }

  lemma {:induction false} OthersAreKept(items: seq<Where>, d: Doc)
    requires forall i :: 0 <= i < |items| ==> Faithful(items[i])
    requires TranslateClauses(items).Ok?
    ensures SomeAccepts(TranslateClauses(items).value, d) <==> SomeOther(items, d)
  {
    if items != [] {
      var rest := items[1..];
      TranslatePreserves(items[0], d);
      TranslatedToNothing(items[0]);
      OthersAreKept(rest, d);
      ConsAccepts(Translate(items[0]).value, TranslateClauses(rest).value, d);
      assert [] + TranslateClauses(rest).value == TranslateClauses(rest).value;
      ConsOther(items, d);
    }
  }

  lemma ConsOther(items: seq<Where>, d: Doc)
    requires items != []
    ensures SomeOther(items, d) <==> (items[0] != NoFilter && Accepts(items[0], d)) || SomeOther(items[1..], d)
  {
    var rest := items[1..];
    assert forall i :: 0 < i < |items| ==> items[i] == rest[i - 1];
    if i :| 0 <= i < |rest| && rest[i] != NoFilter && Accepts(rest[i], d) {
      assert items[i + 1] == rest[i];
    }
  }

  // An $or over faithful clauses keeps its meaning exactly when it holds no None, or some other of its
  // clauses accepts everything anyway.
  lemma OrKeepsMeaningIff(items: seq<Where>)
    requires forall i :: 0 <= i < |items| ==> Faithful(items[i])
    requires TranslateClauses(items).Ok?
    ensures (forall d :: SomeAccepts(TranslateClauses(items).value, d) <==> SomeAccepts(items, d)) <==>
              NoFilter !in items || SomeOther(items, Blank())
  {
    forall d ensures SomeAccepts(TranslateClauses(items).value, d) <==> SomeOther(items, d) {
      OthersAreKept(items, d);
    }
    if NoFilter in items {
      var k :| 0 <= k < |items| && items[k] == NoFilter;
      assert forall d :: Accepts(items[k], d);
      if i :| 0 <= i < |items| && items[i] != NoFilter && Accepts(items[i], Blank()) {
        forall d ensures Accepts(items[i], d) {
          BlankIsLeast(items[i], d);
        }
      }
    }
  }

  // --- the normal form -------------------------------------------------------------

  // What Chroma takes: one key per dict, at least two clauses under each connective, and no $in on a
  // list-valued field.
  ghost predicate Legal(w: Where)
    decreases w, 1
  {
    w.Filter? && |w.entries| == 1 && LegalEntry(w.entries[0])
  }

  ghost predicate LegalEntry(e: (string, Value))
    decreases e, 0
  {
    && !IsListIn(e.0, e.1)
    && (IsConnective(e.0) && e.1.Clauses? ==>
          |e.1.items| >= 2 && forall i :: 0 <= i < |e.1.items| ==> Legal(e.1.items[i]))
  }

  lemma LegalEntries(key: string, ops: map<string, Operand>, items: seq<Where>, value: Atom)
    ensures LegalEntry((key, Plain(value)))
    ensures LegalEntry((key, Operators(ops))) <==>
              key !in {"problem_type", "methods_used", "dataset_characteristics"} || "$in" !in ops
    ensures LegalEntry((key, Clauses(items))) <==>
              (key in {"$and", "$or"} ==> |items| >= 2 && forall i :: 0 <= i < |items| ==> Legal(items[i]))
    ensures forall entries :: Legal(Filter(entries)) <==> |entries| == 1 && LegalEntry(entries[0])
    ensures !Legal(NoFilter) && !Legal(NotAFilter)
  {
  }

  // The filters it can be reached from: no empty dict, and under each connective at least one clause
  // that is not None.
  ghost predicate Clean(w: Where)
    decreases w, 1
  {
    w.Filter? && w.entries != [] && forall i :: 0 <= i < |w.entries| ==> CleanEntry(w.entries[i])
  }

  ghost predicate CleanEntry(e: (string, Value))
    decreases e, 0
  {
    IsConnective(e.0) && e.1.Clauses? ==>
      && (exists i :: 0 <= i < |e.1.items| && e.1.items[i] != NoFilter)
      && forall i :: 0 <= i < |e.1.items| ==> e.1.items[i] == NoFilter || Clean(e.1.items[i])
  }

  ghost predicate AllLegalized(ws: seq<Where>) {
    forall i :: 0 <= i < |ws| ==> Legal(Legalize(ws[i]))
  }

  // Collapsing a connective succeeds exactly when it has a clause and its clauses collapse.
  lemma LegalizedConnective(key: string, items: seq<Where>)
    requires IsConnective(key)
    ensures Legal(Legalize(Filter([(key, Clauses(items))]))) <==> items != [] && AllLegalized(items)
  {
    LegalizeAllAt(items);
    var all := LegalizeAll(items);
    if |items| != 1 {
      assert Legalize(Filter([(key, Clauses(items))])) == Filter([(key, Clauses(all))]);
      assert LegalEntry((key, Clauses(all))) <==> |all| >= 2 && forall i :: 0 <= i < |all| ==> Legal(all[i]);
    }
  }

  lemma {:induction false} LegalizeAllAt(items: seq<Where>)
    ensures forall i :: 0 <= i < |items| ==> LegalizeAll(items)[i] == Legalize(items[i])
    decreases items
  {
    if items != [] {
      LegalizeAllAt(items[1..]);
    }
  }

  lemma LegalizedCombination(clauses: seq<Where>)
    ensures Legal(Legalize(Combine(clauses))) <==> clauses != [] && AllLegalized(clauses)
  {
    if |clauses| > 1 {
      LegalizedConnective(AND, clauses);
    }
  }

  // Translating and collapsing reaches the normal form from exactly the clean filters.
  lemma {:induction false} QueryIsLegal(w: Where)
    requires w.Filter? && ChromaWhere(w).Ok?
    ensures Legal(ChromaWhere(w).value) <==> Clean(w)
    decreases w, 1
  {
    EntriesLegal(w.entries);
    LegalizedCombination(TranslateEntries(w.entries).value);
  }

  lemma {:induction false} EntriesLegal(entries: seq<(string, Value)>)
    requires TranslateEntries(entries).Ok?
    ensures AllLegalized(TranslateEntries(entries).value) <==>
            forall i :: 0 <= i < |entries| ==> CleanEntry(entries[i])
    decreases entries, 0
  {
    if entries != [] {
      EntryLegal(entries[0]);
      EntriesLegal(entries[1..]);
      var first, rest := TranslateEntry(entries[0]).value, TranslateEntries(entries[1..]).value;
      ConsLegalized(first, rest);
      assert forall i :: 0 < i < |entries| ==> entries[i] == entries[1..][i - 1];
      assert forall i :: 0 <= i < |entries| - 1 ==> entries[1..][i] == entries[i + 1];
    }
  }

  lemma ConsLegalized(w: Where, ws: seq<Where>)
    ensures AllLegalized([w] + ws) <==> Legal(Legalize(w)) && AllLegalized(ws)
  {
    var all := [w] + ws;
    assert all[0] == w && forall i :: 0 <= i < |ws| ==> all[i + 1] == ws[i];
  }

  lemma {:induction false} EntryLegal(e: (string, Value))
    requires TranslateEntry(e).Ok?
    ensures Legal(Legalize(TranslateEntry(e).value)) <==> CleanEntry(e)
    decreases e, 0
  {
    if IsConnective(e.0) && e.1.Clauses? {
      ClausesLegal(e.1.items);
      LegalizedConnective(e.0, TranslateClauses(e.1.items).value);
    } else if IsListIn(e.0, e.1) {
      var cs := Containments(e.0, e.1.ops[IN].values);
      forall i | 0 <= i < |cs| ensures Legal(Legalize(cs[i])) {
        ContainmentIsLegal(e.0, e.1.ops[IN].values[i]);
      }
      LegalizedConnective(OR, cs);
    }
  }

  lemma ContainmentIsLegal(key: string, member: Atom)
    ensures Legal(Containment(key, member)) && Legalize(Containment(key, member)) == Containment(key, member)
  {
    assert IN !in map[CONTAINS := Single(member)];
  }

  lemma {:induction false} ClausesLegal(items: seq<Where>)
    requires TranslateClauses(items).Ok?
    ensures TranslateClauses(items).value != [] <==> exists i :: 0 <= i < |items| && items[i] != NoFilter
    ensures AllLegalized(TranslateClauses(items).value) <==>
            forall i :: 0 <= i < |items| ==> items[i] == NoFilter || Clean(items[i])
    decreases items, 0
  {
    if items != [] {
      var first, rest := Translate(items[0]).value, TranslateClauses(items[1..]).value;
      ClausesLegal(items[1..]);
      TranslatedToNothing(items[0]);
      assert forall i :: 0 < i < |items| ==> items[i] == items[1..][i - 1];
      assert forall i :: 0 <= i < |items| - 1 ==> items[1..][i] == items[i + 1];
      if first == NoFilter {
        assert [] + rest == rest;
      } else {
        QueryIsLegal(items[0]);
        ConsLegalized(first, rest);
        assert ([first] + rest)[0] == first;
      }
    }
  }

  // --- both passes are idempotent --------------------------------------------------

  // The shape translation produces, clean or not.
  ghost predicate Translated(w: Where)
    decreases w, 1
  {
    w == NoFilter || (w.Filter? && (w.entries == [] || (|w.entries| == 1 && TranslatedEntry(w.entries[0]))))
  }

  ghost predicate TranslatedEntry(e: (string, Value))
    decreases e, 0
  {
    && !IsListIn(e.0, e.1)
    && (IsConnective(e.0) && e.1.Clauses? ==> AllTranslated(e.1.items))
  }

  ghost predicate AllTranslated(items: seq<Where>)
    decreases items, 2
  {
    forall i :: 0 <= i < |items| ==> items[i] != NoFilter && Translated(items[i])
  }

  lemma {:induction false} TranslatedIsFixed(w: Where)
    requires Translated(w)
    ensures Translate(w) == Ok(w)
    decreases w, 1
  {
    if w.Filter? && w.entries != [] {
      var e := w.entries[0];
      assert w.entries == [e] && w.entries[1..] == [];
      if IsConnective(e.0) && e.1.Clauses? {
        TranslatedClausesAreFixed(e.1.items);
      }
      assert TranslateEntry(e) == Ok(w);
      assert TranslateEntries(w.entries[1..]) == Ok([]) && [w] + [] == [w];
      assert TranslateEntries(w.entries) == Ok([w]);
    }
  }

  lemma {:induction false} TranslatedClausesAreFixed(items: seq<Where>)
    requires AllTranslated(items)
    ensures TranslateClauses(items) == Ok(items)
    decreases items, 0
  {
    if items != [] {
      RestTranslated(items);
      hide AllTranslated, Translated;
      TranslatedIsFixed(items[0]);
      TranslatedClausesAreFixed(items[1..]);
      assert [items[0]] + items[1..] == items;
    }
  }

  lemma RestTranslated(items: seq<Where>)
    requires AllTranslated(items) && items != []
    ensures items[0] != NoFilter && Translated(items[0]) && AllTranslated(items[1..])
  {
  }

  lemma {:induction false} TranslationIsTranslated(w: Where)
    requires Translate(w).Ok?
    ensures Translated(Translate(w).value)
    decreases w, 1
  {
    if w.Filter? {
      EntriesAreTranslated(w.entries);
      var clauses := TranslateEntries(w.entries).value;
      if |clauses| > 1 {
        assert TranslatedEntry((AND, Clauses(clauses)));
      }
    }
  }

  lemma {:induction false} EntriesAreTranslated(entries: seq<(string, Value)>)
    requires TranslateEntries(entries).Ok?
    ensures AllTranslated(TranslateEntries(entries).value)
    decreases entries, 0
  {
    if entries != [] {
      EntryIsTranslated(entries[0]);
      EntriesAreTranslated(entries[1..]);
    }
  }

  lemma {:induction false} EntryIsTranslated(e: (string, Value))
    requires TranslateEntry(e).Ok?
    ensures Translated(TranslateEntry(e).value) && TranslateEntry(e).value != NoFilter
    decreases e, 0
  {
    if IsConnective(e.0) && e.1.Clauses? {
      ClausesAreTranslated(e.1.items);
    } else if IsListIn(e.0, e.1) {
      var cs := Containments(e.0, e.1.ops[IN].values);
      forall i | 0 <= i < |cs| ensures Translated(cs[i]) {
        assert IN !in map[CONTAINS := Single(e.1.ops[IN].values[i])];
      }
      assert TranslatedEntry((OR, Clauses(cs)));
    }
  }

  lemma {:induction false} ClausesAreTranslated(items: seq<Where>)
    requires TranslateClauses(items).Ok?
    ensures AllTranslated(TranslateClauses(items).value)
    decreases items, 0
  {
    if items != [] {
      TranslationIsTranslated(items[0]);
      ClausesAreTranslated(items[1..]);
    }
  }

  lemma TranslateIsIdempotent(w: Where)
    requires Translate(w).Ok?
    ensures Translate(Translate(w).value) == Translate(w)
  {
    TranslationIsTranslated(w);
    TranslatedIsFixed(Translate(w).value);
  }

  lemma {:induction false} LegalizeIsIdempotent(w: Where)
    ensures Legalize(Legalize(w)) == Legalize(w)
    decreases w, 1
  {
    if w.Filter? && |w.entries| == 1 && IsConnective(w.entries[0].0) && w.entries[0].1.Clauses? {
      LegalizeAllIsIdempotent(w.entries[0].1.items);
      LegalizeAllAt(w.entries[0].1.items);
    }
  }

  lemma {:induction false} LegalizeAllIsIdempotent(items: seq<Where>)
    ensures LegalizeAll(LegalizeAll(items)) == LegalizeAll(items)
    decreases items, 0
  {
    if items != [] {
      LegalizeIsIdempotent(items[0]);
      LegalizeAllIsIdempotent(items[1..]);
      assert LegalizeAll(items)[1..] == LegalizeAll(items[1..]);
    }
  }
}
