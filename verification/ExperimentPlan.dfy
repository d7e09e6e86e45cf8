// src/nodes/llm/experiment_designer.py's plan of ranked changes, and validate_rank_permutation of
// src/nodes/llm/_evaluation_llm_common.py. Every rejection is the one ValueError.
module ExperimentPlan {
  import opened Common
  import opened JsonValues
  import opened Rankings
  import opened Text

  // validate_rank_permutation
  predicate IsRankPermutation(values: seq<int>) {
    Sorted(values) == UpTo(|values|)
  }

  // A ranking is accepted exactly when it has no repeat and no rank outside 1..n, so no gap either.
  lemma RankingIsPermutation(values: seq<int>)
    ensures IsRankPermutation(values) <==> Distinct(values) && InRange(values)
  {
    SortedTestIsOneEach(values, |values|);
    OneEachIsDistinct(values);
  }

  // --- the plan --------------------------------------------------------------------

  datatype Change = Change(order: int, change: string, target: string, hypothesisId: string, expectedEffect: string)

  datatype Plan = Plan(changes: seq<Change>, rationale: string)

  const MAX_CHANGES := 6

  const CHANGE_TARGETS := {"solution_plan", "feature_spec", "experiment_design", "data"}

  predicate Blank(s: string) {
    Strip(s) == ""
  }

  predicate Filled(value: Value) {
    value.Str? && !Blank(value.s)
  }

  // _validate_change; an integer here is never a boolean.
  function ValidateChange(entry: Value): Option<Change> {
    if !entry.Obj? then None
    else
      var order, change, target := Lookup(entry.dict, "order"), Lookup(entry.dict, "change"), Lookup(entry.dict, "target");
      var id, effect := Lookup(entry.dict, "hypothesis_id"), Lookup(entry.dict, "expected_effect");
      if order.Int? && Filled(change) && target.Str? && target.s in CHANGE_TARGETS && Filled(id) && Filled(effect)
      then Some(Change(order.i, change.s, target.s, id.s, effect.s))
      else None
  }

  function ChangesOf(items: seq<Value>): (r: Option<seq<Change>>)
    ensures r.Some? ==> |r.value| == |items|
  {
    if items == [] then Some([])
    else
      var first, rest := ValidateChange(items[0]), ChangesOf(items[1..]);
      if first.None? || rest.None? then None else Some([first.value] + rest.value)
  }

  // sorted(changes, key=order), which keeps equal keys in place.
  function InsertChange(c: Change, s: seq<Change>): seq<Change> {
    if s == [] || c.order <= s[0].order then [c] + s else [s[0]] + InsertChange(c, s[1..])
  }

  function SortChanges(s: seq<Change>): seq<Change> {
    if s == [] then [] else InsertChange(s[0], SortChanges(s[1..]))
  }

  function Orders(s: seq<Change>): (r: seq<int>)
    ensures |r| == |s|
  {
    seq(|s|, i requires 0 <= i < |s| => s[i].order)
  }

  function ArrangeChanges(changes: seq<Change>): Option<seq<Change>> {
    if 1 <= |changes| <= MAX_CHANGES && IsRankPermutation(Orders(changes)) then Some(SortChanges(changes)) else None
  }

  // _validate_experiment_plan
  function ValidatePlan(data: Dict): Option<Plan> {
    var changes, rationale := Lookup(data, "changes"), Lookup(data, "rationale");
    if !changes.List? || ChangesOf(changes.items).None? || !Filled(rationale) then None
    else
      match ArrangeChanges(ChangesOf(changes.items).value)
      case None => None
      case Some(arranged) => Some(Plan(arranged, rationale.s))
  }

  lemma OrdersCons(c: Change, s: seq<Change>)
    ensures Orders([c] + s) == [c.order] + Orders(s)
  {
  }

  lemma {:induction false} InsertChangeOrders(c: Change, s: seq<Change>)
    ensures Orders(InsertChange(c, s)) == Insert(c.order, Orders(s))
  {
    if s != [] && c.order > s[0].order {
      InsertChangeOrders(c, s[1..]);
      assert Orders(s)[1..] == Orders(s[1..]);
      OrdersCons(s[0], InsertChange(c, s[1..]));
    } else {
      OrdersCons(c, s);
    }
  }

  lemma {:induction false} InsertChangeKeeps(c: Change, s: seq<Change>)
    ensures multiset(InsertChange(c, s)) == multiset{c} + multiset(s)
  {
    if s != [] && c.order > s[0].order {
      InsertChangeKeeps(c, s[1..]);
      assert s == [s[0]] + s[1..];
    }
  }

  lemma {:induction false} SortChangesKeeps(s: seq<Change>)
    ensures multiset(SortChanges(s)) == multiset(s)
  {
    hide InsertChange;
    if s != [] {
      SortChangesKeeps(s[1..]);
      InsertChangeKeeps(s[0], SortChanges(s[1..]));
      assert s == [s[0]] + s[1..];
    }
  }

  lemma {:induction false} SortChangesOrders(s: seq<Change>)
    ensures Orders(SortChanges(s)) == Sorted(Orders(s))
  {
    hide Insert, InsertChange, Ascending;
    if s != [] {
      SortChangesOrders(s[1..]);
      InsertChangeOrders(s[0], SortChanges(s[1..]));
      assert Orders(s)[1..] == Orders(s[1..]);
    }
  }

  // The accepted change ranked i + 1 stands at position i, and no change is lost, added or altered.
  lemma ChangesStandInOrder(changes: seq<Change>)
    ensures ArrangeChanges(changes).Some? <==>
              1 <= |changes| <= MAX_CHANGES && Distinct(Orders(changes)) && InRange(Orders(changes))
    ensures ArrangeChanges(changes).Some? ==>
              var arranged := ArrangeChanges(changes).value;
              && multiset(arranged) == multiset(changes)
              && Orders(arranged) == UpTo(|changes|)
  {
    RankingIsPermutation(Orders(changes));
    SortChangesOrders(changes);
    SortChangesKeeps(changes);
  }

  lemma {:induction false} SortedStays(s: seq<Change>)
    requires Ascending(Orders(s))
    ensures SortChanges(s) == s
  {
    if s != [] {
      assert Orders(s)[1..] == Orders(s[1..]);
      SortedStays(s[1..]);
      if |s| > 1 {
        assert Orders(s[1..])[0] in multiset(Orders(s[1..]));
      }
      assert s == [s[0]] + s[1..];
    }
  }

  // Arranging an arranged plan changes nothing.
  lemma ArrangingIsIdempotent(changes: seq<Change>)
    ensures ArrangeChanges(changes).Some? ==>
              ArrangeChanges(ArrangeChanges(changes).value) == ArrangeChanges(changes)
  {
    hide SortChanges, Sorted, UpTo;
    if ArrangeChanges(changes).Some? {
      var arranged, n := ArrangeChanges(changes).value, |changes|;
      ChangesStandInOrder(changes);
      assert |Orders(arranged)| == n;
      ChangesStandInOrder(arranged);
      UpToAscends(n, 0);
      assert UpTo(n)[0..] == UpTo(n);
      SortedStays(arranged);
    }
  }

  // A change is accepted exactly when its five fields are there, sound, and nothing else counts.
  lemma ChangeAcceptedIff(entry: Value, c: Change)
    ensures ValidateChange(entry) == Some(c) <==>
              && entry.Obj? && Lookup(entry.dict, "order") == Int(c.order)
              && Lookup(entry.dict, "change") == Str(c.change) && Strip(c.change) != ""
              && Lookup(entry.dict, "target") == Str(c.target)
              && c.target in {"solution_plan", "feature_spec", "experiment_design", "data"}
              && Lookup(entry.dict, "hypothesis_id") == Str(c.hypothesisId) && Strip(c.hypothesisId) != ""
              && Lookup(entry.dict, "expected_effect") == Str(c.expectedEffect) && Strip(c.expectedEffect) != ""
  {
    hide Strip, Lookup;
  }

  lemma {:induction false} ChangesAcceptedIff(items: seq<Value>, changes: seq<Change>)
    ensures ChangesOf(items) == Some(changes) <==>
              |items| == |changes| && forall i :: 0 <= i < |items| ==> ValidateChange(items[i]) == Some(changes[i])
  {
    hide ValidateChange;
    if items != [] {
      if changes != [] {
        ChangesAcceptedIff(items[1..], changes[1..]);
        assert changes == [changes[0]] + changes[1..];
        assert forall i :: 0 < i < |items| ==> items[i] == items[1..][i - 1];
        assert forall i :: 0 < i < |changes| ==> changes[i] == changes[1..][i - 1];
      }
    }
  }

  // A plan is accepted exactly when it gives one to six acceptable changes, ranked by a permutation of
  // 1..n, and a rationale.
  lemma PlanAcceptedIff(data: Dict)
    ensures
      var changes, rationale := Lookup(data, "changes"), Lookup(data, "rationale");
      && (ValidatePlan(data).Some? <==>
            && rationale.Str? && Strip(rationale.s) != "" && changes.List?
            && ChangesOf(changes.items).Some?
            && 1 <= |changes.items| <= 6
            && Distinct(Orders(ChangesOf(changes.items).value)) && InRange(Orders(ChangesOf(changes.items).value)))
      && (ValidatePlan(data).Some? ==> rationale == Str(ValidatePlan(data).value.rationale))
  {
    hide Strip, Lookup, SortChanges, Sorted, UpTo;
    var changes := Lookup(data, "changes");
    if changes.List? && ChangesOf(changes.items).Some? {
      ChangesStandInOrder(ChangesOf(changes.items).value);
    }
  }

  // --- the whole plan --------------------------------------------------------------

  ghost predicate SoundChange(c: Change) {
    !Blank(c.change) && c.target in CHANGE_TARGETS && !Blank(c.hypothesisId) && !Blank(c.expectedEffect)
  }

  // What the next iteration may rely on.
  ghost predicate SoundPlan(p: Plan) {
    && 1 <= |p.changes| <= MAX_CHANGES && !Blank(p.rationale)
    && (forall i :: 0 <= i < |p.changes| ==> SoundChange(p.changes[i]) && p.changes[i].order == i + 1)
  }

  function ChangeJson(c: Change): Value {
    Obj(map["order" := Int(c.order), "change" := Str(c.change), "target" := Str(c.target),
            "hypothesis_id" := Str(c.hypothesisId), "expected_effect" := Str(c.expectedEffect)])
  }

  function PlanJson(p: Plan): Dict {
    map["changes" := List(seq(|p.changes|, i requires 0 <= i < |p.changes| => ChangeJson(p.changes[i]))),
        "rationale" := Str(p.rationale)]
  }

  lemma ChangeRebuilt(c: Change)
    ensures ValidateChange(ChangeJson(c)) == if SoundChange(c) then Some(c) else None
  {
    hide Strip;
    var d := ChangeJson(c).dict;
    assert Lookup(d, "order") == Int(c.order) && Lookup(d, "change") == Str(c.change);
    assert Lookup(d, "target") == Str(c.target) && Lookup(d, "hypothesis_id") == Str(c.hypothesisId);
    assert Lookup(d, "expected_effect") == Str(c.expectedEffect);
  }

  lemma {:induction false} ChangesAreSound(items: seq<Value>)
    requires ChangesOf(items).Some?
    ensures forall i :: 0 <= i < |items| ==> SoundChange(ChangesOf(items).value[i])
    ensures forall i :: 0 <= i < |items| ==> ValidateChange(items[i]) == Some(ChangesOf(items).value[i])
  {
    hide Strip;
    if items != [] {
      ChangesAreSound(items[1..]);
      assert forall i :: 0 < i < |items| ==> items[i] == items[1..][i - 1];
    }
  }

  // An accepted plan has between one and six sound changes, change i + 1 at position i, and they are
  // the changes given.
  lemma AcceptedPlanIsSound(data: Dict)
    ensures ValidatePlan(data).Some? ==>
              var plan, given := ValidatePlan(data).value, ChangesOf(Lookup(data, "changes").items);
              && SoundPlan(plan)
              && given.Some? && multiset(plan.changes) == multiset(given.value)
  {
    hide Strip, ChangesOf, SortChanges, IsRankPermutation, SoundChange;
    if ValidatePlan(data).Some? {
      var plan, items := ValidatePlan(data).value, Lookup(data, "changes").items;
      var given := ChangesOf(items).value;
      ChangesStandInOrder(given);
      ChangesAreSound(items);
      forall i | 0 <= i < |plan.changes| ensures SoundChange(plan.changes[i]) && plan.changes[i].order == i + 1 {
        assert plan.changes[i] in multiset(given);
        assert Orders(plan.changes)[i] == i + 1;
      }
    }
  }

  lemma {:induction false} ChangesRebuilt(changes: seq<Change>, items: seq<Value>)
    requires |items| == |changes| && forall i :: 0 <= i < |items| ==> items[i] == ChangeJson(changes[i]) && SoundChange(changes[i])
    ensures ChangesOf(items) == Some(changes)
  {
    hide ChangeJson, SoundChange, ValidateChange;
    if items != [] {
      ChangeRebuilt(changes[0]);
      ChangesRebuilt(changes[1..], items[1..]);
      assert changes == [changes[0]] + changes[1..];
    }
  }

  lemma OrderedIsArranged(changes: seq<Change>)
    requires 1 <= |changes| <= MAX_CHANGES && forall i :: 0 <= i < |changes| ==> changes[i].order == i + 1
    ensures ArrangeChanges(changes) == Some(changes)
  {
    var n := |changes|;
    assert Orders(changes) == UpTo(n);
    hide Sorted, SortChanges;
    UpToAscends(n, 0);
    assert UpTo(n)[0..] == UpTo(n);
    hide UpTo;
    SortedStays(changes);
    ChangesStandInOrder(changes);
    SortChangesOrders(changes);
  }

  lemma PlanLookups(p: Plan)
    ensures
      var changes := Lookup(PlanJson(p), "changes");
      && changes.List? && |changes.items| == |p.changes|
      && (forall i :: 0 <= i < |p.changes| ==> changes.items[i] == ChangeJson(p.changes[i]))
      && Lookup(PlanJson(p), "rationale") == Str(p.rationale)
  {
    hide ChangeJson;
  }

  // A sound plan is written and accepted again, unchanged.
  lemma PlanIsFixpoint(p: Plan)
    requires SoundPlan(p)
    ensures ValidatePlan(PlanJson(p)) == Some(p)
  {
    PlanLookups(p);
    hide PlanJson, Blank, ChangeJson, SoundChange, ArrangeChanges, ChangesOf;
    ChangesRebuilt(p.changes, Lookup(PlanJson(p), "changes").items);
    OrderedIsArranged(p.changes);
  }
}
