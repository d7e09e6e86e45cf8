// Sorting lists of integers, and the test both src/nodes/llm/memory_manager.py and
// src/nodes/llm/_evaluation_llm_common.py make: does the sorted list equal 1..n?
module Rankings {
  ghost predicate Ascending(s: seq<int>) {
    s == [] || ((forall x :: x in multiset(s[1..]) ==> s[0] <= x) && Ascending(s[1..]))
  }

  function Insert(x: int, s: seq<int>): (r: seq<int>)
    ensures multiset(r) == multiset{x} + multiset(s)
    ensures Ascending(s) ==> Ascending(r)
  {
    if s == [] then [x]
    else
      assert s == [s[0]] + s[1..];
      if x <= s[0] then
        assert ([x] + s)[1..] == s;
        [x] + s
      else
        var r := Insert(x, s[1..]);
        assert ([s[0]] + r)[1..] == r;
        [s[0]] + r
  }

  // sorted(s)
  function Sorted(s: seq<int>): (r: seq<int>)
    ensures Ascending(r) && multiset(r) == multiset(s)
  {
    if s == [] then []
    else
      assert s == [s[0]] + s[1..];
      Insert(s[0], Sorted(s[1..]))
  }

  // list(range(1, n + 1))
  function UpTo(n: nat): (r: seq<int>)
    ensures |r| == n && forall i :: 0 <= i < n ==> r[i] == i + 1
  {
    if n == 0 then [] else UpTo(n - 1) + [n]
  }

  lemma {:induction false} UpToAscends(n: nat, k: nat)
    requires k <= n
    ensures Ascending(UpTo(n)[k..])
    decreases n - k
  {
    if k < n {
      UpToAscends(n, k + 1);
      var s := UpTo(n)[k..];
      assert s[1..] == UpTo(n)[k + 1..];
      assert forall x :: x in multiset(s[1..]) ==> x in s[1..];
    }
  }

  lemma LeastFirst(a: seq<int>, x: int)
    requires a != [] && Ascending(a) && x in multiset(a)
    ensures a[0] <= x
  {
    assert a == [a[0]] + a[1..];
  }

  lemma WithoutFirst(s: seq<int>)
    requires s != []
    ensures multiset(s[1..]) == multiset(s) - multiset{s[0]}
  {
    assert s == [s[0]] + s[1..];
  }

  lemma WithoutElement(s: seq<int>, k: nat)
    requires k < |s|
    ensures multiset(s[..k] + s[k + 1..]) == multiset(s) - multiset{s[k]}
  {
    assert s == s[..k] + [s[k]] + s[k + 1..];
  }

  // Two ascending sequences of the same elements are the same sequence.
  lemma {:induction false} AscendingIsUnique(a: seq<int>, b: seq<int>)
    requires Ascending(a) && Ascending(b) && multiset(a) == multiset(b)
    ensures a == b
  {
    assert |multiset(a)| == |a| && |multiset(b)| == |b|;
    if a != [] {
      assert a[0] in multiset(a) && b[0] in multiset(b);
      LeastFirst(a, b[0]);
      LeastFirst(b, a[0]);
      WithoutFirst(a);
      WithoutFirst(b);
      AscendingIsUnique(a[1..], b[1..]);
    }
  }

  lemma {:induction false} UpToCounts(n: nat, x: int)
    ensures multiset(UpTo(n))[x] == if 1 <= x <= n then 1 else 0
  {
    if n > 0 {
      UpToCounts(n - 1, x);
      SnocCounts(UpTo(n - 1), n, x);
    }
  }

  lemma SnocCounts(s: seq<int>, last: int, x: int)
    ensures multiset(s + [last])[x] == multiset(s)[x] + if x == last then 1 else 0
  {
  }

  // Every number from 1 to n once, and nothing else.
  ghost predicate OneEach(s: seq<int>, n: nat) {
    forall x :: multiset(s)[x] == if 1 <= x <= n then 1 else 0
  }

  lemma SortedTestIsOneEach(s: seq<int>, n: nat)
    ensures Sorted(s) == UpTo(n) <==> OneEach(s, n)
  {
    forall x ensures multiset(UpTo(n))[x] == if 1 <= x <= n then 1 else 0 {
      UpToCounts(n, x);
    }
    if OneEach(s, n) {
      assert multiset(s) == multiset(UpTo(n));
      UpToAscends(n, 0);
      assert UpTo(n)[0..] == UpTo(n);
      AscendingIsUnique(Sorted(s), UpTo(n));
    }
  }

  predicate Distinct(s: seq<int>) {
    forall i, j :: 0 <= i < j < |s| ==> s[i] != s[j]
  }

  lemma {:induction false} DistinctByCount(s: seq<int>)
    ensures Distinct(s) <==> forall x :: multiset(s)[x] <= 1
  {
    if s != [] {
      var rest := s[1..];
      DistinctByCount(rest);
      assert s == [s[0]] + rest;
      assert forall j :: 1 <= j < |s| ==> s[j] == rest[j - 1];
      if Distinct(s) {
        assert s[0] !in multiset(rest);
      } else if i, j :| 0 <= i < j < |s| && s[i] == s[j] && i > 0 {
        assert rest[i - 1] == rest[j - 1];
        var x :| multiset(rest)[x] > 1;
        assert multiset(s)[x] > 1;
      } else {
        assert s[0] in multiset(rest);
        assert multiset(s)[s[0]] >= 2;
      }
    }
  }

  lemma WholeMultiset(a: multiset<int>, b: multiset<int>)
    requires a <= b && |a| == |b|
    ensures a == b
  {
    assert b == a + (b - a);
    assert |b - a| == 0;
  }

  predicate InRange(s: seq<int>) {
    forall i :: 0 <= i < |s| ==> 1 <= s[i] <= |s|
  }

  // No repeat and nothing outside 1..n leaves no gap either.
  lemma OneEachIsDistinct(s: seq<int>)
    ensures OneEach(s, |s|) <==> Distinct(s) && InRange(s)
  {
    var all := multiset(UpTo(|s|));
    forall x ensures all[x] == if 1 <= x <= |s| then 1 else 0 {
      UpToCounts(|s|, x);
    }
    DistinctByCount(s);
    if Distinct(s) && InRange(s) {
      forall x | x in multiset(s) ensures multiset(s)[x] <= all[x] {
        assert x in s;
      }
      assert |multiset(s)| == |s| && |all| == |UpTo(|s|)|;
      WholeMultiset(multiset(s), all);
    } else if OneEach(s, |s|) {
      forall i | 0 <= i < |s| ensures 1 <= s[i] <= |s| {
        assert s[i] in multiset(s);
      }
    }
  }
}
