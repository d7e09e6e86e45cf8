// src/nodes/llm/memory_manager.py: the LLM groups candidate documents into clusters; an accepted
// grouping is a partition, and each cluster becomes one consolidated document. src/tools/rag.py's
// index then stores them.
module Clusters {
  import opened Common
  import opened Rankings
  import opened Text

  datatype Meta = Meta(problemType: seq<string>, methodsUsed: seq<string>, characteristics: seq<string>,
                       keyFindings: string, relevance: int)

  datatype Document = Document(id: string, text: string, source: string, meta: Meta)

  // One element of the LLM's array. indices: None unless a list, and None for an element that is not
  // a plain int; meta: None unless every other field passes its check.
  datatype ClusterEntry = NotAnObject | Cluster(indices: Option<seq<Option<int>>>, meta: Option<Meta>)

  datatype ClusterError = BadEntry | BadIndices | NotAPartition | BadField

  // --- accepting a grouping --------------------------------------------------------

  predicate IndicesOk(entry: ClusterEntry) {
    && entry.Cluster? && entry.indices.Some? && entry.indices.value != []
    && (forall i :: 0 <= i < |entry.indices.value| ==> entry.indices.value[i].Some?)
    && forall i, j :: 0 <= i < j < |entry.indices.value| ==> entry.indices.value[i] != entry.indices.value[j]
  }

  function IndicesOf(entry: ClusterEntry): (r: seq<int>)
    requires IndicesOk(entry)
    ensures r != []
  {
    seq(|entry.indices.value|, i requires 0 <= i < |entry.indices.value| => entry.indices.value[i].value)
  }

  function Flatten<T>(groups: seq<seq<T>>): seq<T> {
    if groups == [] then [] else Flatten(groups[..|groups| - 1]) + groups[|groups| - 1]
  }

  // Every number from 1 to n in exactly one place of one group, and nothing else.
  ghost predicate Partitions(groups: seq<seq<int>>, n: nat) {
    OneEach(Flatten(groups), n)
  }

  // Comparing sorted lists, as the source does, is exactly that.
  lemma SortedTestIsPartition(groups: seq<seq<int>>, n: nat)
    ensures Sorted(Flatten(groups)) == UpTo(n) <==> Partitions(groups, n)
  {
    SortedTestIsOneEach(Flatten(groups), n);
  }

  // --- merging ---------------------------------------------------------------------

  function Members(candidates: seq<Document>, indices: seq<int>): seq<Document>
    requires forall i :: i in indices ==> 1 <= i <= |candidates|
  {
    seq(|indices|, k requires 0 <= k < |indices| => assert indices[k] in indices; candidates[indices[k] - 1])
  }

  function Texts(docs: seq<Document>): seq<string> {
    seq(|docs|, k requires 0 <= k < |docs| => docs[k].text)
  }

  // dict.fromkeys: the sources in order of first appearance.
  function Sources(docs: seq<Document>): seq<string> {
    if docs == [] then []
    else
      var r, last := Sources(docs[..|docs| - 1]), docs[|docs| - 1].source;
      if last in r then r else r + [last]
  }

  // Where the first document with this source stands.
  ghost predicate FirstWith(docs: seq<Document>, source: string, k: nat) {
    k < |docs| && docs[k].source == source && forall i :: 0 <= i < k ==> docs[i].source != source
  }

  // The sources are listed by first appearance: every document's is there, each once.
  lemma {:induction false} SourcesByAppearance(docs: seq<Document>) returns (at: seq<nat>)
    ensures |at| == |Sources(docs)|
    ensures forall i :: 0 <= i < |at| ==> FirstWith(docs, Sources(docs)[i], at[i])
    ensures forall i, j :: 0 <= i < j < |at| ==> at[i] < at[j]
    ensures forall k :: 0 <= k < |docs| ==> docs[k].source in Sources(docs)
  {
    hide FirstWith;
    at := [];
    if docs != [] {
      var n := |docs| - 1;
      at := SourcesByAppearance(docs[..n]);
      var before, all := Sources(docs[..n]), Sources(docs);
      forall i | 0 <= i < |at| ensures FirstWith(docs, before[i], at[i]) && at[i] < n {
        StillFirst(docs, before[i], at[i]);
      }
      forall k | 0 <= k < n ensures docs[k].source in before {
        assert docs[..n][k] == docs[k];
      }
      assert all == if docs[n].source in before then before else before + [docs[n].source];
      hide Sources;
      if docs[n].source !in before {
        NewSource(docs, before);
        at := at + [n];
      }
    }
  }

  lemma StillFirst(docs: seq<Document>, source: string, k: nat)
    requires docs != [] && FirstWith(docs[..|docs| - 1], source, k)
    ensures FirstWith(docs, source, k) && k < |docs| - 1
  {
    var front := docs[..|docs| - 1];
    assert forall i :: 0 <= i < |front| ==> docs[i] == front[i];
  }

  lemma NewSource(docs: seq<Document>, before: seq<string>)
    requires docs != [] && docs[|docs| - 1].source !in before
    requires forall k :: 0 <= k < |docs| - 1 ==> docs[k].source in before
    ensures FirstWith(docs, docs[|docs| - 1].source, |docs| - 1)
  {
  }

  function InRange(indices: seq<int>, n: nat): bool {
    forall i :: i in indices ==> 1 <= i <= n
  }

  function Merge(candidates: seq<Document>, indices: seq<int>, meta: Meta): Document
    requires indices != [] && InRange(indices, |candidates|)
  {
    SortedKeepsRange(indices, |candidates|);
    var members := Members(candidates, Sorted(indices));
    Document(members[0].id, Join(Texts(members), "\n\n"), Join(Sources(members), "; "), meta)
  }

  lemma SortedKeepsRange(indices: seq<int>, n: nat)
    requires InRange(indices, n)
    ensures |Sorted(indices)| == |indices| && InRange(Sorted(indices), n)
  {
    assert |multiset(indices)| == |indices| && |multiset(Sorted(indices))| == |Sorted(indices)|;
    forall i | i in Sorted(indices) ensures i in indices {
      assert i in multiset(Sorted(indices));
    }
  }

  lemma GroupInRange(groups: seq<seq<int>>, n: nat, j: nat)
    requires Partitions(groups, n) && j < |groups|
    ensures InRange(groups[j], n)
  {
    FlattenContains(groups, j);
    forall i | i in groups[j] ensures 1 <= i <= n {
      assert i in multiset(groups[j]);
      assert multiset(Flatten(groups))[i] >= 1;
    }
  }

  lemma {:induction false} FlattenContains(groups: seq<seq<int>>, j: nat)
    requires j < |groups|
    ensures multiset(groups[j]) <= multiset(Flatten(groups))
  {
    if j < |groups| - 1 {
      FlattenContains(groups[..|groups| - 1], j);
    }
  }

  function Groups(clusters: seq<ClusterEntry>): (r: seq<seq<int>>)
    requires AllIndicesOk(clusters)
    ensures |r| == |clusters| && forall j :: 0 <= j < |r| ==> r[j] == IndicesOf(clusters[j])
  {
    seq(|clusters|, j requires 0 <= j < |clusters| => IndicesOf(clusters[j]))
  }

  ghost predicate AllIndicesOk(clusters: seq<ClusterEntry>) {
    forall j :: 0 <= j < |clusters| ==> IndicesOk(clusters[j])
  }

  ghost predicate Accepted(candidates: seq<Document>, clusters: seq<ClusterEntry>) {
    && AllIndicesOk(clusters)
    && Partitions(Groups(clusters), |candidates|)
    && forall j :: 0 <= j < |clusters| ==> clusters[j].meta.Some?
  }

  // _build_consolidated_documents: without candidates the clusters are not even looked at.
  method BuildConsolidated(candidates: seq<Document>, clusters: seq<ClusterEntry>)
    returns (r: Result<seq<Document>, ClusterError>)
    ensures candidates == [] ==> r == Ok([])
    ensures candidates != [] ==> (r.Ok? <==> Accepted(candidates, clusters))
    ensures candidates != [] && r.Ok? ==>
              |r.value| == |clusters| && MergedInto(candidates, clusters, Groups(clusters), r.value)
    ensures r.Err? && r.error in {BadEntry, BadIndices} <==> candidates != [] && !AllIndicesOk(clusters)
    ensures r == Err(NotAPartition) <==>
              candidates != [] && AllIndicesOk(clusters) && !Partitions(Groups(clusters), |candidates|)
  {
    if candidates == [] {
      return Ok([]);
    }
    var bad := ValidateIndices(clusters);
    if bad.Some? {
      return Err(bad.value);
    }
    var groups := Groups(clusters);
    SortedTestIsPartition(groups, |candidates|);
    if Sorted(Flatten(groups)) != UpTo(|candidates|) {
      return Err(NotAPartition);
    }
    r := MergeAll(candidates, clusters, groups);
  }

  // The first clusters entry whose indices are unusable, by its error.
  method ValidateIndices(clusters: seq<ClusterEntry>) returns (bad: Option<ClusterError>)
    ensures bad.None? <==> AllIndicesOk(clusters)
    ensures bad.Some? ==> bad.value in {BadEntry, BadIndices}
  {
    for j := 0 to |clusters|
      invariant forall i :: 0 <= i < j ==> IndicesOk(clusters[i])
    {
      if !IndicesOk(clusters[j]) {
        return Some(if clusters[j].NotAnObject? then BadEntry else BadIndices);
      }
    }
    return None;
  }

  ghost predicate MergedInto(candidates: seq<Document>, clusters: seq<ClusterEntry>, groups: seq<seq<int>>, docs: seq<Document>)
    requires |groups| == |clusters|
  {
    && |docs| <= |clusters|
    && forall j :: 0 <= j < |docs| ==>
         && clusters[j].Cluster? && clusters[j].meta.Some?
         && groups[j] != [] && InRange(groups[j], |candidates|)
         && docs[j] == Merge(candidates, groups[j], clusters[j].meta.value)
  }

  // The merging loop, over clusters whose indices partition the candidates.
  method MergeAll(candidates: seq<Document>, clusters: seq<ClusterEntry>, groups: seq<seq<int>>)
    returns (r: Result<seq<Document>, ClusterError>)
    requires |groups| == |clusters| && Partitions(groups, |candidates|)
    requires forall j :: 0 <= j < |clusters| ==> clusters[j].Cluster? && groups[j] != []
    ensures r.Ok? <==> forall j :: 0 <= j < |clusters| ==> clusters[j].meta.Some?
    ensures r.Err? ==> r.error == BadField
    ensures r.Ok? ==> |r.value| == |clusters| && MergedInto(candidates, clusters, groups, r.value)
  {
    hide Merge, Sorted, Flatten;
    var consolidated: seq<Document> := [];
    for j := 0 to |clusters|
      invariant |consolidated| == j && MergedInto(candidates, clusters, groups, consolidated)
    {
      GroupInRange(groups, |candidates|, j);
      if clusters[j].meta.None? {
        return Err(BadField);
      }
      consolidated := consolidated + [Merge(candidates, groups[j], clusters[j].meta.value)];
    }
    return Ok(consolidated);
  }

  // How often the clusters name x.
  function TimesNamed(groups: seq<seq<int>>, x: int): nat {
    if groups == [] then 0 else TimesNamed(groups[..|groups| - 1], x) + multiset(groups[|groups| - 1])[x]
  }

  ghost predicate NamesEachOnce(groups: seq<seq<int>>, n: nat) {
    forall x: int :: TimesNamed(groups, x) == if 1 <= x <= n then 1 else 0
  }

  lemma {:induction false} NamedInFlatten(groups: seq<seq<int>>, x: int)
    ensures multiset(Flatten(groups))[x] == TimesNamed(groups, x)
  {
    if groups != [] {
      NamedInFlatten(groups[..|groups| - 1], x);
    }
  }

  lemma {:induction false} NamedAtLeast(groups: seq<seq<int>>, x: int, j: nat)
    requires j < |groups|
    ensures multiset(groups[j])[x] <= TimesNamed(groups, x)
  {
    if j < |groups| - 1 {
      NamedAtLeast(groups[..|groups| - 1], x, j);
    }
  }

  // The integers of one cluster's list, or nothing for a list that has anything else in it.
  function Listed(entry: ClusterEntry): (r: seq<int>)
    ensures r != [] ==> entry.Cluster?
  {
    if entry.Cluster? && entry.indices.Some? && (forall i :: 0 <= i < |entry.indices.value| ==> entry.indices.value[i].Some?)
    then seq(|entry.indices.value|, i requires 0 <= i < |entry.indices.value| => entry.indices.value[i].value)
    else []
  }

  function Lists(clusters: seq<ClusterEntry>): (r: seq<seq<int>>)
    ensures |r| == |clusters| && forall j :: 0 <= j < |r| ==> r[j] == Listed(clusters[j])
  {
    seq(|clusters|, j requires 0 <= j < |clusters| => Listed(clusters[j]))
  }

  // A grouping of n candidates is accepted exactly when every cluster is an object with usable fields
  // and a non-empty list of integers, and those lists name every number from 1 to n once and no other.
  lemma AcceptedIff(candidates: seq<Document>, clusters: seq<ClusterEntry>)
    ensures Accepted(candidates, clusters) <==>
      && (forall j :: 0 <= j < |clusters| ==> Listed(clusters[j]) != [] && clusters[j].meta.Some?)
      && NamesEachOnce(Lists(clusters), |candidates|)
  {
    hide *;
    NamedOnceIff(Lists(clusters), |candidates|);
    ListsAreGroups(clusters);
    AcceptedMeans(candidates, clusters);
    if NamesEachOnce(Lists(clusters), |candidates|) && forall j :: 0 <= j < |clusters| ==> Listed(clusters[j]) != [] {
      OnceIsOk(clusters, |candidates|);
    }
  }

  lemma AcceptedMeans(candidates: seq<Document>, clusters: seq<ClusterEntry>)
    ensures Accepted(candidates, clusters) <==>
      && AllIndicesOk(clusters)
      && Partitions(Groups(clusters), |candidates|)
      && forall j :: 0 <= j < |clusters| ==> clusters[j].meta.Some?
  {
  }

  lemma ListsAreGroups(clusters: seq<ClusterEntry>)
    ensures AllIndicesOk(clusters) ==>
      Groups(clusters) == Lists(clusters) && forall j :: 0 <= j < |clusters| ==> Listed(clusters[j]) != []
  {
    if AllIndicesOk(clusters) {
      forall j | 0 <= j < |clusters| ensures Groups(clusters)[j] == Listed(clusters[j]) != [] {
      }
    }
  }

  lemma NamedOnceIff(groups: seq<seq<int>>, n: nat)
    ensures Partitions(groups, n) <==> NamesEachOnce(groups, n)
  {
    hide TimesNamed, Flatten;
    forall x: int ensures multiset(Flatten(groups))[x] == TimesNamed(groups, x) {
      NamedInFlatten(groups, x);
    }
    if NamesEachOnce(groups, n) {
      forall x: int ensures multiset(Flatten(groups))[x] == if 1 <= x <= n then 1 else 0 {
        assert multiset(Flatten(groups))[x] == TimesNamed(groups, x);
      }
      assert OneEach(Flatten(groups), n);
    } else {
      var x: int :| TimesNamed(groups, x) != if 1 <= x <= n then 1 else 0;
      assert multiset(Flatten(groups))[x] == TimesNamed(groups, x);
    }
  }

  lemma OnceIsOk(clusters: seq<ClusterEntry>, n: nat)
    requires forall j :: 0 <= j < |clusters| ==> Listed(clusters[j]) != []
    requires NamesEachOnce(Lists(clusters), n)
    ensures AllIndicesOk(clusters)
  {
    hide TimesNamed;
    forall j | 0 <= j < |clusters| ensures IndicesOk(clusters[j]) {
      var list := Lists(clusters)[j];
      forall a, b | 0 <= a < b < |list| ensures list[a] != list[b] {
        NamedAtLeast(Lists(clusters), list[a], j);
        if list[a] == list[b] {
          NamedTwice(list, a, b);
        }
      }
      DistinctIsOk(clusters[j]);
    }
  }

  lemma DistinctIsOk(entry: ClusterEntry)
    requires Listed(entry) != []
    requires forall a, b :: 0 <= a < b < |Listed(entry)| ==> Listed(entry)[a] != Listed(entry)[b]
    ensures IndicesOk(entry)
  {
    forall i | 0 <= i < |entry.indices.value| ensures entry.indices.value[i] == Some(Listed(entry)[i]) {
    }
  }

  lemma NamedTwice(list: seq<int>, a: nat, b: nat)
    requires a < b < |list| && list[a] == list[b]
    ensures multiset(list)[list[a]] >= 2
  {
    assert list == list[..a + 1] + list[a + 1..];
    assert list[a] in list[..a + 1] && list[a + 1..][b - a - 1] == list[b] && list[b] in list[a + 1..];
  }

  // --- nothing is lost, nothing doubled --------------------------------------------

  lemma {:induction false} FlattenDistinct(groups: seq<seq<int>>, i: nat, j: nat, x: int)
    requires i < j < |groups| && x in groups[i] && x in groups[j]
    ensures multiset(Flatten(groups))[x] >= 2
  {
    var front := groups[..|groups| - 1];
    if j == |groups| - 1 {
      FlattenContains(front, i);
      assert x in multiset(groups[i]) && x in multiset(groups[j]);
    } else {
      FlattenDistinct(front, i, j, x);
    }
  }

  lemma {:induction false} FlattenFinds(groups: seq<seq<int>>, x: int) returns (j: nat)
    requires x in Flatten(groups)
    ensures j < |groups| && x in groups[j]
  {
    var front := groups[..|groups| - 1];
    if x in groups[|groups| - 1] {
      j := |groups| - 1;
    } else {
      j := FlattenFinds(front, x);
    }
  }

  // Every candidate belongs to exactly one cluster.
  lemma EachCandidateInOneCluster(groups: seq<seq<int>>, n: nat, x: int) returns (home: nat)
    requires Partitions(groups, n) && 1 <= x <= n
    ensures home < |groups|
    ensures forall j :: 0 <= j < |groups| ==> (x in groups[j] <==> j == home)
  {
    assert multiset(Flatten(groups))[x] == 1;
    assert x in multiset(Flatten(groups));
    home := FlattenFinds(groups, x);
    forall j | 0 <= j < |groups| && x in groups[j] ensures j == home {
      if j < home {
        FlattenDistinct(groups, j, home, x);
      } else if home < j {
        FlattenDistinct(groups, home, j, x);
      }
    }
  }

  // The members of each group, in index order.
  function MemberLists(candidates: seq<Document>, groups: seq<seq<int>>): seq<seq<Document>>
    requires forall j :: 0 <= j < |groups| ==> InRange(groups[j], |candidates|)
  {
    seq(|groups|, j requires 0 <= j < |groups| =>
      SortedKeepsRange(groups[j], |candidates|); Members(candidates, Sorted(groups[j])))
  }

  // Every consolidated document is made of a list of members, lowest index first: their texts joined,
  // their sources once each, the first one's id. All the lists together are the candidates, none lost,
  // none doubled.
  lemma TextsAreConserved(candidates: seq<Document>, clusters: seq<ClusterEntry>, docs: seq<Document>)
    returns (lists: seq<seq<Document>>)
    requires Accepted(candidates, clusters) && |docs| == |clusters|
    requires MergedInto(candidates, clusters, Groups(clusters), docs)
    ensures |lists| == |docs| && multiset(Flatten(lists)) == multiset(candidates)
    ensures forall j :: 0 <= j < |docs| ==>
              && lists[j] != [] && docs[j].id == lists[j][0].id
              && docs[j].text == Join(Texts(lists[j]), "\n\n")
              && docs[j].source == Join(Sources(lists[j]), "; ")
              && docs[j].meta == clusters[j].meta.value
  {
    hide Merge, Members, Sorted, Flatten, InRange, Sources, Texts;
    lists := MemberLists(candidates, Groups(clusters));
    ListsAreConserved(candidates, Groups(clusters));
    forall j | 0 <= j < |docs|
      ensures && lists[j] != [] && docs[j].id == lists[j][0].id
              && docs[j].text == Join(Texts(lists[j]), "\n\n")
              && docs[j].source == Join(Sources(lists[j]), "; ")
              && docs[j].meta == clusters[j].meta.value
    {
      MergedFromMembers(candidates, Groups(clusters)[j], clusters[j].meta.value);
    }
  }

  lemma MergedFromMembers(candidates: seq<Document>, indices: seq<int>, meta: Meta)
    requires indices != [] && InRange(indices, |candidates|)
    ensures InRange(Sorted(indices), |candidates|)
    ensures
      var doc, members := Merge(candidates, indices, meta), Members(candidates, Sorted(indices));
      && members != [] && doc.id == members[0].id
      && doc.text == Join(Texts(members), "\n\n") && doc.source == Join(Sources(members), "; ")
      && doc.meta == meta
  {
    hide Sorted, Texts, Sources;
    SortedKeepsRange(indices, |candidates|);
  }

  lemma ListsAreConserved(candidates: seq<Document>, groups: seq<seq<int>>)
    requires Partitions(groups, |candidates|)
    requires forall j :: 0 <= j < |groups| ==> InRange(groups[j], |candidates|)
    ensures multiset(Flatten(MemberLists(candidates, groups))) == multiset(candidates)
  {
    hide Sorted, Flatten;
    var n := |candidates|;
    FlatInRange(groups, n);
    FlattenMembers(candidates, groups);
    SortedTestIsPartition(groups, n);
    UpToInRange(n);
    assert Members(candidates, UpTo(n)) == candidates;
    hide Members, MemberLists;
    MembersOfPermutation(candidates, Flatten(groups), UpTo(n));
  }

  lemma UpToInRange(n: nat)
    ensures InRange(UpTo(n), n)
  {
  }

  lemma FlatInRange(groups: seq<seq<int>>, n: nat)
    requires Partitions(groups, n)
    ensures InRange(Flatten(groups), n)
  {
    forall i | i in Flatten(groups) ensures 1 <= i <= n {
      assert i in multiset(Flatten(groups));
    }
  }

  lemma {:induction false} FlattenMembers(candidates: seq<Document>, groups: seq<seq<int>>)
    requires InRange(Flatten(groups), |candidates|)
    requires forall j :: 0 <= j < |groups| ==> InRange(groups[j], |candidates|)
    ensures multiset(Flatten(MemberLists(candidates, groups))) == multiset(Members(candidates, Flatten(groups)))
  {
    if groups != [] {
      var front, last := groups[..|groups| - 1], groups[|groups| - 1];
      var lists := MemberLists(candidates, groups);
      PartsInRange(Flatten(front), last, |candidates|);
      FlattenMembers(candidates, front);
      SortedKeepsRange(last, |candidates|);
      assert lists[..|lists| - 1] == MemberLists(candidates, front);
      assert lists[|lists| - 1] == Members(candidates, Sorted(last));
      MembersOfPermutation(candidates, Sorted(last), last);
      MembersOfConcat(candidates, Flatten(front), last);
    }
  }

  lemma PartsInRange(a: seq<int>, b: seq<int>, n: nat)
    requires InRange(a + b, n)
    ensures InRange(a, n) && InRange(b, n)
  {
    assert forall i :: i in a ==> i in a + b;
    assert forall i :: i in b ==> i in a + b;
  }

  // Taking out one index takes out its member.
  lemma MembersWithout(candidates: seq<Document>, b: seq<int>, k: nat)
    requires InRange(b, |candidates|) && k < |b|
    ensures InRange(b[..k] + b[k + 1..], |candidates|) && 1 <= b[k] <= |candidates|
    ensures multiset(Members(candidates, b)) ==
            multiset{candidates[b[k] - 1]} + multiset(Members(candidates, b[..k] + b[k + 1..]))
  {
    var front, back := b[..k], b[k + 1..];
    assert b == front + [b[k]] + back;
    PartsInRange(front + [b[k]], back, |candidates|);
    PartsInRange(front, [b[k]], |candidates|);
    MembersOfConcat(candidates, front + [b[k]], back);
    MembersOfConcat(candidates, front, [b[k]]);
    assert b[k] in [b[k]];
    assert Members(candidates, [b[k]]) == [candidates[b[k] - 1]];
    MembersOfConcat(candidates, front, back);
  }

  // Taking a's first element out of b leaves the rest of a.
  lemma SameWithout(a: seq<int>, b: seq<int>) returns (k: nat)
    requires a != [] && multiset(a) == multiset(b)
    ensures k < |b| && b[k] == a[0]
    ensures multiset(a[..0] + a[1..]) == multiset(b[..k] + b[k + 1..])
  {
    assert a[0] in multiset(b);
    k :| 0 <= k < |b| && b[k] == a[0];
    WithoutElement(a, 0);
    WithoutElement(b, k);
  }

  lemma {:induction false} MembersOfPermutation(candidates: seq<Document>, a: seq<int>, b: seq<int>)
    requires InRange(a, |candidates|) && InRange(b, |candidates|) && multiset(a) == multiset(b)
    ensures multiset(Members(candidates, a)) == multiset(Members(candidates, b))
    decreases |a|
  {
    hide Members, InRange;
    if a == [] {
      assert |multiset(b)| == 0;
    } else {
      var k := SameWithout(a, b);
      MembersWithout(candidates, a, 0);
      MembersWithout(candidates, b, k);
      MembersOfPermutation(candidates, a[..0] + a[1..], b[..k] + b[k + 1..]);
    }
  }

  lemma MembersOfConcat(candidates: seq<Document>, a: seq<int>, b: seq<int>)
    requires InRange(a, |candidates|) && InRange(b, |candidates|)
    ensures InRange(a + b, |candidates|)
    ensures Members(candidates, a + b) == Members(candidates, a) + Members(candidates, b)
  {
  }

  ghost predicate DistinctIds(docs: seq<Document>) {
    forall i, j :: 0 <= i < j < |docs| ==> docs[i].id != docs[j].id
  }

  ghost predicate IsIdOf(docs: seq<Document>, id: string) {
    exists k :: 0 <= k < |docs| && docs[k].id == id
  }

  // The member that names a merged document is its lowest-numbered one.
  lemma MergedId(candidates: seq<Document>, indices: seq<int>, meta: Meta) returns (low: int)
    requires indices != [] && InRange(indices, |candidates|)
    ensures low in indices && forall i :: i in indices ==> low <= i
    ensures Merge(candidates, indices, meta).id == candidates[low - 1].id
  {
    SortedKeepsRange(indices, |candidates|);
    var s := Sorted(indices);
    low := s[0];
    assert low in multiset(s);
    forall i | i in indices ensures low <= i {
      assert i in multiset(s);
      LeastFirst(s, i);
    }
  }

  // Distinct candidates give distinct consolidated documents.
  lemma MergedIdsDistinct(candidates: seq<Document>, clusters: seq<ClusterEntry>, docs: seq<Document>)
    requires Accepted(candidates, clusters) && DistinctIds(candidates) && |docs| == |clusters|
    requires MergedInto(candidates, clusters, Groups(clusters), docs)
    ensures DistinctIds(docs)
    ensures forall j :: 0 <= j < |docs| ==> IsIdOf(candidates, docs[j].id)
  {
    var groups := Groups(clusters);
    forall j | 0 <= j < |docs| ensures IsIdOf(candidates, docs[j].id) {
      var low := MergedId(candidates, groups[j], clusters[j].meta.value);
      assert candidates[low - 1].id == docs[j].id;
    }
    forall i, j | 0 <= i < j < |docs| ensures docs[i].id != docs[j].id {
      var a := MergedId(candidates, groups[i], clusters[i].meta.value);
      var b := MergedId(candidates, groups[j], clusters[j].meta.value);
      var home := EachCandidateInOneCluster(groups, |candidates|, a);
      assert a != b;
    }
  }

  // --- the store -------------------------------------------------------------------

  function Upserted(collection: map<string, Document>, docs: seq<Document>): map<string, Document> {
    if docs == [] then collection
    else Upserted(collection, docs[..|docs| - 1])[docs[|docs| - 1].id := docs[|docs| - 1]]
  }

  lemma DistinctAppend(docs: seq<Document>, doc: Document)
    ensures DistinctIds(docs + [doc]) <==>
              DistinctIds(docs) && forall j :: 0 <= j < |docs| ==> docs[j].id != doc.id
  {
    var all := docs + [doc];
    assert forall j :: 0 <= j < |docs| ==> all[j] == docs[j];
    assert all[|docs|] == doc;
  }

  // The ids a batch repeats.
  method RepeatedIds(documents: seq<Document>) returns (duplicates: set<string>)
    ensures duplicates == {} <==> DistinctIds(documents)
  {
    var counts: map<string, nat> := map[];
    duplicates := {};
    for i := 0 to |documents|
      invariant forall id :: id in counts <==> exists j :: 0 <= j < i && documents[j].id == id
      invariant duplicates == {} <==> DistinctIds(documents[..i])
    {
      var id := documents[i].id;
      assert documents[..i + 1] == documents[..i] + [documents[i]];
      DistinctAppend(documents[..i], documents[i]);
      if id in counts {
        duplicates := duplicates + {id};
      }
      counts := counts[id := (if id in counts then counts[id] else 0) + 1];
    }
    assert documents[..|documents|] == documents;
  }

  class RagStore {
    var collection: map<string, Document>

    constructor ()
      ensures collection == map[]
    {
      collection := map[];
    }

    // index: a batch is refused, whole, exactly when two of its documents share an id.
    method Index(documents: seq<Document>) returns (ok: bool)
      modifies this
      ensures ok <==> DistinctIds(documents)
      ensures collection == if ok then Upserted(old(collection), documents) else old(collection)
    {
      if documents == [] {
        return true;
      }
      var duplicates := RepeatedIds(documents);
      if duplicates != {} {
        return false;
      }
      assert documents[..|documents|] == documents;
      for i := 0 to |documents|
        invariant collection == Upserted(old(collection), documents[..i])
      {
        assert documents[..i + 1][..i] == documents[..i];
        collection := collection[documents[i].id := documents[i]];
      }
      return true;
    }
  }

  // Writing documents whose ids are all there already adds no entry.
  lemma {:induction false} KnownIdsAddNothing(collection: map<string, Document>, docs: seq<Document>)
    requires forall j :: 0 <= j < |docs| ==> docs[j].id in collection
    ensures Upserted(collection, docs).Keys == collection.Keys
  {
    if docs != [] {
      KnownIdsAddNothing(collection, docs[..|docs| - 1]);
    }
  }

  // After a batch of distinct ids each of its documents stands under its id, and nothing else changed.
  lemma {:induction false} BatchIsStored(collection: map<string, Document>, docs: seq<Document>)
    requires DistinctIds(docs)
    ensures forall j :: 0 <= j < |docs| ==> docs[j].id in Upserted(collection, docs) && Upserted(collection, docs)[docs[j].id] == docs[j]
    ensures forall id :: !IsIdOf(docs, id) ==>
              (id in Upserted(collection, docs) <==> id in collection) &&
              (id in collection ==> Upserted(collection, docs)[id] == collection[id])
  {
    if docs != [] {
      var n := |docs| - 1;
      var front := docs[..n];
      BatchIsStored(collection, front);
      forall id | !IsIdOf(docs, id) ensures !IsIdOf(front, id) && id != docs[n].id {
        assert forall k :: 0 <= k < n ==> front[k] == docs[k];
      }
      forall j | 0 <= j < n ensures docs[j].id != docs[n].id && docs[j] == front[j] {
      }
    }
  }

  ghost predicate Stored(collection: map<string, Document>, docs: seq<Document>) {
    forall j :: 0 <= j < |docs| ==> docs[j].id in collection
  }

  // What consolidation makes of distinctly named candidates from the store has distinct ids, all of
  // them known: the batch is never refused, and every merged document replaces one of its own members.
  lemma ConsolidationUpsertsInPlace(collection: map<string, Document>, candidates: seq<Document>,
                                    clusters: seq<ClusterEntry>, docs: seq<Document>)
    requires DistinctIds(candidates) && Stored(collection, candidates)
    requires Accepted(candidates, clusters) && |docs| == |clusters|
    requires MergedInto(candidates, clusters, Groups(clusters), docs)
    ensures DistinctIds(docs) && Upserted(collection, docs).Keys == collection.Keys
  {
    MergedIdsDistinct(candidates, clusters, docs);
    forall j | 0 <= j < |docs| ensures docs[j].id in collection {
      assert IsIdOf(candidates, docs[j].id);
    }
    KnownIdsAddNothing(collection, docs);
  }

  // MemoryManagerNode._write_output, from the parsed clusters on: build, then index. With distinctly
  // named candidates the only failures are those of the building.
  method Consolidate(store: RagStore, candidates: seq<Document>, clusters: seq<ClusterEntry>)
    returns (r: Result<seq<Document>, ClusterError>, indexed: bool)
    requires DistinctIds(candidates)
    modifies store
    ensures indexed <==> r.Ok?
    ensures r.Err? ==> store.collection == old(store.collection)
    ensures r.Ok? ==> store.collection == Upserted(old(store.collection), r.value)
    ensures r.Ok? && Stored(old(store.collection), candidates) ==>
              store.collection.Keys == old(store.collection.Keys)
  {
    r := BuildConsolidated(candidates, clusters);
    if r.Err? {
      return r, false;
    }
    if candidates != [] {
      MergedIdsDistinct(candidates, clusters, r.value);
      if Stored(store.collection, candidates) {
        ConsolidationUpsertsInPlace(store.collection, candidates, clusters, r.value);
      }
    }
    indexed := store.Index(r.value);
  }
}
