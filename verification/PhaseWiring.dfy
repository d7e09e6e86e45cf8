// src/graph/phases/generic.py: a phase's node sequence, with one optional parallel block, becomes
// an edge set; running that edge set superstep by superstep is the intended schedule.
module PhaseWiring {
  import opened Common
  import opened StateGraphs

  type Edge = (Node<string>, Node<string>)

  datatype BuildError = DuplicateNode | IndexError | NotContiguous

  ghost predicate Distinct(s: seq<string>) {
    forall i, j :: 0 <= i < j < |s| ==> s[i] != s[j]
  }

  ghost predicate Meets(s: seq<string>, par: set<string>) {
    exists i :: 0 <= i < |s| && s[i] in par
  }

  // No gap: whatever lies between two parallel nodes is parallel.
  ghost predicate Contiguous(s: seq<string>, par: set<string>) {
    forall i, j, k :: 0 <= i < j < k < |s| && s[i] in par && s[k] in par ==> s[j] in par
  }

  // --- the block -------------------------------------------------------------------

  // run_indices[0]; |s| when there is none.
  function First(s: seq<string>, par: set<string>): (r: nat)
    ensures r <= |s|
    ensures r < |s| ==> s[r] in par
    ensures forall i :: 0 <= i < r ==> s[i] !in par
  {
    if s == [] || s[0] in par then 0
    else
      var r := First(s[1..], par);
      assert forall i :: 0 < i < r + 1 ==> s[i] == s[1..][i - 1];
      r + 1
  }

  // run_indices[-1]; -1 when there is none.
  function Last(s: seq<string>, par: set<string>): (r: int)
    ensures -1 <= r < |s|
    ensures r >= 0 ==> s[r] in par
    ensures forall i :: r < i < |s| ==> s[i] !in par
  {
    if s == [] then -1
    else if s[|s| - 1] in par then |s| - 1
    else Last(s[..|s| - 1], par)
  }

  function Before(s: seq<string>, b: nat): Node<string>
    requires b < |s|
  {
    if b > 0 then At(s[b - 1]) else Start
  }

  function After(s: seq<string>, e: nat): Node<string>
    requires e < |s|
  {
    if e + 1 < |s| then At(s[e + 1]) else End
  }

  predicate Chained(s: seq<string>, par: set<string>, i: nat)
    requires i + 1 < |s|
  {
    s[i] !in par && s[i + 1] !in par
  }

  function Link(s: seq<string>, i: nat): Edge
    requires i + 1 < |s|
  {
    (At(s[i]), At(s[i + 1]))
  }

  function ChainEdges(s: seq<string>, par: set<string>, n: nat): set<Edge>
    requires n < |s|
  {
    set i | 0 <= i < n && Chained(s, par, i) :: Link(s, i)
  }

  function FanEdges(s: seq<string>, b: nat, n: nat, e: nat): set<Edge>
    requires b <= n <= e + 1 <= |s| && b < |s|
  {
    (set i | b <= i < n :: (Before(s, b), At(s[i]))) + (set i | b <= i < n :: (At(s[i]), After(s, e)))
  }

  function WiredEdges(s: seq<string>, par: set<string>): set<Edge>
    requires s != []
    requires par == {} || First(s, par) < |s|
  {
    var chain := ChainEdges(s, par, |s| - 1);
    var b, e := First(s, par), Last(s, par);
    var fan := if par == {} then {} else FanEdges(s, b, e + 1, e);
    chain + fan + {(Start, At(s[0]))} + {(At(s[|s| - 1]), End)}
  }

  function NameSet(names: seq<string>): set<string> {
    set n | n in names
  }

  // The check the builder makes: nothing but parallel nodes between the first and the last.
  ghost predicate SolidBlock(s: seq<string>, par: set<string>) {
    forall i :: First(s, par) <= i <= Last(s, par) ==> s[i] in par
  }

  lemma SolidIffContiguous(s: seq<string>, par: set<string>)
    ensures SolidBlock(s, par) <==> Contiguous(s, par)
  {
    var b, e := First(s, par), Last(s, par);
    if Contiguous(s, par) {
      forall i | b <= i <= e ensures s[i] in par {
        if b < i < e {
          assert s[b] in par && s[e] in par;
        }
      }
    }
  }

  // What the builder accepts among the sequences that name no node twice. It checks the node list for
  // repeats, not the sequence.
  ghost predicate Wirable(s: seq<string>, par: set<string>) {
    s != [] && Distinct(s) && SolidBlock(s, par) && (par == {} || First(s, par) < |s|)
  }

  // A sequence that repeats no name is wired unless it is empty, or the parallel nodes are missing from
  // it or have another node between them.
  lemma WirableIff(s: seq<string>, par: set<string>)
    ensures Wirable(s, par) <==>
      && s != []
      && (forall i, j :: 0 <= i < j < |s| ==> s[i] != s[j])
      && (par != {} ==> exists i :: 0 <= i < |s| && s[i] in par)
      && (forall i, j, k :: 0 <= i < j < k < |s| && s[i] in par && s[k] in par ==> s[j] in par)
  {
    SolidIffContiguous(s, par);
    hide SolidBlock;
  }

  // --- build_phase_subgraph --------------------------------------------------------

  method BuildPhaseSubgraph(nodes: seq<string>, sequence: seq<string>, par: set<string>)
    returns (r: Result<Graph<string>, BuildError>)
    ensures r == Err(DuplicateNode) <==> !Distinct(nodes)
    ensures r == Err(IndexError) <==>
            Distinct(nodes) && (sequence == [] || (par != {} && !Meets(sequence, par)))
    ensures r == Err(NotContiguous) <==>
            Distinct(nodes) && Meets(sequence, par) && !Contiguous(sequence, par)
    ensures r.Ok? ==>
            && (par == {} || First(sequence, par) < |sequence|)
            && r.value == Graph(NameSet(nodes), WiredEdges(sequence, par), map[])
  {
    hide Distinct, NameSet, Contiguous, FanEdges, ChainEdges;
    var graph := new StateGraph<string>();
    var unique := AddNodes(graph, nodes);
    if !unique {
      return Err(DuplicateNode);
    }
    if sequence == [] {
      return Err(IndexError);
    }
    AddChain(graph, sequence, par);
    if par != {} {
      var bad := AddBlock(graph, sequence, par);
      if bad.Some? {
        return Err(bad.value);
      }
    }
    graph.AddEdge(Start, At(sequence[0]));
    graph.AddEdge(At(sequence[|sequence| - 1]), End);
    var g := graph.Compile();
    return Ok(g);
  }

  // The parallel branch: locate the block, reject gaps, fan out and in.
  method AddBlock(graph: StateGraph<string>, s: seq<string>, par: set<string>) returns (bad: Option<BuildError>)
    requires s != [] && par != {}
    modifies graph
    ensures bad == Some(IndexError) <==> !Meets(s, par)
    ensures bad == Some(NotContiguous) <==> Meets(s, par) && !Contiguous(s, par)
    ensures bad.Some? ==> bad.value != DuplicateNode
    ensures bad.None? ==>
              && First(s, par) < |s|
              && graph.View() == old(graph.View()).(edges := old(graph.edges) +
                   FanEdges(s, First(s, par), Last(s, par) + 1, Last(s, par)))
  {
    SolidIffContiguous(s, par);
    hide Contiguous, FanEdges;
    var start, end := First(s, par), Last(s, par);
    if start == |s| {
      return Some(IndexError);
    }
    assert s[start] in par;
    var intruder := exists i :: start <= i <= end && s[i] !in par;
    if intruder {
      return Some(NotContiguous);
    }
    AddFan(graph, s, start, end);
    return None;
  }

  // The node loop; stops at the first name the graph already holds.
  method AddNodes(graph: StateGraph<string>, nodes: seq<string>) returns (unique: bool)
    requires graph.View() == Graph({}, {}, map[])
    modifies graph
    ensures unique <==> Distinct(nodes)
    ensures unique ==> graph.View() == Graph(NameSet(nodes), {}, map[])
  {
    for i := 0 to |nodes|
      invariant Distinct(nodes[..i])
      invariant graph.View() == Graph(NameSet(nodes[..i]), {}, map[])
    {
      assert nodes[..i + 1] == nodes[..i] + [nodes[i]];
      var ok := graph.AddNode(nodes[i]);
      if !ok {
        return false;
      }
    }
    assert nodes[..|nodes|] == nodes;
    return true;
  }

  // The pairwise loop over consecutive nodes.
  method AddChain(graph: StateGraph<string>, s: seq<string>, par: set<string>)
    requires s != [] && graph.edges == {}
    modifies graph
    ensures graph.View() == old(graph.View()).(edges := ChainEdges(s, par, |s| - 1))
  {
    for i := 0 to |s| - 1
      invariant graph.View() == old(graph.View()).(edges := ChainEdges(s, par, i))
    {
      ChainStep(s, par, i);
      if !(s[i] in par || s[i + 1] in par) {
        graph.AddEdge(At(s[i]), At(s[i + 1]));
      }
    }
  }

  // The fan-out and fan-in loop over the block.
  method AddFan(graph: StateGraph<string>, s: seq<string>, start: nat, end: nat)
    requires start <= end < |s|
    modifies graph
    ensures graph.View() == old(graph.View()).(edges := old(graph.edges) + FanEdges(s, start, end + 1, end))
  {
    var before, after := Before(s, start), After(s, end);
    for i := start to end + 1
      invariant graph.View() == old(graph.View()).(edges := old(graph.edges) + FanEdges(s, start, i, end))
    {
      FanStep(s, start, i, end);
      graph.AddEdge(before, At(s[i]));
      graph.AddEdge(At(s[i]), after);
    }
  }

  lemma ChainStep(s: seq<string>, par: set<string>, n: nat)
    requires n + 1 < |s|
    ensures ChainEdges(s, par, n + 1) ==
            ChainEdges(s, par, n) +
            (if s[n] in par || s[n + 1] in par then {} else {(At(s[n]), At(s[n + 1]))})
  {
    assert Link(s, n) == (At(s[n]), At(s[n + 1]));
    assert Chained(s, par, n) <==> !(s[n] in par || s[n + 1] in par);
  }

  lemma FanStep(s: seq<string>, b: nat, n: nat, e: nat)
    requires b <= n <= e < |s|
    ensures FanEdges(s, b, n + 1, e) ==
            FanEdges(s, b, n, e) + {(Before(s, b), At(s[n])), (At(s[n]), After(s, e))}
  {
  }

  // --- the intended schedule -------------------------------------------------------

  function Singles(s: seq<string>): seq<set<Node<string>>> {
    seq(|s|, i requires 0 <= i < |s| => {At(s[i])})
  }

  function Together(s: seq<string>): set<Node<string>> {
    set i | 0 <= i < |s| :: At(s[i])
  }

  function AroundBlock(s: seq<string>, b: nat, e: nat): seq<set<Node<string>>>
    requires b <= e < |s|
  {
    Singles(s[..b]) + [Together(s[b..e + 1])] + Singles(s[e + 1..])
  }

  // One superstep per node, except that the parallel block is one superstep.
  function Schedule(s: seq<string>, par: set<string>): seq<set<Node<string>>> {
    var b, e := First(s, par), Last(s, par);
    if e < b then Singles(s) else AroundBlock(s, b, e)
  }

  // --- execution, in terms of the block's two ends ---------------------------------

  // The superstep in which s[i] runs when s[b..e + 1] is the block.
  function Level(b: nat, e: nat, i: nat): nat
    requires b <= e
  {
    if i < b then i else if i <= e then b else i - (e - b)
  }

  // The edge set by its meaning: from each superstep to the next.
  ghost predicate Joins(s: seq<string>, b: nat, e: nat, edge: Edge)
    requires b <= e < |s|
  {
    match edge
    case (At(x), At(y)) =>
      exists i, j :: 0 <= i < |s| && 0 <= j < |s| && x == s[i] && y == s[j] && Level(b, e, j) == Level(b, e, i) + 1
    case (Start, At(y)) => exists j :: 0 <= j < |s| && y == s[j] && Level(b, e, j) == 0
    case (At(x), End) => exists i :: 0 <= i < |s| && x == s[i] && Level(b, e, i) == Level(b, e, |s| - 1)
    case _ => false
  }

  lemma FanJoins(s: seq<string>, b: nat, e: nat, edge: Edge)
    requires b <= e < |s|
    requires edge in FanEdges(s, b, e + 1, e)
    ensures Joins(s, b, e, edge)
  {
    if i :| b <= i < e + 1 && edge == (Before(s, b), At(s[i])) {
      assert b > 0 ==> Level(b, e, b - 1) + 1 == Level(b, e, i);
    } else {
      var i :| b <= i < e + 1 && edge == (At(s[i]), After(s, e));
      assert e + 1 < |s| ==> Level(b, e, i) + 1 == Level(b, e, e + 1);
    }
  }

  lemma ChainJoins(s: seq<string>, b: nat, e: nat, i: nat)
    requires b <= e < |s| && i + 1 < |s|
    requires i < b || e <= i
    ensures Joins(s, b, e, Link(s, i))
  {
    assert Level(b, e, i) + 1 == Level(b, e, i + 1);
  }

  lemma {:induction false} JoinsAreWired(s: seq<string>, par: set<string>, b: nat, e: nat, edge: Edge)
    requires s != [] && Ends(s, par, b, e)
    requires Joins(s, b, e, edge)
    ensures edge in WiredEdges(s, par)
  {
    match edge
    case (At(x), At(y)) =>
      var i, j :| 0 <= i < |s| && 0 <= j < |s| && x == s[i] && y == s[j] && Level(b, e, j) == Level(b, e, i) + 1;
      NeighboursAreWired(s, par, b, e, i, j);
    case (Start, At(y)) =>
    case (At(x), End) =>
  }

  lemma NeighboursAreWired(s: seq<string>, par: set<string>, b: nat, e: nat, i: nat, j: nat)
    requires s != [] && Ends(s, par, b, e) && i < |s| && j < |s|
    requires Level(b, e, j) == Level(b, e, i) + 1
    ensures (At(s[i]), At(s[j])) in WiredEdges(s, par)
  {
    if par != {} && b <= j <= e {
      assert (Before(s, b), At(s[j])) in FanEdges(s, b, e + 1, e);
    } else if par != {} && b <= i <= e {
      assert (At(s[i]), After(s, e)) in FanEdges(s, b, e + 1, e);
    } else {
      assert Chained(s, par, i) && j == i + 1;
      assert Link(s, i) in ChainEdges(s, par, |s| - 1);
    }
  }

  // b and e are the block's ends; without a block, a block of the first node alone changes nothing.
  ghost predicate Ends(s: seq<string>, par: set<string>, b: nat, e: nat)
    requires s != []
  {
    && b <= e < |s|
    && (par == {} ==> b == e == 0)
    && (par != {} ==> b == First(s, par) && e == Last(s, par) && forall i :: 0 <= i < |s| ==> (s[i] in par <==> b <= i <= e))
  }

  lemma WiredAreJoins(s: seq<string>, par: set<string>, b: nat, e: nat, edge: Edge)
    requires s != [] && Ends(s, par, b, e)
    requires edge in WiredEdges(s, par)
    ensures Joins(s, b, e, edge)
  {
    if edge in ChainEdges(s, par, |s| - 1) {
      var i :| 0 <= i < |s| - 1 && Chained(s, par, i) && edge == Link(s, i);
      ChainJoins(s, b, e, i);
    } else if par != {} && edge in FanEdges(s, b, e + 1, e) {
      FanJoins(s, b, e, edge);
    } else if edge == (Start, At(s[0])) {
      assert Level(b, e, 0) == 0;
    }
  }

  // --- supersteps ------------------------------------------------------------------

  ghost predicate Realizes(edges: set<Edge>, s: seq<string>, b: nat, e: nat)
    requires b <= e < |s|
  {
    forall edge :: edge in edges <==> Joins(s, b, e, edge)
  }

  ghost function LevelSet(s: seq<string>, b: nat, e: nat, k: nat): set<Node<string>>
    requires b <= e < |s|
  {
    set i | 0 <= i < |s| && Level(b, e, i) == k :: At(s[i])
  }

  lemma SuccessorsOfStart(edges: set<Edge>, s: seq<string>, b: nat, e: nat)
    requires b <= e < |s| && Realizes(edges, s, b, e)
    ensures Successors(edges, {Start}) == LevelSet(s, b, e, 0)
  {
    forall n | n in LevelSet(s, b, e, 0) ensures n in Successors(edges, {Start}) {
      assert Joins(s, b, e, (Start, n));
    }
    forall n | n in Successors(edges, {Start}) ensures n in LevelSet(s, b, e, 0) {
      assert Joins(s, b, e, (Start, n));
    }
  }

  // No superstep is empty.
  lemma LevelInhabited(s: seq<string>, b: nat, e: nat, k: nat) returns (i: nat)
    requires b <= e < |s| && k <= Level(b, e, |s| - 1)
    ensures i < |s| && Level(b, e, i) == k
  {
    i := if k <= b then k else k + (e - b);
  }

  lemma SuccessorsOfLevel(edges: set<Edge>, s: seq<string>, b: nat, e: nat, k: nat)
    requires b <= e < |s| && Realizes(edges, s, b, e) && Distinct(s)
    requires k <= Level(b, e, |s| - 1)
    ensures Successors(edges, LevelSet(s, b, e, k)) ==
            if k == Level(b, e, |s| - 1) then {End} else LevelSet(s, b, e, k + 1)
  {
    var from, last := LevelSet(s, b, e, k), Level(b, e, |s| - 1);
    var i := LevelInhabited(s, b, e, k);
    if k == last {
      assert Joins(s, b, e, (At(s[i]), End));
    } else {
      forall n | n in LevelSet(s, b, e, k + 1) ensures n in Successors(edges, from) {
        assert Joins(s, b, e, (At(s[i]), n));
      }
    }
    forall n | n in Successors(edges, from)
      ensures if k == last then n == End else n in LevelSet(s, b, e, k + 1)
    {
      var edge :| edge in edges && edge.0 in from && n == edge.1;
      JoinsLeadUp(s, b, e, k, edge);
    }
  }

  // An edge out of level k leads to level k + 1, or to the end from the last level.
  lemma JoinsLeadUp(s: seq<string>, b: nat, e: nat, k: nat, edge: Edge)
    requires b <= e < |s| && Distinct(s) && Joins(s, b, e, edge) && edge.0 in LevelSet(s, b, e, k)
    ensures if k == Level(b, e, |s| - 1) then edge.1 == End else edge.1 in LevelSet(s, b, e, k + 1)
  {
    if edge.1.At? {
      var j :| 0 <= j < |s| && edge.1 == At(s[j]) && Level(b, e, j) == k + 1;
      assert Level(b, e, j) <= Level(b, e, |s| - 1);
    }
  }

  lemma {:induction false} FrontierIsLevel(edges: set<Edge>, s: seq<string>, b: nat, e: nat, k: nat)
    requires b <= e < |s| && Realizes(edges, s, b, e) && Distinct(s)
    ensures Frontier(edges, k) ==
            var last := Level(b, e, |s| - 1);
            if k <= last then LevelSet(s, b, e, k) else if k == last + 1 then {End} else {}
  {
    if k == 0 {
      SuccessorsOfStart(edges, s, b, e);
    } else {
      FrontierIsLevel(edges, s, b, e, k - 1);
      if k - 1 <= Level(b, e, |s| - 1) {
        SuccessorsOfLevel(edges, s, b, e, k - 1);
      } else {
        assert forall edge :: edge in edges ==> Joins(s, b, e, edge) && edge.0 != End;
      }
    }
  }

  lemma BlockEnds(s: seq<string>, par: set<string>) returns (b: nat, e: nat)
    requires Wirable(s, par)
    ensures Ends(s, par, b, e)
    ensures Realizes(WiredEdges(s, par), s, b, e)
  {
    b, e := if par == {} then 0 else First(s, par), if par == {} then 0 else Last(s, par);
    forall edge: Edge ensures edge in WiredEdges(s, par) <==> Joins(s, b, e, edge) {
      if edge in WiredEdges(s, par) {
        WiredAreJoins(s, par, b, e, edge);
      }
      if Joins(s, b, e, edge) {
        JoinsAreWired(s, par, b, e, edge);
      }
    }
  }

  lemma AroundBlockIsLevels(s: seq<string>, b: nat, e: nat, k: nat)
    requires b <= e < |s|
    ensures |AroundBlock(s, b, e)| == Level(b, e, |s| - 1) + 1
    ensures k < |AroundBlock(s, b, e)| ==> AroundBlock(s, b, e)[k] == LevelSet(s, b, e, k)
  {
    if k < |AroundBlock(s, b, e)| {
      var i := LevelInhabited(s, b, e, k);
      if k == b {
        var block := s[b..e + 1];
        assert forall j :: b <= j <= e ==> s[j] == block[j - b];
      } else {
        assert forall j :: 0 <= j < |s| && Level(b, e, j) == k ==> j == i;
      }
    }
  }

  lemma ScheduleIsLevels(s: seq<string>, par: set<string>, b: nat, e: nat, k: nat)
    requires s != [] && Ends(s, par, b, e)
    ensures |Schedule(s, par)| == Level(b, e, |s| - 1) + 1
    ensures k < |Schedule(s, par)| ==> Schedule(s, par)[k] == LevelSet(s, b, e, k)
  {
    AroundBlockIsLevels(s, b, e, k);
    if par == {} {
      FirstNodeAlone(s);
    }
  }

  lemma FirstNodeAlone(s: seq<string>)
    requires s != []
    ensures AroundBlock(s, 0, 0) == Singles(s)
  {
    assert Together(s[0..1]) == {At(s[0])} by {
      assert s[0..1] == [s[0]];
      assert At([s[0]][0]) in Together([s[0]]);
    }
    assert forall k :: 0 < k < |s| ==> s[1..][k - 1] == s[k];
    assert AroundBlock(s, 0, 0)[0] == {At(s[0])};
  }

  // Running the wired edges from START executes the schedule, superstep by superstep, then END,
  // then nothing.
  lemma ExecutionIsSchedule(s: seq<string>, par: set<string>, k: nat)
    requires Wirable(s, par)
    ensures Frontier(WiredEdges(s, par), k) ==
            var plan := Schedule(s, par);
            if k < |plan| then plan[k] else if k == |plan| then {End} else {}
  {
    var b, e := BlockEnds(s, par);
    FrontierIsLevel(WiredEdges(s, par), s, b, e, k);
    ScheduleIsLevels(s, par, b, e, k);
  }

  // No node is skipped and none runs twice.
  lemma EachNodeRunsOnce(s: seq<string>, par: set<string>, i: nat) returns (step: nat)
    requires Wirable(s, par) && i < |s|
    ensures forall k: nat :: At(s[i]) in Frontier(WiredEdges(s, par), k) <==> k == step
  {
    var b, e := BlockEnds(s, par);
    step := Level(b, e, i);
    forall k: nat ensures At(s[i]) in Frontier(WiredEdges(s, par), k) <==> k == step {
      FrontierIsLevel(WiredEdges(s, par), s, b, e, k);
    }
  }
}
