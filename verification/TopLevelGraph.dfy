// src/graph/supervisor.py and src/graph/builder.py: the seven phases, their fixed edges, and the two
// supervisor-routed branches.
module TopLevelGraph {
  import opened Common
  import opened LabStates
  import opened StateGraphs

  const PHASE_ORDER: seq<Phase> :=
    [Understanding, Research, Baseline, Design, Implementation, Evaluation, Delivery]

  const FIXED_EDGES: seq<(Node<Phase>, Node<Phase>)> := [
    (Start, At(Understanding)),
    (At(Understanding), At(Research)),
    (At(Baseline), At(Design)),
    (At(Design), At(Implementation)),
    (At(Implementation), At(Evaluation)),
    (At(Delivery), End)
  ]

  const ROUTES: map<Phase, set<Phase>> :=
    map[Research := {Baseline, Design}, Evaluation := {Design, Delivery}]

  datatype GraphError = UnexpectedPhase | RouteNotMapped | NotABool

  function Supervisor(s: LabState): Result<Phase, GraphError> {
    match s.phase
    case Some(Research) => Ok(if s.currentIteration == 0 then Baseline else Design)
    case Some(Evaluation) =>
      Ok(if s.iterationsWithoutImprovement >= s.maxIterations then Delivery else Design)
    case _ => Err(UnexpectedPhase)
  }

  ghost const TOP: Graph<Phase> :=
    Graph((set p | p in PHASE_ORDER), (set e | e in FIXED_EDGES), ROUTES)

  // GraphBuilder.build, for a configured interrupt_after value per phase; None stands for a YAML
  // value that is not a boolean.
  method Build(interruptAfter: map<Phase, Option<bool>>) returns (r: Result<(Graph<Phase>, seq<Phase>), GraphError>)
    requires forall p :: p in PHASE_ORDER ==> p in interruptAfter
    ensures r == Err(NotABool) <==> exists p :: p in PHASE_ORDER && interruptAfter[p].None?
    ensures r.Ok? ==>
            && r.value.0 == TOP
            && forall p :: p in r.value.1 <==> p in PHASE_ORDER && interruptAfter[p] == Some(true)
    ensures r.Err? ==> r.error == NotABool
  {
    var graph := new StateGraph<Phase>();
    for i := 0 to |PHASE_ORDER|
      invariant graph.View() == Graph((set p | p in PHASE_ORDER[..i]), {}, map[])
    {
      assert PHASE_ORDER[..i + 1] == PHASE_ORDER[..i] + [PHASE_ORDER[i]];
      var _ := graph.AddNode(PHASE_ORDER[i]);
    }
    assert PHASE_ORDER[..|PHASE_ORDER|] == PHASE_ORDER;
    for i := 0 to |FIXED_EDGES|
      invariant graph.View() == Graph(TOP.nodes, (set e | e in FIXED_EDGES[..i]), map[])
    {
      assert FIXED_EDGES[..i + 1] == FIXED_EDGES[..i] + [FIXED_EDGES[i]];
      graph.AddEdge(FIXED_EDGES[i].0, FIXED_EDGES[i].1);
    }
    assert FIXED_EDGES[..|FIXED_EDGES|] == FIXED_EDGES;
    graph.AddConditionalEdges(Research, {Baseline, Design});
    graph.AddConditionalEdges(Evaluation, {Design, Delivery});

    var stops := InterruptPoints(interruptAfter);
    if stops.None? {
      return Err(NotABool);
    }
    var g := graph.Compile();
    return Ok((g, stops.value));
  }

  // The interrupt_after loop, over phases whose setting must be a boolean.
  method InterruptPoints(interruptAfter: map<Phase, Option<bool>>) returns (r: Option<seq<Phase>>)
    requires forall p :: p in PHASE_ORDER ==> p in interruptAfter
    ensures r.None? <==> exists p :: p in PHASE_ORDER && interruptAfter[p].None?
    ensures r.Some? ==> forall p :: p in r.value <==> p in PHASE_ORDER && interruptAfter[p] == Some(true)
  {
    var stops: seq<Phase> := [];
    for i := 0 to |PHASE_ORDER|
      invariant forall j :: 0 <= j < i ==> interruptAfter[PHASE_ORDER[j]].Some?
      invariant forall p :: p in stops <==> p in PHASE_ORDER[..i] && interruptAfter[p] == Some(true)
    {
      assert PHASE_ORDER[..i + 1] == PHASE_ORDER[..i] + [PHASE_ORDER[i]];
      var value := interruptAfter[PHASE_ORDER[i]];
      if value.None? {
        return None;
      }
      if value.value {
        stops := stops + [PHASE_ORDER[i]];
      }
    }
    assert PHASE_ORDER[..|PHASE_ORDER|] == PHASE_ORDER;
    return Some(stops);
  }

  // The phases one superstep after p activates, in the state p left behind.
  ghost function Activated(g: Graph<Phase>, p: Phase, s: LabState): set<Node<Phase>> {
    Successors(g.edges, {At(p)}) +
    if p in g.routes && Supervisor(s).Ok? && Supervisor(s).value in g.routes[p]
    then {At(Supervisor(s).value)} else {}
  }

  // What runs after phase p.
  function Next(p: Phase, s: LabState): Result<Node<Phase>, GraphError> {
    match p
    case Understanding => Ok(At(Research))
    case Baseline => Ok(At(Design))
    case Design => Ok(At(Implementation))
    case Implementation => Ok(At(Evaluation))
    case Delivery => Ok(End)
    case _ =>
      match Supervisor(s)
      case Err(e) => Err(e)
      case Ok(target) => if target in ROUTES[p] then Ok(At(target)) else Err(RouteNotMapped)
  }

  // Next is one superstep of the graph that Build compiles, and that graph never runs two phases
  // at once.
  lemma NextIsOneSuperstep(p: Phase, s: LabState)
    requires Next(p, s).Ok?
    ensures Activated(TOP, p, s) == {Next(p, s).value}
  {
    var step := Successors(TOP.edges, {At(p)});
    forall n ensures n in step <==> exists i :: 0 <= i < |FIXED_EDGES| && FIXED_EDGES[i] == (At(p), n) {
      if i :| 0 <= i < |FIXED_EDGES| && FIXED_EDGES[i] == (At(p), n) {
        assert FIXED_EDGES[i] in TOP.edges;
      }
    }
    if p != Research && p != Evaluation {
      var at := match p
        case Understanding => 1
        case Baseline => 2
        case Design => 3
        case Implementation => 4
        case _ => 5;
      assert FIXED_EDGES[at] == (At(p), Next(p, s).value);
    }
  }

  // Stamped by _wrap_phase, the supervisor is never asked about a phase it does not route and never
  // answers with a branch the path map lacks.
  lemma RoutingNeverFails(p: Phase, s: LabState)
    requires s.phase == Some(p)
    ensures Next(p, s).Ok?
  {
  }

  // Where a branch leads: the baseline is built exactly while no iteration has been finished, and the
  // loop is left exactly once patience is used up, whatever the configured patience is; about any other
  // phase the supervisor has no answer.
  lemma BranchesIff(s: LabState)
    ensures s.phase == Some(Research) ==>
      Next(Research, s) == if s.currentIteration > 0 then Ok(At(Design)) else Ok(At(Baseline))
    ensures s.phase == Some(Evaluation) ==>
      Next(Evaluation, s) == if s.iterationsWithoutImprovement < s.maxIterations then Ok(At(Design)) else Ok(At(Delivery))
    ensures Supervisor(s).Err? <==> s.phase != Some(Research) && s.phase != Some(Evaluation)
  {
  }

  function Stamped(p: Phase, iteration: nat): LabState {
    NewState(iteration).(phase := Some(p), currentIteration := iteration)
  }

  // The path map holds exactly the answers the supervisor can give.
  lemma RoutesAreTheAnswers(p: Phase, target: Phase)
    ensures
      (p in TOP.routes && target in TOP.routes[p]) <==>
      exists s: LabState :: s.phase == Some(p) && Supervisor(s) == Ok(target)
  {
    assert Stamped(p, 0).phase == Some(p) && Stamped(p, 1).phase == Some(p);
    match p
    case Research =>
      assert Supervisor(Stamped(Research, 0)) == Ok(Baseline) && Supervisor(Stamped(Research, 1)) == Ok(Design);
    case Evaluation =>
      assert Supervisor(Stamped(Evaluation, 0)) == Ok(Delivery) && Supervisor(Stamped(Evaluation, 1)) == Ok(Design);
    case _ =>
  }

  // Every phase is a node, and a run enters at one of them.
  lemma EveryPhaseIsANode(p: Phase)
    ensures p in TOP.nodes
    ensures Successors(TOP.edges, {Start}) == {At(Understanding)}
  {
    var at := match p
      case Understanding => 0
      case Research => 1
      case Baseline => 2
      case Design => 3
      case Implementation => 4
      case Evaluation => 5
      case Delivery => 6;
    assert PHASE_ORDER[at] == p;
    assert FIXED_EDGES[0] in TOP.edges;
  }
}
