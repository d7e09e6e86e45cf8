// The part of LangGraph's StateGraph that the builders use: named nodes, unconditional edges, and
// conditional edges with a path map. Compiling yields the graph as a value.
module StateGraphs {
  datatype Node<T> = Start | End | At(name: T)

  datatype Graph<T(==)> = Graph(nodes: set<T>, edges: set<(Node<T>, Node<T>)>, routes: map<T, set<T>>)

  // One superstep: everything an active node has an edge to becomes active, once.
  function Successors<T(==)>(edges: set<(Node<T>, Node<T>)>, active: set<Node<T>>): set<Node<T>> {
    set e | e in edges && e.0 in active :: e.1
  }

  // The active set after k supersteps beyond the one START triggers.
  function Frontier<T(==)>(edges: set<(Node<T>, Node<T>)>, k: nat): set<Node<T>> {
    Successors(edges, if k == 0 then {Start} else Frontier(edges, k - 1))
  }

  class StateGraph<T(==)> {
    var nodes: set<T>
    var edges: set<(Node<T>, Node<T>)>
    var routes: map<T, set<T>>

    ghost function View(): Graph<T>
      reads this
    {
      Graph(nodes, edges, routes)
    }

    constructor ()
      ensures View() == Graph({}, {}, map[])
    {
      nodes, edges, routes := {}, {}, map[];
    }

    // add_node raises on a name it already holds.
    method AddNode(name: T) returns (ok: bool)
      modifies this
      ensures ok == (name !in old(nodes))
      ensures View() == old(View()).(nodes := old(nodes) + {name})
    {
      ok := name !in nodes;
      nodes := nodes + {name};
    }

    method AddEdge(source: Node<T>, target: Node<T>)
      modifies this
      ensures View() == old(View()).(edges := old(edges) + {(source, target)})
    {
      edges := edges + {(source, target)};
    }

    method AddConditionalEdges(source: T, targets: set<T>)
      modifies this
      ensures View() == old(View()).(routes := old(routes)[source := targets])
    {
      routes := routes[source := targets];
    }

    method Compile() returns (g: Graph<T>)
      ensures g == View()
    {
      g := Graph(nodes, edges, routes);
    }
  }
}
