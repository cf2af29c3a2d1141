// The Graph object of the trace analyser.
module GraphObject {
  import G = Graph

  class Graph {
    var graph: G.Adjacency

    constructor ()
      ensures graph == map[] && G.Symmetric(graph)
    {
      graph := map[];
    }

    method AddVertex(vertex: G.Vertex)
      modifies this
      ensures graph == G.AddVertex(old(graph), vertex)
      ensures old(G.Symmetric(graph)) ==> G.Symmetric(graph)
    {
      if G.Symmetric(graph) {
        G.AddVertexSymmetric(graph, vertex);
      }
      if vertex !in graph {
        graph := graph[vertex := []];
      }
    }

    method AddEdge(u: G.Vertex, v: G.Vertex)
      modifies this
      ensures graph == G.AddEdge(old(graph), u, v)
      ensures old(G.Symmetric(graph)) ==> G.Symmetric(graph)
    {
      if G.Symmetric(graph) {
        G.AddEdgeSymmetric(graph, u, v);
      }
      AddVertex(u);
      AddVertex(v);
      graph := graph[u := graph[u] + [v]];
      graph := graph[v := graph[v] + [u]];
    }

    // ok is false when list.remove raised ValueError.
    method EraseEdge(u: G.Vertex, v: G.Vertex) returns (ok: bool)
      modifies this
      ensures (graph, ok) == G.EraseEdge(old(graph), u, v)
      ensures old(G.Symmetric(graph)) && ok ==> G.Symmetric(graph)
    {
      if G.Symmetric(graph) && G.EraseEdge(graph, u, v).1 {
        G.EraseEdgeSymmetric(graph, u, v);
      }
      AddVertex(u);
      AddVertex(v);
      ok := RemoveEntry(u, v);
      if ok {
        ok := RemoveEntry(v, u);
      }
    }

    // self.graph[u].remove(v)
    method RemoveEntry(u: G.Vertex, v: G.Vertex) returns (ok: bool)
      requires u in graph
      modifies this
      ensures ok == (v in old(graph)[u])
      ensures graph == if ok then G.Remove(old(graph), u, v) else old(graph)
    {
      var list, i := graph[u], 0;
      while i < |list| && list[i] != v
        invariant i <= |list| && v !in list[..i]
      {
        i := i + 1;
      }
      ok := i < |list|;
      if ok {
        RemovedAt(list, i, v);
        graph := graph[u := list[..i] + list[i + 1..]];
      }
    }

    method IsConnected() returns (connected: bool)
      requires G.Symmetric(graph)
      ensures connected <==> G.Connected(graph)
    {
      if graph == map[] {
        return true;
      }
      var visited: set<G.Vertex> := {};
      assert graph.Keys != {};
      var start :| start in graph.Keys;
      var stack := [start];
      G.ReachesItself(graph, start);
      while stack != []
        invariant visited <= graph.Keys
        invariant forall v :: v in visited || v in stack ==> v in graph && G.Reaches(graph, start, v)
        invariant start in visited || start in stack
        invariant forall u, v :: u in visited && G.Neighbour(graph, u, v) ==> v in visited || v in stack
        decreases graph.Keys - visited, |stack|
      {
        var vertex := stack[|stack| - 1];
        ghost var before := stack;
        stack := stack[..|stack| - 1];
        assert forall v :: v in before ==> v in stack || v == vertex;
        if vertex !in visited {
          visited := visited + {vertex};
          stack := PushNeighbours(vertex, visited, stack, start);
        }
      }
      G.SearchDecides(graph, start, visited);
      return |visited| == |graph|;
    }

    // The inner loop: the neighbours not yet visited go on the stack, with repetitions.
    method PushNeighbours(vertex: G.Vertex, visited: set<G.Vertex>, stack: seq<G.Vertex>, ghost start: G.Vertex)
      returns (pushed: seq<G.Vertex>)
      requires G.Symmetric(graph) && vertex in graph && G.Reaches(graph, start, vertex)
      requires forall v :: v in stack ==> v in graph && G.Reaches(graph, start, v)
      ensures stack <= pushed
      ensures forall v :: v in pushed ==> v in graph && G.Reaches(graph, start, v)
      ensures forall v :: G.Neighbour(graph, vertex, v) ==> v in visited || v in pushed
    {
      pushed := stack;
      var list := graph[vertex];
      for i := 0 to |list|
        invariant stack <= pushed
        invariant forall v :: v in pushed ==> v in graph && G.Reaches(graph, start, v)
        invariant forall k :: 0 <= k < i ==> list[k] in visited || list[k] in pushed
      {
        if list[i] !in visited {
          G.ReachesNext(graph, start, vertex, list[i]);
          G.NeighbourSymmetric(graph, vertex, list[i]);
          pushed := pushed + [list[i]];
        }
      }
    }
  }

  lemma {:induction false} RemovedAt(list: seq<G.Vertex>, i: nat, v: G.Vertex)
    requires i < |list| && list[i] == v && v !in list[..i]
    ensures v in list && G.RemoveFirst(list, v) == list[..i] + list[i + 1..]
  {
    if i > 0 {
      assert list[0] in list[..i];
      assert forall k :: 0 <= k < i - 1 ==> list[1..][k] == list[..i][k + 1];
      RemovedAt(list[1..], i - 1, v);
      assert list[..i] + list[i + 1..] == [list[0]] + (list[1..][..i - 1] + list[1..][i..]);
    }
  }
}
