// The multigraph of the trace analyser: adjacency lists with one entry per link and end.
module Graph {
  import opened Prelude

  type Vertex = nat
  type Adjacency = map<Vertex, seq<Vertex>>

  function AddVertex(g: Adjacency, v: Vertex): Adjacency
  {
    if v in g then g else g[v := []]
  }

  function Append(g: Adjacency, u: Vertex, v: Vertex): Adjacency
    requires u in g
  {
    g[u := g[u] + [v]]
  }

  function AddEdge(g: Adjacency, u: Vertex, v: Vertex): Adjacency
  {
    Append(Append(AddVertex(AddVertex(g, u), v), u, v), v, u)
  }

  // list.remove(x) on a list that contains x.
  function RemoveFirst(s: seq<Vertex>, x: Vertex): seq<Vertex>
    requires x in s
  {
    if s[0] == x then s[1..] else [s[0]] + RemoveFirst(s[1..], x)
  }

  function Remove(g: Adjacency, u: Vertex, v: Vertex): Adjacency
    requires u in g && v in g[u]
  {
    g[u := RemoveFirst(g[u], v)]
  }

  // The flag is false when list.remove raises ValueError.
  function EraseEdge(g: Adjacency, u: Vertex, v: Vertex): (r: (Adjacency, bool))
  {
    var h := AddVertex(AddVertex(g, u), v);
    if v !in h[u] then (h, false)
    else
      var k := Remove(h, u, v);
      if u !in k[v] then (k, false) else (Remove(k, v, u), true)
  }

  /* Multiplicities. */

  function Mult(g: Adjacency, u: Vertex, v: Vertex): nat
  {
    if u in g then Count(g[u], v) else 0
  }

  function One(b: bool): nat
  {
    if b then 1 else 0
  }

  lemma {:induction false} CountHead(s: seq<Vertex>, x: Vertex, y: Vertex)
    ensures Count([x] + s, y) == One(x == y) + Count(s, y)
  {
    if s == [] {
      assert [x] + s == [] + [x];
      CountAppend([], x);
    } else {
      var front, last := s[..|s| - 1], s[|s| - 1];
      assert [x] + s == ([x] + front) + [last];
      CountAppend([x] + front, last);
      CountHead(front, x, y);
    }
  }

  lemma {:induction false} CountPositive(s: seq<Vertex>, x: Vertex)
    ensures x in s <==> Count(s, x) > 0
  {
    if s == [] {
    } else {
      CountPositive(s[..|s| - 1], x);
      assert s == s[..|s| - 1] + [s[|s| - 1]];
    }
  }

  lemma {:induction false} RemoveFirstCounts(s: seq<Vertex>, x: Vertex, y: Vertex)
    requires x in s
    ensures Count(RemoveFirst(s, x), y) == Count(s, y) - One(x == y)
  {
    assert s == [s[0]] + s[1..];
    CountHead(s[1..], s[0], y);
    if s[0] == x {
    } else {
      RemoveFirstCounts(s[1..], x, y);
      CountHead(RemoveFirst(s[1..], x), s[0], y);
    }
  }

  lemma AppendMult(g: Adjacency, u: Vertex, v: Vertex, x: Vertex, y: Vertex)
    requires u in g
    ensures Mult(Append(g, u, v), x, y) == Mult(g, x, y) + One(x == u && y == v)
  {
  }

  lemma AddEdgeMult(g: Adjacency, u: Vertex, v: Vertex, x: Vertex, y: Vertex)
    ensures Mult(AddEdge(g, u, v), x, y) == Mult(g, x, y) + One(x == u && y == v) + One(x == v && y == u)
  {
    var h := AddVertex(AddVertex(g, u), v);
    assert Mult(h, x, y) == Mult(g, x, y);
    AppendMult(h, u, v, x, y);
    AppendMult(Append(h, u, v), v, u, x, y);
  }

  // erase_edge succeeds exactly when both list entries are there, and takes away just them.
  lemma EraseEdgeMult(g: Adjacency, u: Vertex, v: Vertex, x: Vertex, y: Vertex)
    ensures EraseEdge(g, u, v).1 <==> Mult(g, u, v) > 0 && Mult(g, v, u) > One(u == v)
    ensures EraseEdge(g, u, v).1 ==>
      Mult(EraseEdge(g, u, v).0, x, y) == Mult(g, x, y) - One(x == u && y == v) - One(x == v && y == u)
  {
    var h := AddVertex(AddVertex(g, u), v);
    assert Mult(h, x, y) == Mult(g, x, y) && Mult(h, u, v) == Mult(g, u, v) && Mult(h, v, u) == Mult(g, v, u);
    CountPositive(h[u], v);
    if v in h[u] {
      var k := Remove(h, u, v);
      RemoveMult(h, u, v, x, y);
      RemoveMult(h, u, v, v, u);
      CountPositive(k[v], u);
      if u in k[v] {
        RemoveMult(k, v, u, x, y);
      }
    }
  }

  lemma RemoveMult(g: Adjacency, u: Vertex, v: Vertex, x: Vertex, y: Vertex)
    requires u in g && v in g[u]
    ensures Mult(Remove(g, u, v), x, y) == Mult(g, x, y) - One(x == u && y == v)
  {
    RemoveFirstCounts(g[u], v, y);
  }

  ghost predicate Symmetric(g: Adjacency)
  {
    forall u, v :: Mult(g, u, v) == Mult(g, v, u)
  }

  lemma AddVertexSymmetric(g: Adjacency, v: Vertex)
    requires Symmetric(g)
    ensures Symmetric(AddVertex(g, v))
  {
    assert forall x, y :: Mult(AddVertex(g, v), x, y) == Mult(g, x, y);
  }

  lemma AddEdgeSymmetric(g: Adjacency, u: Vertex, v: Vertex)
    requires Symmetric(g)
    ensures Symmetric(AddEdge(g, u, v))
  {
    forall x, y ensures Mult(AddEdge(g, u, v), x, y) == Mult(AddEdge(g, u, v), y, x) {
      AddEdgeMult(g, u, v, x, y);
      AddEdgeMult(g, u, v, y, x);
    }
  }

  lemma EraseEdgeSymmetric(g: Adjacency, u: Vertex, v: Vertex)
    requires Symmetric(g) && EraseEdge(g, u, v).1
    ensures Symmetric(EraseEdge(g, u, v).0)
  {
    forall x, y ensures Mult(EraseEdge(g, u, v).0, x, y) == Mult(EraseEdge(g, u, v).0, y, x) {
      EraseEdgeMult(g, u, v, x, y);
      EraseEdgeMult(g, u, v, y, x);
    }
  }

  /* Connectivity. */

  predicate Neighbour(g: Adjacency, u: Vertex, v: Vertex)
  {
    u in g && v in g[u]
  }

  predicate IsPath(g: Adjacency, p: seq<Vertex>)
  {
    p != [] && forall i :: 0 <= i < |p| - 1 ==> Neighbour(g, p[i], p[i + 1])
  }

  predicate IsPathBetween(g: Adjacency, p: seq<Vertex>, u: Vertex, v: Vertex)
  {
    IsPath(g, p) && p[0] == u && p[|p| - 1] == v
  }

  ghost predicate Reaches(g: Adjacency, u: Vertex, v: Vertex)
  {
    exists p :: IsPathBetween(g, p, u, v)
  }

  // Every vertex is reachable from every other one.
  ghost predicate Connected(g: Adjacency)
  {
    forall u, v :: u in g && v in g ==> Reaches(g, u, v)
  }

  lemma NeighbourIff(g: Adjacency, u: Vertex, v: Vertex)
    ensures Neighbour(g, u, v) <==> Mult(g, u, v) > 0
  {
    if u in g {
      CountPositive(g[u], v);
    }
  }

  lemma NeighbourSymmetric(g: Adjacency, u: Vertex, v: Vertex)
    requires Symmetric(g) && Neighbour(g, u, v)
    ensures Neighbour(g, v, u)
  {
    NeighbourIff(g, u, v);
    NeighbourIff(g, v, u);
    assert Mult(g, u, v) == Mult(g, v, u);
  }

  lemma ReachesItself(g: Adjacency, u: Vertex)
    ensures Reaches(g, u, u)
  {
    assert IsPathBetween(g, [u], u, u);
  }

  lemma ReachesNext(g: Adjacency, u: Vertex, v: Vertex, w: Vertex)
    requires Reaches(g, u, v) && Neighbour(g, v, w)
    ensures Reaches(g, u, w)
  {
    var p :| IsPathBetween(g, p, u, v);
    assert IsPathBetween(g, p + [w], u, w);
  }

  lemma ReachesTransitive(g: Adjacency, u: Vertex, v: Vertex, w: Vertex)
    requires Reaches(g, u, v) && Reaches(g, v, w)
    ensures Reaches(g, u, w)
  {
    var p :| IsPathBetween(g, p, u, v);
    var q :| IsPathBetween(g, q, v, w);
    var r := p + q[1..];
    forall i | 0 <= i < |r| - 1 ensures Neighbour(g, r[i], r[i + 1]) {
      if i >= |p| - 1 {
        assert r[i] == q[i - (|p| - 1)] && r[i + 1] == q[i + 1 - (|p| - 1)];
      }
    }
    assert IsPathBetween(g, r, u, w);
  }

  lemma {:induction false} PathReversed(g: Adjacency, p: seq<Vertex>)
    requires Symmetric(g) && IsPath(g, p)
    ensures Reaches(g, p[|p| - 1], p[0])
    decreases |p|
  {
    if |p| == 1 {
      ReachesItself(g, p[0]);
    } else {
      assert Neighbour(g, p[0], p[1]);
      NeighbourSymmetric(g, p[0], p[1]);
      PathReversed(g, p[1..]);
      ReachesNext(g, p[|p| - 1], p[1], p[0]);
    }
  }

  lemma ReachesSymmetric(g: Adjacency, u: Vertex, v: Vertex)
    requires Symmetric(g) && Reaches(g, u, v)
    ensures Reaches(g, v, u)
  {
    var p :| IsPathBetween(g, p, u, v);
    PathReversed(g, p);
  }

  ghost predicate ClosedUnder(g: Adjacency, s: set<Vertex>)
  {
    forall u, v :: u in s && Neighbour(g, u, v) ==> v in s
  }

  lemma {:induction false} PathStays(g: Adjacency, s: set<Vertex>, p: seq<Vertex>)
    requires ClosedUnder(g, s) && IsPath(g, p) && p[0] in s
    ensures p[|p| - 1] in s
    decreases |p|
  {
    if |p| > 1 {
      assert Neighbour(g, p[0], p[1]);
      PathStays(g, s, p[1..]);
    }
  }

  // A set found by search from start decides connectivity by its size alone.
  lemma SearchDecides(g: Adjacency, start: Vertex, visited: set<Vertex>)
    requires Symmetric(g) && start in g && start in visited && visited <= g.Keys && ClosedUnder(g, visited)
    requires forall v :: v in visited ==> Reaches(g, start, v)
    ensures forall v :: v in visited <==> Reaches(g, start, v)
    ensures |visited| == |g| <==> Connected(g)
  {
    forall v | Reaches(g, start, v) ensures v in visited {
      var p :| IsPathBetween(g, p, start, v);
      PathStays(g, visited, p);
    }
    if visited == g.Keys {
      forall u, v | u in g && v in g ensures Reaches(g, u, v) {
        ReachesSymmetric(g, start, u);
        ReachesTransitive(g, u, start, v);
      }
    } else {
      assert g.Keys == visited + (g.Keys - visited);
      var v :| v in g.Keys - visited;
      assert !Reaches(g, start, v);
      SubsetSize(visited, g.Keys);
    }
  }

  lemma SubsetSize(a: set<Vertex>, b: set<Vertex>)
    requires a <= b && a != b
    ensures |a| < |b|
  {
    assert b == a + (b - a);
    assert |b - a| > 0;
  }

}
