// What the replayed graph and the emitted events are, by the trace alone: the vertices, the
// entries, when the graph is connected, and what is emitted.
module Topology {
  import opened Prelude
  import opened Trace
  import G = Graph

  /* What an event finds. */

  function OtherDirection(dir: LinkDirection): LinkDirection
  {
    if dir.INCOMING? then OUTGOING else INCOMING
  }

  // The other end has reported the session of this open or close report open.
  predicate OtherEndReported(before: seq<Event>, e: Event)
    requires e.kind.Open? || e.kind.Close?
  {
    IsOpen(before, e.b, OtherDirection(e.kind.dir), e.a)
  }

  // add_edge or erase_edge is called.
  predicate TouchesGraph(before: seq<Event>, e: Event)
  {
    (e.kind.Open? || e.kind.Close?) && OtherEndReported(before, e)
  }

  lemma OtherEndFollows(l: Links, before: seq<Event>, e: Event)
    requires SetsFollow(l, before) && (e.kind.Open? || e.kind.Close?)
    ensures OtherEndOpen(l, e) <==> OtherEndReported(before, e)
  {
  }

  /* Vertices. */

  predicate EndOfLink(trace: seq<Event>, v: Node)
  {
    trace != []
    && (EndOfLink(Front(trace), v) || (TouchesGraph(Front(trace), Last(trace)) && (v == Last(trace).a || v == Last(trace).b)))
  }

  lemma StepVertices(l: Links, before: seq<Event>, e: Event, v: Node)
    requires SetsFollow(l, before) && Step(l, e).Some?
    ensures v in Step(l, e).value.graph <==> v in l.graph || (TouchesGraph(before, e) && (v == e.a || v == e.b))
  {
    if e.kind.Open? || e.kind.Close? {
      OtherEndFollows(l, before, e);
    }
    if e.kind.Open? {
      OpenEffect(l, e, e.a, e.b);
    } else if e.kind.Close? {
      CloseEffect(l, e, e.a, e.b);
      EraseKeepsVertices(l.graph, e.a, e.b, v);
    }
  }

  lemma EraseKeepsVertices(g: G.Adjacency, u: Node, v: Node, x: Node)
    ensures x in G.EraseEdge(g, u, v).0 <==> x in g || x == u || x == v
  {
  }

  // After every replay each numbered node is a vertex, and the only others are ends of links
  // that events added or removed.
  lemma {:induction false} VerticesAre(nodes: set<Node>, trace: seq<Event>, v: Node)
    requires Replay(Start(nodes), trace).Some?
    ensures v in Replay(Start(nodes), trace).value.graph <==> v in nodes || EndOfLink(trace, v)
  {
    if trace == [] {
    } else {
      VerticesAre(nodes, Front(trace), v);
      ReplayFollowsTrace(nodes, Front(trace));
      StepVertices(Replay(Start(nodes), Front(trace)).value, Front(trace), Last(trace), v);
    }
  }

  predicate NamesOnly(nodes: set<Node>, trace: seq<Event>)
  {
    forall i :: 0 <= i < |trace| ==> trace[i].a in nodes && trace[i].b in nodes
  }

  lemma {:induction false} EndsAreNamed(nodes: set<Node>, trace: seq<Event>, v: Node)
    requires NamesOnly(nodes, trace) && EndOfLink(trace, v)
    ensures v in nodes
  {
    if EndOfLink(Front(trace), v) {
      EndsAreNamed(nodes, Front(trace), v);
    }
  }

  /* Entries. */

  // Entries of v in the list of u that came from reopening a link that was up.
  function Extra(trace: seq<Event>, u: Node, v: Node): nat
  {
    if trace == [] then 0
    else
      var e := Last(trace);
      Extra(Front(trace), u, v)
      + if Reopens(Front(trace), e) then G.One(u == e.a && v == e.b) + G.One(u == e.b && v == e.a) else 0
  }

  // The list of u has v once for each direction of the link between them that is up, and once
  // more for each time such a link was reopened.
  lemma {:induction false} EntriesCounted(nodes: set<Node>, trace: seq<Event>, u: Node, v: Node)
    requires WellFounded(trace)
    ensures Replay(Start(nodes), trace).Some?
    ensures G.Mult(Replay(Start(nodes), trace).value.graph, u, v) == LinksBetween(trace, u, v) + Extra(trace, u, v)
  {
    ReplaySucceedsIff(nodes, trace);
    ReplayFollowsTrace(nodes, trace);
    if trace == [] {
    } else {
      var l := Replay(Start(nodes), Front(trace)).value;
      EntriesCounted(nodes, Front(trace), u, v);
      ReplayFollowsTrace(nodes, Front(trace));
      StepExcess(l, Last(trace), u, v);
      UpFollows(l, Front(trace), u, v);
      UpFollows(Replay(Start(nodes), trace).value, trace, u, v);
      assert ReopensUp(l, Last(trace)) <==> Reopens(Front(trace), Last(trace));
    }
  }

  lemma UpFollows(l: Links, trace: seq<Event>, u: Node, v: Node)
    requires SetsFollow(l, trace)
    ensures UpBetween(l, u, v) == LinksBetween(trace, u, v)
  {
  }

  lemma {:induction false} NoneExtra(trace: seq<Event>, u: Node, v: Node)
    requires !ReopensSomewhere(trace)
    ensures Extra(trace, u, v) == 0
  {
    if trace == [] {
    } else {
      NoneExtra(Front(trace), u, v);
    }
  }

  /* Connectivity. */

  // A link between x and y is up, in one direction or the other, or an entry is left of one that
  // was reopened.
  predicate Joins(trace: seq<Event>, x: Node, y: Node)
  {
    LinkIsUp(trace, x, y) || LinkIsUp(trace, y, x) || Extra(trace, x, y) > 0
  }

  predicate IsChain(trace: seq<Event>, p: seq<Node>)
  {
    p != [] && forall i :: 0 <= i < |p| - 1 ==> Joins(trace, p[i], p[i + 1])
  }

  ghost predicate Chained(trace: seq<Event>, u: Node, v: Node)
  {
    exists p :: IsChain(trace, p) && p[0] == u && p[|p| - 1] == v
  }

  // Every two of the nodes are joined by a chain.
  ghost predicate AllJoined(nodes: set<Node>, trace: seq<Event>)
  {
    forall u, v :: u in nodes && v in nodes ==> Chained(trace, u, v)
  }

  lemma NeighbourIffJoins(nodes: set<Node>, trace: seq<Event>, u: Node, v: Node)
    requires WellFounded(trace)
    ensures Replay(Start(nodes), trace).Some?
    ensures G.Neighbour(Replay(Start(nodes), trace).value.graph, u, v) <==> Joins(trace, u, v)
  {
    EntriesCounted(nodes, trace, u, v);
    G.NeighbourIff(Replay(Start(nodes), trace).value.graph, u, v);
  }

  lemma ChainIffPath(nodes: set<Node>, trace: seq<Event>, p: seq<Node>)
    requires WellFounded(trace)
    ensures Replay(Start(nodes), trace).Some?
    ensures IsChain(trace, p) <==> G.IsPath(Replay(Start(nodes), trace).value.graph, p)
  {
    ReplaySucceedsIff(nodes, trace);
    forall i | 0 <= i < |p| - 1
      ensures G.Neighbour(Replay(Start(nodes), trace).value.graph, p[i], p[i + 1]) <==> Joins(trace, p[i], p[i + 1])
    {
      NeighbourIffJoins(nodes, trace, p[i], p[i + 1]);
    }
  }

  lemma ReachesIffChained(nodes: set<Node>, trace: seq<Event>, u: Node, v: Node)
    requires WellFounded(trace)
    ensures Replay(Start(nodes), trace).Some?
    ensures G.Reaches(Replay(Start(nodes), trace).value.graph, u, v) <==> Chained(trace, u, v)
  {
    ReplaySucceedsIff(nodes, trace);
    var graph := Replay(Start(nodes), trace).value.graph;
    if p :| G.IsPathBetween(graph, p, u, v) {
      ChainIffPath(nodes, trace, p);
    }
    if p :| IsChain(trace, p) && p[0] == u && p[|p| - 1] == v {
      ChainIffPath(nodes, trace, p);
      assert G.IsPathBetween(graph, p, u, v);
    }
  }

  // The graph after a trace that names only the numbered nodes has exactly these as vertices,
  // isolated ones too, and is connected exactly when every two of them are joined by a chain of
  // links.
  lemma ConnectedIff(nodes: set<Node>, trace: seq<Event>)
    requires WellFounded(trace) && NamesOnly(nodes, trace)
    ensures Replay(Start(nodes), trace).Some?
    ensures Replay(Start(nodes), trace).value.graph.Keys == nodes
    ensures G.Connected(Replay(Start(nodes), trace).value.graph) <==> AllJoined(nodes, trace)
  {
    ReplaySucceedsIff(nodes, trace);
    var graph := Replay(Start(nodes), trace).value.graph;
    forall v ensures v in graph <==> v in nodes {
      VerticesAre(nodes, trace, v);
      if EndOfLink(trace, v) {
        EndsAreNamed(nodes, trace, v);
      }
    }
    forall u, v ensures G.Reaches(graph, u, v) <==> Chained(trace, u, v) {
      ReachesIffChained(nodes, trace, u, v);
    }
  }

  /* Emitted events. */

  // What is emitted at an event, given the trace before it: the initiator of a link whose other
  // end has reported it, the peer of a sighting that is mutual or that ends a mutual one.
  function EmittedAt(before: seq<Event>, e: Event): seq<Emitted>
  {
    match e.kind
    case Open(_) => if OtherEndReported(before, e) then [Emitted(e.time, Ends(e).0, LinkUp, Ends(e).1)] else []
    case Close(_) => if OtherEndReported(before, e) then [Emitted(e.time, Ends(e).0, LinkDown, Ends(e).1)] else []
    case Saw => if Sees(before, e.b, e.a) || e.a == e.b then [Emitted(e.time, e.b, Meet, e.a)] else []
    case LostSight => if Sees(before, e.b, e.a) && e.a != e.b then [Emitted(e.time, e.b, Part, e.a)] else []
  }

  function Emission(trace: seq<Event>): seq<Emitted>
  {
    if trace == [] then [] else Emission(Front(trace)) + EmittedAt(Front(trace), Last(trace))
  }

  lemma StepEmission(l: Links, before: seq<Event>, e: Event)
    requires SetsFollow(l, before) && Step(l, e).Some?
    ensures Step(l, e).value.events == l.events + EmittedAt(before, e)
  {
    if e.kind.Open? || e.kind.Close? {
      OtherEndFollows(l, before, e);
    }
  }

  // The replay emits, event by event, what the trace so far calls for.
  lemma {:induction false} EmissionFollowsTrace(nodes: set<Node>, trace: seq<Event>)
    requires Replay(Start(nodes), trace).Some?
    ensures Replay(Start(nodes), trace).value.events == Emission(trace)
  {
    if trace == [] {
    } else {
      EmissionFollowsTrace(nodes, Front(trace));
      ReplayFollowsTrace(nodes, Front(trace));
      StepEmission(Replay(Start(nodes), Front(trace)).value, Front(trace), Last(trace));
    }
  }
}
