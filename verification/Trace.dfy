// The trace analyser's replay of a merged log: half-link sets, multigraph, emitted events.
module Trace {
  import opened Prelude
  import G = Graph

  type Node = G.Vertex

  datatype LinkDirection = INCOMING | OUTGOING

  datatype Kind = Saw | LostSight | Open(dir: LinkDirection) | Close(dir: LinkDirection)

  datatype Event = Event(time: int, a: Node, kind: Kind, b: Node)

  // The arrows of graph.txt: "->", "|>", "<>", "><".
  datatype Action = LinkUp | LinkDown | Meet | Part

  datatype Emitted = Emitted(time: int, from: Node, action: Action, to: Node)

  datatype Links = Links(
    graph: G.Adjacency,
    incoming: set<(Node, Node)>,
    outgoing: set<(Node, Node)>,
    visible: set<(Node, Node)>,
    events: seq<Emitted>)

  function Start(nodes: set<Node>): Links
  {
    Links(map v | v in nodes :: [], {}, {}, {}, [])
  }

  /* One event; None when a remove raises. */

  function Step(l: Links, e: Event): Option<Links>
  {
    match e.kind
    case Saw =>
      var visible := l.visible + {(e.a, e.b)};
      Some(l.(visible := visible, events := l.events + Emit((e.b, e.a) in visible, e.time, e.b, Meet, e.a)))
    case LostSight =>
      if (e.a, e.b) !in l.visible then None
      else
        var visible := l.visible - {(e.a, e.b)};
        Some(l.(visible := visible, events := l.events + Emit((e.b, e.a) in visible, e.time, e.b, Part, e.a)))
    case Open(INCOMING) =>
      var k := l.(incoming := l.incoming + {(e.a, e.b)});
      Some(if (e.b, e.a) in k.outgoing then Link(k, e, e.b, e.a) else k)
    case Open(OUTGOING) =>
      var k := l.(outgoing := l.outgoing + {(e.a, e.b)});
      Some(if (e.b, e.a) in k.incoming then Link(k, e, e.a, e.b) else k)
    case Close(INCOMING) =>
      if (e.a, e.b) !in l.incoming then None
      else
        var k := l.(incoming := l.incoming - {(e.a, e.b)});
        if (e.b, e.a) in k.outgoing then Unlink(k, e, e.b, e.a) else Some(k)
    case Close(OUTGOING) =>
      if (e.a, e.b) !in l.outgoing then None
      else
        var k := l.(outgoing := l.outgoing - {(e.a, e.b)});
        if (e.b, e.a) in k.incoming then Unlink(k, e, e.a, e.b) else Some(k)
  }

  function Emit(yes: bool, time: int, from: Node, action: Action, to: Node): seq<Emitted>
  {
    if yes then [Emitted(time, from, action, to)] else []
  }

  function Link(l: Links, e: Event, from: Node, to: Node): Links
  {
    l.(events := l.events + [Emitted(e.time, from, LinkUp, to)], graph := G.AddEdge(l.graph, e.a, e.b))
  }

  function Unlink(l: Links, e: Event, from: Node, to: Node): Option<Links>
  {
    var (graph, ok) := G.EraseEdge(l.graph, e.a, e.b);
    if ok then Some(l.(events := l.events + [Emitted(e.time, from, LinkDown, to)], graph := graph)) else None
  }

  function Replay(start: Links, trace: seq<Event>): Option<Links>
  {
    if trace == [] then Some(start)
    else
      var before := Replay(start, trace[..|trace| - 1]);
      if before.None? then None else Step(before.value, trace[|trace| - 1])
  }

  lemma {:induction false} ReplayPrefix(start: Links, trace: seq<Event>, k: nat)
    requires k <= |trace| && Replay(start, trace).Some?
    ensures Replay(start, trace[..k]).Some?
  {
    if k == |trace| {
      assert trace[..k] == trace;
    } else {
      var front := trace[..|trace| - 1];
      assert front[..k] == trace[..k];
      ReplayPrefix(start, front, k);
    }
  }

  lemma ReplaySnoc(start: Links, trace: seq<Event>, e: Event)
    ensures Replay(start, trace + [e]) == if Replay(start, trace).None? then None else Step(Replay(start, trace).value, e)
  {
  }

  /* Graph and half-links. */

  // The link x -> y is up: both ends have reported it open.
  predicate Up(l: Links, x: Node, y: Node)
  {
    (x, y) in l.outgoing && (y, x) in l.incoming
  }

  // Links between u and v, in either direction.
  function UpBetween(l: Links, u: Node, v: Node): nat
  {
    G.One(Up(l, u, v)) + G.One(Up(l, v, u))
  }

  // List entries beyond those of links that are up.
  function Excess(l: Links, u: Node, v: Node): int
  {
    G.Mult(l.graph, u, v) - UpBetween(l, u, v)
  }

  ghost predicate GraphAgrees(l: Links)
  {
    forall u, v :: G.Mult(l.graph, u, v) == UpBetween(l, u, v)
  }

  ghost predicate Inv(l: Links)
  {
    G.Symmetric(l.graph) && forall u, v :: Excess(l, u, v) >= 0
  }

  lemma StepKeepsInv(l: Links, e: Event)
    requires Inv(l) && Step(l, e).Some?
    ensures Inv(Step(l, e).value)
  {
    var k := Step(l, e).value;
    forall u, v ensures Excess(k, u, v) >= 0 {
      StepExcess(l, e, u, v);
      assert Excess(l, u, v) >= 0;
    }
    G.AddEdgeSymmetric(l.graph, e.a, e.b);
    if G.EraseEdge(l.graph, e.a, e.b).1 {
      G.EraseEdgeSymmetric(l.graph, e.a, e.b);
    }
  }

  // The event opens a half-link that is open, of a link that is up.
  predicate ReopensUp(l: Links, e: Event)
  {
    match e.kind
    case Open(INCOMING) => Up(l, e.b, e.a)
    case Open(OUTGOING) => Up(l, e.a, e.b)
    case _ => false
  }

  // The ends, initiator first, of the link an open or close report is about.
  function Ends(e: Event): (Node, Node)
    requires e.kind.Open? || e.kind.Close?
  {
    if e.kind.dir.INCOMING? then (e.b, e.a) else (e.a, e.b)
  }

  // The other end of the link has reported it open.
  predicate OtherEndOpen(l: Links, e: Event)
    requires e.kind.Open? || e.kind.Close?
  {
    if e.kind.dir.INCOMING? then (e.b, e.a) in l.outgoing else (e.b, e.a) in l.incoming
  }

  lemma OpenEffect(l: Links, e: Event, x: Node, y: Node)
    requires e.kind.Open?
    ensures Step(l, e).Some?
    ensures Up(Step(l, e).value, x, y) <==> Up(l, x, y) || ((x, y) == Ends(e) && OtherEndOpen(l, e))
    ensures Step(l, e).value.graph == if OtherEndOpen(l, e) then G.AddEdge(l.graph, e.a, e.b) else l.graph
  {
  }

  lemma CloseEffect(l: Links, e: Event, x: Node, y: Node)
    requires e.kind.Close? && Step(l, e).Some?
    ensures Up(Step(l, e).value, x, y) <==> Up(l, x, y) && (x, y) != Ends(e)
    ensures Up(l, Ends(e).0, Ends(e).1) <==> OtherEndOpen(l, e)
    ensures OtherEndOpen(l, e) ==> G.EraseEdge(l.graph, e.a, e.b) == (Step(l, e).value.graph, true)
    ensures !OtherEndOpen(l, e) ==> Step(l, e).value.graph == l.graph
  {
  }

  lemma OpenExcess(l: Links, e: Event, u: Node, v: Node)
    requires e.kind.Open?
    ensures Step(l, e).Some?
    ensures Excess(Step(l, e).value, u, v)
            == Excess(l, u, v) + if ReopensUp(l, e) then G.One(u == e.a && v == e.b) + G.One(u == e.b && v == e.a) else 0
  {
    G.AddEdgeMult(l.graph, e.a, e.b, u, v);
    OpenEffect(l, e, u, v);
    OpenEffect(l, e, v, u);
  }

  lemma CloseExcess(l: Links, e: Event, u: Node, v: Node)
    requires e.kind.Close? && Step(l, e).Some?
    ensures Excess(Step(l, e).value, u, v) == Excess(l, u, v)
  {
    G.EraseEdgeMult(l.graph, e.a, e.b, u, v);
    CloseEffect(l, e, u, v);
    CloseEffect(l, e, v, u);
  }

  // Every step leaves the excess as it is, except that reopening an up link adds an entry.
  lemma StepExcess(l: Links, e: Event, u: Node, v: Node)
    requires Step(l, e).Some?
    ensures Excess(Step(l, e).value, u, v)
            == Excess(l, u, v) + if ReopensUp(l, e) then G.One(u == e.a && v == e.b) + G.One(u == e.b && v == e.a) else 0
  {
    if e.kind.Open? {
      OpenExcess(l, e, u, v);
    } else if e.kind.Close? {
      CloseExcess(l, e, u, v);
    }
  }

  // The only exceptions are those of the set removals: list.remove never fails.
  lemma StepFailsIff(l: Links, e: Event)
    requires Inv(l)
    ensures Step(l, e).None? <==>
      match e.kind
      case LostSight => (e.a, e.b) !in l.visible
      case Close(INCOMING) => (e.a, e.b) !in l.incoming
      case Close(OUTGOING) => (e.a, e.b) !in l.outgoing
      case _ => false
  {
    if e.kind.Close? {
      G.EraseEdgeMult(l.graph, e.a, e.b, e.a, e.b);
      assert Excess(l, e.a, e.b) >= 0 && Excess(l, e.b, e.a) >= 0;
    }
  }

  lemma StartInv(nodes: set<Node>)
    ensures Inv(Start(nodes)) && GraphAgrees(Start(nodes))
  {
  }

  lemma {:induction false} ReplayKeepsInv(nodes: set<Node>, trace: seq<Event>)
    requires Replay(Start(nodes), trace).Some?
    ensures Inv(Replay(Start(nodes), trace).value)
  {
    if trace == [] {
      StartInv(nodes);
    } else {
      ReplayKeepsInv(nodes, trace[..|trace| - 1]);
      StepKeepsInv(Replay(Start(nodes), trace[..|trace| - 1]).value, trace[|trace| - 1]);
    }
  }

  /* What the trace itself says, event by event from its end. */

  function Front(trace: seq<Event>): seq<Event>
    requires trace != []
  {
    trace[..|trace| - 1]
  }

  function Last(trace: seq<Event>): Event
    requires trace != []
  {
    trace[|trace| - 1]
  }

  // The last report of a about its dir session with b is that it opened.
  predicate IsOpen(trace: seq<Event>, a: Node, dir: LinkDirection, b: Node)
  {
    trace != [] &&
    if Last(trace).a == a && Last(trace).b == b && Last(trace).kind == Open(dir) then true
    else if Last(trace).a == a && Last(trace).b == b && Last(trace).kind == Close(dir) then false
    else IsOpen(Front(trace), a, dir, b)
  }

  predicate Sees(trace: seq<Event>, a: Node, b: Node)
  {
    trace != [] &&
    if Last(trace).a == a && Last(trace).b == b && Last(trace).kind == Saw then true
    else if Last(trace).a == a && Last(trace).b == b && Last(trace).kind == LostSight then false
    else Sees(Front(trace), a, b)
  }

  // x -> y is up: x reports it open as outgoing and y as incoming.
  predicate LinkIsUp(trace: seq<Event>, x: Node, y: Node)
  {
    IsOpen(trace, x, OUTGOING, y) && IsOpen(trace, y, INCOMING, x)
  }

  predicate SeeEachOther(trace: seq<Event>, x: Node, y: Node)
  {
    Sees(trace, x, y) && Sees(trace, y, x)
  }

  ghost predicate SetsFollow(l: Links, trace: seq<Event>)
  {
    && (forall a: Node, b: Node :: (a, b) in l.incoming <==> IsOpen(trace, a, INCOMING, b))
    && (forall a: Node, b: Node :: (a, b) in l.outgoing <==> IsOpen(trace, a, OUTGOING, b))
    && (forall a: Node, b: Node :: (a, b) in l.visible <==> Sees(trace, a, b))
  }

  lemma {:induction false} ReplayFollowsTrace(nodes: set<Node>, trace: seq<Event>)
    requires Replay(Start(nodes), trace).Some?
    ensures SetsFollow(Replay(Start(nodes), trace).value, trace)
  {
    if trace == [] {
    } else {
      ReplayFollowsTrace(nodes, Front(trace));
      StepFollows(Replay(Start(nodes), Front(trace)).value, trace);
    }
  }

  lemma StepFollows(l: Links, trace: seq<Event>)
    requires trace != [] && SetsFollow(l, Front(trace)) && Step(l, Last(trace)).Some?
    ensures SetsFollow(Step(l, Last(trace)).value, trace)
  {
  }

  // An event that takes something back takes back what was reported.
  predicate Founded(before: seq<Event>, e: Event)
  {
    match e.kind
    case LostSight => Sees(before, e.a, e.b)
    case Close(dir) => IsOpen(before, e.a, dir, e.b)
    case _ => true
  }

  predicate WellFounded(trace: seq<Event>)
  {
    trace == [] || (WellFounded(Front(trace)) && Founded(Front(trace), Last(trace)))
  }

  predicate Reopens(before: seq<Event>, e: Event)
  {
    match e.kind
    case Open(INCOMING) => LinkIsUp(before, e.b, e.a)
    case Open(OUTGOING) => LinkIsUp(before, e.a, e.b)
    case _ => false
  }

  predicate ReopensSomewhere(trace: seq<Event>)
  {
    trace != [] && (ReopensSomewhere(Front(trace)) || Reopens(Front(trace), Last(trace)))
  }

  /* Main results. */

  // The replay ends without an exception exactly when every event that takes something back
  // takes back what was reported; in particular list.remove never fails.
  lemma {:induction false} ReplaySucceedsIff(nodes: set<Node>, trace: seq<Event>)
    ensures Replay(Start(nodes), trace).Some? <==> WellFounded(trace)
  {
    if trace == [] {
    } else {
      ReplaySucceedsIff(nodes, Front(trace));
      if Replay(Start(nodes), Front(trace)).Some? {
        ReplayKeepsInv(nodes, Front(trace));
        ReplayFollowsTrace(nodes, Front(trace));
        StepFailsIff(Replay(Start(nodes), Front(trace)).value, Last(trace));
      }
    }
  }

  // The multiplicity the graph should have.
  function LinksBetween(trace: seq<Event>, u: Node, v: Node): nat
  {
    G.One(LinkIsUp(trace, u, v)) + G.One(LinkIsUp(trace, v, u))
  }

  // Graph refinement: after the replay, v occurs in the list of u once for each direction
  // of the link between them that is up, if and only if no event reopened an up link.
  lemma GraphRefinesTraceIff(nodes: set<Node>, trace: seq<Event>)
    requires WellFounded(trace)
    ensures Replay(Start(nodes), trace).Some?
    ensures (forall u, v :: G.Mult(Replay(Start(nodes), trace).value.graph, u, v) == LinksBetween(trace, u, v))
            <==> !ReopensSomewhere(trace)
    ensures G.Symmetric(Replay(Start(nodes), trace).value.graph)
  {
    ReplaySucceedsIff(nodes, trace);
    ReplayKeepsInv(nodes, trace);
    GraphAgreesIff(nodes, trace);
    ReplayFollowsTrace(nodes, trace);
    var l := Replay(Start(nodes), trace).value;
    forall u, v ensures UpBetween(l, u, v) == LinksBetween(trace, u, v) {
      assert Up(l, u, v) <==> LinkIsUp(trace, u, v);
      assert Up(l, v, u) <==> LinkIsUp(trace, v, u);
    }
  }

  lemma {:induction false} GraphAgreesIff(nodes: set<Node>, trace: seq<Event>)
    requires Replay(Start(nodes), trace).Some?
    ensures GraphAgrees(Replay(Start(nodes), trace).value) <==> !ReopensSomewhere(trace)
  {
    StartInv(nodes);
    if trace == [] {
    } else {
      var l := Replay(Start(nodes), Front(trace)).value;
      GraphAgreesIff(nodes, Front(trace));
      ReplayKeepsInv(nodes, Front(trace));
      ReplayFollowsTrace(nodes, Front(trace));
      assert ReopensUp(l, Last(trace)) <==> Reopens(Front(trace), Last(trace));
      StepAgreesIff(l, Last(trace));
    }
  }

  lemma StepAgreesIff(l: Links, e: Event)
    requires Inv(l) && Step(l, e).Some?
    ensures GraphAgrees(Step(l, e).value) <==> GraphAgrees(l) && !ReopensUp(l, e)
  {
    var k := Step(l, e).value;
    forall u, v ensures Excess(k, u, v) >= Excess(l, u, v) >= 0 && (!ReopensUp(l, e) ==> Excess(k, u, v) == Excess(l, u, v)) {
      StepExcess(l, e, u, v);
    }
    AgreesIffNoExcess(l);
    AgreesIffNoExcess(k);
    if ReopensUp(l, e) {
      StepExcess(l, e, e.a, e.b);
      assert Excess(k, e.a, e.b) > 0;
    }
  }

  lemma AgreesIffNoExcess(l: Links)
    ensures GraphAgrees(l) <==> forall u, v :: Excess(l, u, v) == 0
  {
    if GraphAgrees(l) {
      forall u, v ensures Excess(l, u, v) == 0 {
        assert G.Mult(l.graph, u, v) == UpBetween(l, u, v);
      }
    } else {
      var u, v :| G.Mult(l.graph, u, v) != UpBetween(l, u, v);
      assert Excess(l, u, v) != 0;
    }
  }

  // Where nothing is reopened, the graph joins just the nodes with a link up between them.
  lemma NeighboursHaveLinks(nodes: set<Node>, trace: seq<Event>, u: Node, v: Node)
    requires WellFounded(trace) && !ReopensSomewhere(trace)
    ensures Replay(Start(nodes), trace).Some?
    ensures G.Neighbour(Replay(Start(nodes), trace).value.graph, u, v) <==> LinkIsUp(trace, u, v) || LinkIsUp(trace, v, u)
  {
    GraphRefinesTraceIff(nodes, trace);
    var graph := Replay(Start(nodes), trace).value.graph;
    G.NeighbourIff(graph, u, v);
    assert G.Mult(graph, u, v) == LinksBetween(trace, u, v);
  }

  // A node reports one incoming session twice while the link is up (two TCP sessions from
  // the same peer do that): the graph then counts a link that is not there.
  lemma ReopeningCountsTwice()
    ensures var trace := [Event(1, 1, Open(OUTGOING), 2), Event(2, 2, Open(INCOMING), 1), Event(3, 2, Open(INCOMING), 1)];
            Replay(Start({1, 2}), trace).Some?
            && exists u, v :: G.Mult(Replay(Start({1, 2}), trace).value.graph, u, v) != LinksBetween(trace, u, v)
  {
    var e1, e2, e3 := Event(1, 1, Open(OUTGOING), 2), Event(2, 2, Open(INCOMING), 1), Event(3, 2, Open(INCOMING), 1);
    assert Front([e1]) == [] && Front([e1, e2]) == [e1] && Front([e1, e2, e3]) == [e1, e2];
    assert IsOpen([e1], 1, OUTGOING, 2);
    assert LinkIsUp([e1, e2], 1, 2);
    assert Reopens([e1, e2], e3);
    assert WellFounded([e1]) && WellFounded([e1, e2]) && WellFounded([e1, e2, e3]);
    GraphRefinesTraceIff({1, 2}, [e1, e2, e3]);
  }
}
