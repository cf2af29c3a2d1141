// What the visualizer shows: updateTopology's replay of the emitted events.
module Picture {
  import opened Prelude
  import opened Trace
  import G = Graph

  datatype Edge = Edge(from: Node, to: Node)

  // activeEdges, keyed by "from-to", and discoveryEvents.
  datatype Picture = Picture(activeEdges: map<Edge, Edge>, discovery: seq<Edge>)

  const BLANK := Picture(map[], [])

  // The predicate given to findIndex.
  predicate Matches(e: Edge, from: Node, to: Node)
  {
    (e.from == from && e.to == to) || (e.to == from && e.from == to)
  }

  // findIndex followed by splice.
  function Splice(s: seq<Edge>, from: Node, to: Node): seq<Edge>
  {
    if s == [] then []
    else if Matches(s[0], from, to) then s[1..]
    else [s[0]] + Splice(s[1..], from, to)
  }

  function Draw(p: Picture, e: Emitted): Picture
  {
    match e.action
    case LinkUp => p.(activeEdges := p.activeEdges[Edge(e.from, e.to) := Edge(e.from, e.to)])
    case LinkDown => p.(activeEdges := p.activeEdges - {Edge(e.from, e.to)})
    case Meet => p.(discovery := p.discovery + [Edge(e.from, e.to)])
    case Part => p.(discovery := Splice(p.discovery, e.from, e.to))
  }

  function DrawAll(events: seq<Emitted>): Picture
  {
    if events == [] then BLANK else Draw(DrawAll(events[..|events| - 1]), events[|events| - 1])
  }

  lemma DrawSnoc(events: seq<Emitted>, e: Emitted)
    ensures DrawAll(events + [e]) == Draw(DrawAll(events), e)
  {
  }

  // Entries for the unordered pair {x, y}.
  function Entries(s: seq<Edge>, x: Node, y: Node): nat
  {
    if s == [] then 0 else G.One(Matches(s[0], x, y)) + Entries(s[1..], x, y)
  }

  lemma {:induction false} EntriesSnoc(s: seq<Edge>, e: Edge, x: Node, y: Node)
    ensures Entries(s + [e], x, y) == Entries(s, x, y) + G.One(Matches(e, x, y))
  {
    if s == [] {
      assert s + [e] == [e];
    } else {
      assert (s + [e])[1..] == s[1..] + [e];
      EntriesSnoc(s[1..], e, x, y);
    }
  }

  lemma {:induction false} EntriesSplice(s: seq<Edge>, a: Node, b: Node, x: Node, y: Node)
    ensures Entries(Splice(s, a, b), x, y)
            == Entries(s, x, y) - if Entries(s, a, b) > 0 then G.One(Matches(Edge(a, b), x, y)) else 0
  {
    if s == [] {
    } else if Matches(s[0], a, b) {
    } else {
      assert ([s[0]] + Splice(s[1..], a, b))[1..] == Splice(s[1..], a, b);
      EntriesSplice(s[1..], a, b, x, y);
    }
  }

  // The meetings among the events, as drawn.
  function Meetings(events: seq<Emitted>): seq<Edge>
  {
    if events == [] then []
    else
      var last := events[|events| - 1];
      Meetings(events[..|events| - 1]) + if last.action == Meet then [Edge(last.from, last.to)] else []
  }

  // s is t with some elements left out.
  predicate LeftOf(s: seq<Edge>, t: seq<Edge>)
  {
    s == [] || (t != [] && ((s[0] == t[0] && LeftOf(s[1..], t[1..])) || LeftOf(s, t[1..])))
  }

  lemma {:induction false} LeftOfSnoc(s: seq<Edge>, t: seq<Edge>, e: Edge)
    requires LeftOf(s, t)
    ensures LeftOf(s, t + [e]) && LeftOf(s + [e], t + [e])
  {
    if t == [] {
      assert s + [e] == [e] == t + [e];
    } else {
      assert (t + [e])[1..] == t[1..] + [e];
      if s == [] {
        LeftOfSnoc(s, t[1..], e);
      } else {
        assert (s + [e])[1..] == s[1..] + [e];
        if LeftOf(s, t[1..]) {
          LeftOfSnoc(s, t[1..], e);
        } else {
          LeftOfSnoc(s[1..], t[1..], e);
        }
      }
    }
  }

  lemma {:induction false} LeftOfSplice(s: seq<Edge>, t: seq<Edge>, from: Node, to: Node)
    requires LeftOf(s, t)
    ensures LeftOf(Splice(s, from, to), t)
  {
    if s != [] {
      if LeftOf(s, t[1..]) {
        LeftOfSplice(s, t[1..], from, to);
      } else {
        LeftOfSplice(s[1..], t[1..], from, to);
        assert LeftOf(s[1..], t);
        assert ([s[0]] + Splice(s[1..], from, to))[1..] == Splice(s[1..], from, to);
      }
    }
  }

  // Whatever the events: the discovery entries are those of meetings among them, from the one
  // that found to the one found, in the order of the meetings.
  lemma {:induction false} EntriesAreMeetings(events: seq<Emitted>)
    ensures LeftOf(DrawAll(events).discovery, Meetings(events))
  {
    if events != [] {
      var front, last := events[..|events| - 1], events[|events| - 1];
      EntriesAreMeetings(front);
      if last.action == Meet {
        LeftOfSnoc(DrawAll(front).discovery, Meetings(front), Edge(last.from, last.to));
      } else {
        assert Meetings(front) + [] == Meetings(front);
        LeftOfSplice(DrawAll(front).discovery, Meetings(front), last.from, last.to);
      }
    }
  }

  /* Active edges. */

  // What a step emits.
  function Emits(l: Links, e: Event): (r: seq<Emitted>)
    ensures |r| <= 1 && (r != [] ==> r[0].time == e.time)
  {
    match e.kind
    case Open(dir) => if OtherEndOpen(l, e) then [Emitted(e.time, Ends(e).0, LinkUp, Ends(e).1)] else []
    case Close(dir) => if OtherEndOpen(l, e) then [Emitted(e.time, Ends(e).0, LinkDown, Ends(e).1)] else []
    case Saw => if (e.b, e.a) in l.visible || e.a == e.b then [Emitted(e.time, e.b, Meet, e.a)] else []
    case LostSight => if (e.b, e.a) in l.visible && e.a != e.b then [Emitted(e.time, e.b, Part, e.a)] else []
  }

  lemma StepEmits(l: Links, e: Event)
    requires Step(l, e).Some?
    ensures Step(l, e).value.events == l.events + Emits(l, e)
  {
  }

  lemma StepDraws(l: Links, e: Event)
    requires Step(l, e).Some?
    ensures DrawAll(Step(l, e).value.events)
            == if Emits(l, e) == [] then DrawAll(l.events) else Draw(DrawAll(l.events), Emits(l, e)[0])
  {
    StepEmits(l, e);
    if Emits(l, e) == [] {
      assert l.events + Emits(l, e) == l.events;
    } else {
      assert Emits(l, e) == [Emits(l, e)[0]];
      DrawSnoc(l.events, Emits(l, e)[0]);
    }
  }

  ghost predicate EdgesAgree(l: Links)
  {
    var edges := DrawAll(l.events).activeEdges;
    forall x, y :: (Edge(x, y) in edges <==> Up(l, x, y)) && (Edge(x, y) in edges ==> edges[Edge(x, y)] == Edge(x, y))
  }

  lemma StepKeepsEdges(l: Links, e: Event)
    requires Step(l, e).Some? && EdgesAgree(l)
    ensures EdgesAgree(Step(l, e).value)
  {
    var k := Step(l, e).value;
    StepDraws(l, e);
    var was, edges := DrawAll(l.events).activeEdges, DrawAll(k.events).activeEdges;
    forall x, y
      ensures (Edge(x, y) in edges <==> Up(k, x, y)) && (Edge(x, y) in edges ==> edges[Edge(x, y)] == Edge(x, y))
    {
      assert Edge(x, y) in was <==> Up(l, x, y);
      if e.kind.Open? {
        OpenEffect(l, e, x, y);
      } else if e.kind.Close? {
        CloseEffect(l, e, x, y);
      }
    }
  }

  lemma {:induction false} ReplayKeepsEdges(nodes: set<Node>, trace: seq<Event>)
    requires Replay(Start(nodes), trace).Some?
    ensures EdgesAgree(Replay(Start(nodes), trace).value)
  {
    if trace == [] {
    } else {
      ReplayKeepsEdges(nodes, Front(trace));
      StepKeepsEdges(Replay(Start(nodes), Front(trace)).value, Last(trace));
    }
  }

  // After all events of a trace, the edges drawn are exactly the links that are up, whatever
  // the trace.
  lemma ActiveEdgesAreUpLinks(nodes: set<Node>, trace: seq<Event>)
    requires WellFounded(trace)
    ensures Replay(Start(nodes), trace).Some?
    ensures forall x, y :: Edge(x, y) in DrawAll(Replay(Start(nodes), trace).value.events).activeEdges <==> LinkIsUp(trace, x, y)
  {
    ReplaySucceedsIff(nodes, trace);
    ReplayKeepsEdges(nodes, trace);
    ReplayFollowsTrace(nodes, trace);
    var l := Replay(Start(nodes), trace).value;
    forall x, y ensures Edge(x, y) in DrawAll(l.events).activeEdges <==> LinkIsUp(trace, x, y) {
      assert Up(l, x, y) <==> LinkIsUp(trace, x, y);
    }
  }

  /* Discovery. */

  predicate Mutual(l: Links, x: Node, y: Node)
  {
    (x, y) in l.visible && (y, x) in l.visible
  }

  function DiscoveryExcess(l: Links, x: Node, y: Node): int
  {
    Entries(DrawAll(l.events).discovery, x, y) - G.One(Mutual(l, x, y))
  }

  // Sighting a peer again while the two see each other, or a node losing sight of itself.
  predicate Disturbs(l: Links, e: Event)
  {
    (e.kind.Saw? && Mutual(l, e.a, e.b)) || (e.kind.LostSight? && e.a == e.b)
  }

  lemma SawExcess(l: Links, e: Event, x: Node, y: Node)
    requires e.kind.Saw? && Step(l, e).Some?
    ensures DiscoveryExcess(Step(l, e).value, x, y)
            == DiscoveryExcess(l, x, y) + G.One(Disturbs(l, e) && Matches(Edge(e.b, e.a), x, y))
  {
    StepDraws(l, e);
    if (e.b, e.a) in l.visible || e.a == e.b {
      EntriesSnoc(DrawAll(l.events).discovery, Edge(e.b, e.a), x, y);
    }
  }

  lemma LostExcess(l: Links, e: Event, x: Node, y: Node)
    requires e.kind.LostSight? && Step(l, e).Some? && DiscoveryExcess(l, e.b, e.a) >= 0
    ensures DiscoveryExcess(Step(l, e).value, x, y)
            == DiscoveryExcess(l, x, y) + G.One(Disturbs(l, e) && Matches(Edge(e.b, e.a), x, y))
  {
    StepDraws(l, e);
    if (e.b, e.a) in l.visible && e.a != e.b {
      EntriesSplice(DrawAll(l.events).discovery, e.b, e.a, x, y);
    }
  }

  lemma EmitsLink(l: Links, e: Event)
    requires e.kind.Open? || e.kind.Close?
    ensures Emits(l, e) == [] || Emits(l, e)[0].action == LinkUp || Emits(l, e)[0].action == LinkDown
  {
  }

  lemma StepKeepsVisible(l: Links, e: Event)
    requires (e.kind.Open? || e.kind.Close?) && Step(l, e).Some?
    ensures Step(l, e).value.visible == l.visible
  {
  }

  lemma LinkEventsKeepDiscovery(l: Links, e: Event)
    requires (e.kind.Open? || e.kind.Close?) && Step(l, e).Some?
    ensures DrawAll(Step(l, e).value.events).discovery == DrawAll(l.events).discovery
    ensures Step(l, e).value.visible == l.visible
  {
    StepDraws(l, e);
    EmitsLink(l, e);
    StepKeepsVisible(l, e);
  }

  lemma StepDiscoveryExcess(l: Links, e: Event, x: Node, y: Node)
    requires Step(l, e).Some? && DiscoveryExcess(l, e.b, e.a) >= 0
    ensures DiscoveryExcess(Step(l, e).value, x, y)
            == DiscoveryExcess(l, x, y) + G.One(Disturbs(l, e) && Matches(Edge(e.b, e.a), x, y))
  {
    if e.kind.Saw? {
      SawExcess(l, e, x, y);
    } else if e.kind.LostSight? {
      LostExcess(l, e, x, y);
    } else {
      LinkEventsKeepDiscovery(l, e);
    }
  }

  ghost predicate DiscoveryAgrees(l: Links)
  {
    forall x, y :: DiscoveryExcess(l, x, y) == 0
  }

  predicate DisturbsTrace(before: seq<Event>, e: Event)
  {
    (e.kind.Saw? && SeeEachOther(before, e.a, e.b)) || (e.kind.LostSight? && e.a == e.b)
  }

  predicate DisturbedSomewhere(trace: seq<Event>)
  {
    trace != [] && (DisturbedSomewhere(Front(trace)) || DisturbsTrace(Front(trace), Last(trace)))
  }

  lemma {:induction false} DiscoveryInv(nodes: set<Node>, trace: seq<Event>)
    requires Replay(Start(nodes), trace).Some?
    ensures forall x, y :: DiscoveryExcess(Replay(Start(nodes), trace).value, x, y) >= 0
    ensures DiscoveryAgrees(Replay(Start(nodes), trace).value) <==> !DisturbedSomewhere(trace)
  {
    if trace == [] {
    } else {
      DiscoveryInv(nodes, Front(trace));
      ReplayFollowsTrace(nodes, Front(trace));
      var l := Replay(Start(nodes), Front(trace)).value;
      assert Disturbs(l, Last(trace)) <==> DisturbsTrace(Front(trace), Last(trace));
      StepDiscoveryIff(l, Last(trace));
    }
  }

  lemma StepDiscoveryIff(l: Links, e: Event)
    requires Step(l, e).Some? && forall x, y :: DiscoveryExcess(l, x, y) >= 0
    ensures forall x, y :: DiscoveryExcess(Step(l, e).value, x, y) >= 0
    ensures DiscoveryAgrees(Step(l, e).value) <==> DiscoveryAgrees(l) && !Disturbs(l, e)
  {
    var k := Step(l, e).value;
    forall x, y
      ensures DiscoveryExcess(k, x, y) >= DiscoveryExcess(l, x, y)
              && (!Disturbs(l, e) ==> DiscoveryExcess(k, x, y) == DiscoveryExcess(l, x, y))
    {
      StepDiscoveryExcess(l, e, x, y);
    }
    if Disturbs(l, e) {
      StepDiscoveryExcess(l, e, e.b, e.a);
      assert DiscoveryExcess(k, e.b, e.a) > 0;
    }
  }

  // After all events of a trace, each pair of nodes that see each other has exactly one
  // discovery entry and other pairs none, if and only if no event sighted a peer again while
  // the two saw each other and no node lost sight of itself.
  lemma DiscoveryEntriesIff(nodes: set<Node>, trace: seq<Event>)
    requires WellFounded(trace)
    ensures Replay(Start(nodes), trace).Some?
    ensures (forall x, y :: Entries(DrawAll(Replay(Start(nodes), trace).value.events).discovery, x, y)
                            == G.One(SeeEachOther(trace, x, y)))
            <==> !DisturbedSomewhere(trace)
  {
    ReplaySucceedsIff(nodes, trace);
    DiscoveryInv(nodes, trace);
    ReplayFollowsTrace(nodes, trace);
    var l := Replay(Start(nodes), trace).value;
    forall x, y ensures DiscoveryExcess(l, x, y) == 0
                        <==> Entries(DrawAll(l.events).discovery, x, y) == G.One(SeeEachOther(trace, x, y))
    {
      assert Mutual(l, x, y) <==> SeeEachOther(trace, x, y);
    }
  }

  // One sighting repeated while both see each other draws the pair twice.
  lemma SightedTwice()
    ensures var trace := [Event(1, 1, Saw, 2), Event(2, 2, Saw, 1), Event(3, 2, Saw, 1)];
            Replay(Start({1, 2}), trace).Some?
            && exists x, y :: Entries(DrawAll(Replay(Start({1, 2}), trace).value.events).discovery, x, y)
                              != G.One(SeeEachOther(trace, x, y))
  {
    var e1, e2, e3 := Event(1, 1, Saw, 2), Event(2, 2, Saw, 1), Event(3, 2, Saw, 1);
    assert Front([e1]) == [] && Front([e1, e2]) == [e1] && Front([e1, e2, e3]) == [e1, e2];
    assert Sees([e1], 1, 2);
    assert SeeEachOther([e1, e2], 2, 1);
    assert WellFounded([e1]) && WellFounded([e1, e2]) && WellFounded([e1, e2, e3]);
    assert DisturbedSomewhere([e1, e2, e3]);
    DiscoveryEntriesIff({1, 2}, [e1, e2, e3]);
  }

  /* Scrubbing. */

  // The events updateTopology gets to before its break.
  function UpTo(events: seq<Emitted>, time: int): (r: seq<Emitted>)
    ensures r <= events
    decreases |events|
  {
    if events == [] || events[0].time > time then [] else
      assert events == [events[0]] + events[1..];
      [events[0]] + UpTo(events[1..], time)
  }

  lemma {:induction false} UpToSplit(early: seq<Emitted>, late: seq<Emitted>, time: int)
    requires forall i :: 0 <= i < |early| ==> early[i].time <= time
    requires late != [] ==> late[0].time > time
    ensures UpTo(early + late, time) == early
    decreases |early|
  {
    if early == [] {
      assert early + late == late;
    } else {
      assert (early + late)[1..] == early[1..] + late;
      UpToSplit(early[1..], late, time);
    }
  }

  predicate TimeSorted(trace: seq<Event>)
  {
    forall i, j :: 0 <= i < j < |trace| ==> trace[i].time <= trace[j].time
  }

  // Number of events with time at most the given one.
  function Until(trace: seq<Event>, time: int): (k: nat)
    requires TimeSorted(trace)
    ensures k <= |trace|
    ensures forall i :: 0 <= i < |trace| ==> (i < k <==> trace[i].time <= time)
  {
    if trace == [] then 0
    else if Last(trace).time <= time then |trace|
    else Until(Front(trace), time)
  }

  ghost predicate EmittedBy(trace: seq<Event>, k: nat, time: int)
  {
    exists j :: k <= j < |trace| && trace[j].time == time
  }

  lemma EmittedByLonger(trace: seq<Event>, k: nat, time: int)
    requires trace != [] && EmittedBy(Front(trace), k, time)
    ensures EmittedBy(trace, k, time)
  {
  }

  // The events emitted by a longer trace extend those of its prefix, with the times of the
  // trace events that emit them.
  lemma {:induction false} EmittedExtend(start: Links, trace: seq<Event>, k: nat)
    requires k <= |trace| && Replay(start, trace).Some?
    ensures Replay(start, trace[..k]).Some?
    ensures var early, all := Replay(start, trace[..k]).value.events, Replay(start, trace).value.events;
            early <= all && forall i :: |early| <= i < |all| ==> EmittedBy(trace, k, all[i].time)
  {
    if k == |trace| {
      assert trace[..k] == trace;
    } else {
      var front, n := Front(trace), |trace| - 1;
      assert front[..k] == trace[..k];
      EmittedExtend(start, front, k);
      var l := Replay(start, front).value;
      var early, all := Replay(start, trace[..k]).value.events, Replay(start, trace).value.events;
      StepEmits(l, trace[n]);
      forall i | |early| <= i < |all| ensures EmittedBy(trace, k, all[i].time) {
        if i < |l.events| {
          EmittedByLonger(trace, k, l.events[i].time);
        } else {
          assert trace[n].time == all[i].time;
        }
      }
    }
  }

  // Every prefix of the emitted events is what some prefix of the trace emits.
  lemma {:induction false} EmittedPrefix(start: Links, trace: seq<Event>, k: nat)
    requires Replay(start, trace).Some? && |start.events| <= k <= |Replay(start, trace).value.events|
    ensures exists j :: 0 <= j <= |trace| && Replay(start, trace[..j]).Some?
                        && Replay(start, trace[..j]).value.events == Replay(start, trace).value.events[..k]
  {
    var all := Replay(start, trace).value.events;
    if k == |all| {
      assert trace[..|trace|] == trace && all[..k] == all;
    } else {
      var l := Replay(start, Front(trace)).value;
      StepEmits(l, Last(trace));
      EmittedPrefix(start, Front(trace), k);
      var j :| 0 <= j <= |Front(trace)| && Replay(start, Front(trace)[..j]).Some?
               && Replay(start, Front(trace)[..j]).value.events == l.events[..k];
      assert Front(trace)[..j] == trace[..j] && l.events[..k] == all[..k];
    }
  }

  // Scrubbing a time-sorted trace to any time shows the events emitted by its part up to
  // that time, so the picture is the one of the links and sightings at that time.
  lemma {:induction false} ScrubShowsState(nodes: set<Node>, trace: seq<Event>, time: int)
    requires TimeSorted(trace) && Replay(Start(nodes), trace).Some? && Start(nodes).events == []
    ensures Replay(Start(nodes), trace[..Until(trace, time)]).Some?
    ensures UpTo(Replay(Start(nodes), trace).value.events, time)
            == Replay(Start(nodes), trace[..Until(trace, time)]).value.events
  {
    var k, start := Until(trace, time), Start(nodes);
    EmittedExtend(start, trace, k);
    EmittedExtend(start, trace[..k], 0);
    assert trace[..k][..0] == [];
    var all, early := Replay(start, trace).value.events, Replay(start, trace[..k]).value.events;
    assert all == early + all[|early|..];
    forall i | 0 <= i < |early| ensures early[i].time <= time {
      assert EmittedBy(trace[..k], 0, early[i].time);
      var j :| 0 <= j < k && trace[..k][j].time == early[i].time;
      assert trace[j].time <= time;
    }
    if all[|early|..] != [] {
      assert all[|early|..][0] == all[|early|];
      assert EmittedBy(trace, k, all[|early|].time);
      var j :| k <= j < |trace| && trace[j].time == all[|early|].time;
      assert trace[j].time > time;
    }
    UpToSplit(early, all[|early|..], time);
  }
}
