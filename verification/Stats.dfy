// get_experiment_stats itself.
module Stats {
  import opened Prelude
  import opened Trace
  import opened Topology
  import opened Convergence
  import opened Log
  import G = Graph
  import O = GraphObject

  // The run over the log ends without an exception.
  predicate Completes(macToNum: map<Mac, Node>, log: seq<LogEvent>)
  {
    var trace := ResolveAll(macToNum, log);
    trace.Some? && WellFounded(trace.value)
  }

  lemma {:induction false} ResolvedNames(macToNum: map<Mac, Node>, log: seq<LogEvent>)
    requires ResolveAll(macToNum, log).Some?
    ensures NamesOnly(macToNum.Values, ResolveAll(macToNum, log).value)
  {
    if log == [] {
    } else {
      ResolvedNames(macToNum, log[..|log| - 1]);
    }
  }

  lemma {:induction false} CompletesPrefix(macToNum: map<Mac, Node>, log: seq<LogEvent>, k: nat)
    requires k <= |log| && Completes(macToNum, log)
    ensures Completes(macToNum, log[..k])
  {
    if k == |log| {
      assert log[..k] == log;
    } else {
      var front := log[..|log| - 1];
      assert front[..k] == log[..k];
      var trace := ResolveAll(macToNum, log).value;
      assert ResolveAll(macToNum, front).value == Front(trace);
      CompletesPrefix(macToNum, front, k);
    }
  }

  class Experiment {
    var graph: O.Graph
    var incoming: set<(Node, Node)>
    var outgoing: set<(Node, Node)>
    var visible: set<(Node, Node)>
    var events: seq<Emitted>

    function Model(): Links
      reads this, graph
    {
      Links(graph.graph, incoming, outgoing, visible, events)
    }

    constructor (macToNum: map<Mac, Node>)
      ensures Model() == Start(macToNum.Values) && fresh(graph)
    {
      graph := new O.Graph();
      incoming, outgoing, visible, events := {}, {}, {}, [];
      new;
      var todo := macToNum.Values;
      while todo != {}
        invariant todo <= macToNum.Values
        invariant graph.graph == map v | v in macToNum.Values - todo :: []
        invariant Links(graph.graph, {}, {}, {}, []) == Model() && fresh(graph)
        decreases |todo|
      {
        var num :| num in todo;
        todo := todo - {num};
        graph.AddVertex(num);
      }
      assert macToNum.Values - {} == macToNum.Values;
    }

    // The body of the loop for one event, without the times.
    method Handle(time: int, a: Node, what: Kind, b: Node) returns (ok: bool)
      modifies this, graph
      ensures graph == old(graph)
      ensures ok == Step(old(Model()), Event(time, a, what, b)).Some?
      ensures ok ==> Model() == Step(old(Model()), Event(time, a, what, b)).value
    {
      ok := true;
      match what
      case Saw =>
        visible := visible + {(a, b)};
        if (b, a) in visible {
          events := events + [Emitted(time, b, Meet, a)];
        }
      case LostSight =>
        if (a, b) !in visible {
          return false;
        }
        visible := visible - {(a, b)};
        if (b, a) in visible {
          events := events + [Emitted(time, b, Part, a)];
        }
      case Open(INCOMING) =>
        incoming := incoming + {(a, b)};
        if (b, a) in outgoing {
          events := events + [Emitted(time, b, LinkUp, a)];
          graph.AddEdge(a, b);
        }
      case Open(OUTGOING) =>
        outgoing := outgoing + {(a, b)};
        if (b, a) in incoming {
          events := events + [Emitted(time, a, LinkUp, b)];
          graph.AddEdge(a, b);
        }
      case Close(INCOMING) =>
        if (a, b) !in incoming {
          return false;
        }
        incoming := incoming - {(a, b)};
        if (b, a) in outgoing {
          events := events + [Emitted(time, b, LinkDown, a)];
          ok := graph.EraseEdge(a, b);
        }
      case Close(OUTGOING) =>
        if (a, b) !in outgoing {
          return false;
        }
        outgoing := outgoing - {(a, b)};
        if (b, a) in incoming {
          events := events + [Emitted(time, a, LinkDown, b)];
          ok := graph.EraseEdge(a, b);
        }
    }
  }

  // One turn of the loop but for the times. ok is false when it raises.
  method Turn(run: Experiment, macToNum: map<Mac, Node>, event: LogEvent) returns (ok: bool, newState: bool)
    requires Inv(run.Model())
    modifies run, run.graph
    ensures run.graph == old(run.graph)
    ensures var e, was := Resolve(macToNum, event), old(run.Model());
            ok == (e.Some? && Step(was, e.value).Some?)
            && (ok ==> Inv(run.Model()) && run.Model() == Step(was, e.value).value && newState == G.Connected(run.graph.graph))
  {
    ghost var was := run.Model();
    newState := run.graph.IsConnected();
    if event.mac1 !in macToNum || event.mac2 !in macToNum {
      return false, false;
    }
    var a, b := macToNum[event.mac1], macToNum[event.mac2];
    ok := run.Handle(event.time, a, event.what, b);
    if !ok {
      return false, false;
    }
    StepKeepsInv(was, Event(event.time, a, event.what, b));
    if event.what.Open? || event.what.Close? {
      newState := run.graph.IsConnected();
    }
  }

  // ok is false when an exception ends the run.
  method GetExperimentStats(macToNum: map<Mac, Node>, log: seq<LogEvent>)
    returns (ok: bool, connTime: Option<int>, syncTime: Option<int>, events: seq<Emitted>)
    ensures ok <==> Completes(macToNum, log)
    ensures ok ==>
      var nodes, trace := macToNum.Values, ResolveAll(macToNum, log).value;
      events == Emission(trace) && TimesMean(nodes, trace, connTime, syncTime)
  {
    var run := new Experiment(macToNum);
    connTime, syncTime, events := None, None, [];
    StartsInLoop(macToNum);
    var lastState := run.graph.IsConnected();
    for i := 0 to |log|
      invariant fresh(run) && fresh(run.graph)
      invariant InLoop(macToNum, log[..i], run.Model(), Times(lastState, connTime, syncTime))
    {
      ghost var was, t := run.Model(), Times(lastState, connTime, syncTime);
      var newState;
      ok, newState := Turn(run, macToNum, log[i]);
      TurnInLoop(macToNum, log, i, was, t);
      if !ok {
        return false, None, None, [];
      }
      if !lastState && newState {
        connTime := Some(log[i].time);
      }
      lastState := newState;
      if lastState {
        syncTime := Some(log[i].time);
      } else {
        connTime := None;
        syncTime := None;
      }
    }
    assert log[..|log|] == log;
    ok := true;
    events := run.events;
    EndsLoop(macToNum, log, run.Model(), Times(lastState, connTime, syncTime));
  }

  // The state of the run after that much of the log.
  ghost predicate InLoop(macToNum: map<Mac, Node>, log: seq<LogEvent>, l: Links, t: Times)
  {
    && Completes(macToNum, log) && Inv(l)
    && Replay(Start(macToNum.Values), ResolveAll(macToNum, log).value) == Some(l)
    && TimesOf(macToNum.Values, ResolveAll(macToNum, log).value) == t
    && t.last == G.Connected(l.graph)
  }

  lemma StartsInLoop(macToNum: map<Mac, Node>)
    ensures var l := Start(macToNum.Values); InLoop(macToNum, [], l, Times(G.Connected(l.graph), None, None))
  {
    StartInv(macToNum.Values);
    ConnectedIff(macToNum.Values, []);
  }

  // A turn goes on to the next state, or ends the whole run with an exception.
  lemma TurnInLoop(macToNum: map<Mac, Node>, log: seq<LogEvent>, i: nat, l: Links, t: Times)
    requires i < |log| && InLoop(macToNum, log[..i], l, t)
    ensures var e := Resolve(macToNum, log[i]);
            if e.Some? && Step(l, e.value).Some? then
              var next := Step(l, e.value).value;
              InLoop(macToNum, log[..i + 1], next, Advance(t, G.Connected(next.graph), log[i].time))
            else !Completes(macToNum, log)
  {
    var nodes, trace, e := macToNum.Values, ResolveAll(macToNum, log[..i]).value, Resolve(macToNum, log[i]);
    assert log[..i + 1] == log[..i] + [log[i]];
    ResolveSnoc(macToNum, log[..i], log[i]);
    if e.Some? {
      ReplaySnoc(Start(nodes), trace, e.value);
      ReplaySucceedsIff(nodes, trace + [e.value]);
      if Step(l, e.value).Some? {
        ResolvedNames(macToNum, log[..i + 1]);
        StepKeepsInv(l, e.value);
        TurnTimes(nodes, trace, e.value);
      }
    }
    if !Completes(macToNum, log[..i + 1]) {
      FailsBy(macToNum, log, i + 1);
    }
  }

  lemma TurnTimes(nodes: set<Node>, trace: seq<Event>, e: Event)
    requires WellFounded(trace + [e]) && NamesOnly(nodes, trace + [e])
    ensures Replay(Start(nodes), trace + [e]).Some?
    ensures var connected := G.Connected(Replay(Start(nodes), trace + [e]).value.graph);
            TimesOf(nodes, trace + [e]) == Advance(TimesOf(nodes, trace), connected, e.time)
  {
    assert Front(trace + [e]) == trace;
    TimesOfNext(nodes, trace + [e]);
    ConnectedIff(nodes, trace + [e]);
  }

  lemma EndsLoop(macToNum: map<Mac, Node>, log: seq<LogEvent>, l: Links, t: Times)
    requires InLoop(macToNum, log, l, t)
    ensures var nodes, trace := macToNum.Values, ResolveAll(macToNum, log).value;
            l.events == Emission(trace) && TimesMean(nodes, trace, t.conn, t.sync)
  {
    var nodes, trace := macToNum.Values, ResolveAll(macToNum, log).value;
    EmissionFollowsTrace(nodes, trace);
    ConvergenceTimes(nodes, trace);
  }

  // A failure within the log is a failure of the whole run.
  lemma FailsBy(macToNum: map<Mac, Node>, log: seq<LogEvent>, k: nat)
    requires k <= |log| && !Completes(macToNum, log[..k])
    ensures !Completes(macToNum, log)
  {
    if Completes(macToNum, log) {
      CompletesPrefix(macToNum, log, k);
    }
  }
}
