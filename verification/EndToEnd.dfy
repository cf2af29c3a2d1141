// From the nodes' own logs to the graph, the times and the picture.
module EndToEnd {
  import opened Prelude
  import opened Trace
  import opened WellFormedTraces
  import opened Log
  import opened Sorting
  import opened Merge
  import opened Picture
  import Stats
  import V = Visualizer
  import N = NodeReports
  import D = Discovery
  import S = Sessions
  import SN = SessionNotes
  import G = Graph

  /* Numbering commutes with restricting to a node. */

  predicate Injective(macToNum: map<Mac, Node>)
  {
    forall a, b :: a in macToNum && b in macToNum && macToNum[a] == macToNum[b] ==> a == b
  }

  predicate KnownMacs(macToNum: map<Mac, Node>, log: seq<LogEvent>)
  {
    forall i :: 0 <= i < |log| ==> log[i].mac1 in macToNum && log[i].mac2 in macToNum
  }

  lemma {:induction false} ResolvesWhenKnown(macToNum: map<Mac, Node>, log: seq<LogEvent>)
    requires KnownMacs(macToNum, log)
    ensures ResolveAll(macToNum, log).Some?
    ensures var trace := ResolveAll(macToNum, log).value;
            |trace| == |log| && forall i :: 0 <= i < |log| ==> Resolve(macToNum, log[i]) == Some(trace[i])
  {
    if log == [] {
    } else {
      ResolvesWhenKnown(macToNum, log[..|log| - 1]);
    }
  }

  lemma {:induction false} ResolveRestricted(macToNum: map<Mac, Node>, log: seq<LogEvent>, mac: Mac)
    requires Injective(macToNum) && KnownMacs(macToNum, log) && mac in macToNum
    ensures ResolveAll(macToNum, log).Some? && ResolveAll(macToNum, Filter(log, From(mac))).Some?
    ensures Filter(ResolveAll(macToNum, log).value, By(macToNum[mac])) == ResolveAll(macToNum, Filter(log, From(mac))).value
  {
    ResolvesWhenKnown(macToNum, log);
    if log == [] {
    } else {
      var front, e := log[..|log| - 1], log[|log| - 1];
      ResolveRestricted(macToNum, front, mac);
      FilterSnoc(ResolveAll(macToNum, front).value, Resolve(macToNum, e).value, By(macToNum[mac]));
      ResolveSnoc(macToNum, Filter(front, From(mac)), e);
    }
  }

  lemma {:induction false} ResolvePrefix(macToNum: map<Mac, Node>, log: seq<LogEvent>, k: nat)
    requires ResolveAll(macToNum, log).Some? && k <= |log|
    ensures |ResolveAll(macToNum, log).value| == |log|
    ensures ResolveAll(macToNum, log[..k]) == Some(ResolveAll(macToNum, log).value[..k])
  {
    if log == [] {
    } else {
      var front := log[..|log| - 1];
      var trace := ResolveAll(macToNum, log).value;
      ResolvePrefix(macToNum, front, if k < |log| then k else |front|);
      assert ResolveAll(macToNum, front).value == Front(trace);
      if k < |log| {
        assert front[..k] == log[..k];
        assert Front(trace)[..k] == trace[..k];
      } else {
        assert log[..k] == log && trace[..k] == trace;
      }
    }
  }

  lemma NobodysEvents(trace: seq<Event>, node: Node)
    requires forall i :: 0 <= i < |trace| ==> trace[i].a != node
    ensures Filter(trace, By(node)) == []
  {
  }

  /* Logs a run of the nodes leaves. */

  predicate Has(logs: seq<NodeLog>, i: int)
  {
    0 <= i < |logs| && logs[i].started.Some?
  }

  function Begin(logs: seq<NodeLog>): int
  {
    if TimeStart(logs).Some? then TimeStart(logs).value else 0
  }

  function OwnLog(logs: seq<NodeLog>, i: int): seq<LogEvent>
    requires Has(logs, i)
  {
    EventsOf(logs[i].started.value.mac, logs[i].started.value.lines, Begin(logs))
  }

  predicate DistinctNumbers(logs: seq<NodeLog>)
  {
    forall i, j | 0 <= i < j < |logs| && Has(logs, i) && Has(logs, j) :: logs[i].num != logs[j].num
  }

  // The lines are in time order, name nodes that started, and are well-formed by themselves.
  predicate GoodLog(logs: seq<NodeLog>, i: int)
    requires Has(logs, i)
  {
    && Monotone(logs[i].started.value.lines)
    && KnownMacs(Numbers(logs), OwnLog(logs, i))
    && ResolveAll(Numbers(logs), OwnLog(logs, i)).Some?
    && WellFormed(ResolveAll(Numbers(logs), OwnLog(logs, i)).value)
  }

  ghost predicate GoodLogs(logs: seq<NodeLog>)
  {
    DistinctMacs(logs) && DistinctNumbers(logs) && forall i :: Has(logs, i) ==> GoodLog(logs, i)
  }

  lemma {:induction false} NumbersFrom(logs: seq<NodeLog>, mac: Mac)
    requires mac in Numbers(logs)
    ensures exists i :: Has(logs, i) && logs[i].started.value.mac == mac && logs[i].num == Numbers(logs)[mac]
  {
    var front, last := logs[..|logs| - 1], logs[|logs| - 1];
    if last.started.Some? && last.started.value.mac == mac {
      assert Has(logs, |logs| - 1);
    } else {
      NumbersFrom(front, mac);
      var i :| Has(front, i) && front[i].started.value.mac == mac && front[i].num == Numbers(front)[mac];
      assert Has(logs, i);
    }
  }

  lemma {:induction false} NumbersOf(logs: seq<NodeLog>, i: int)
    requires DistinctMacs(logs) && Has(logs, i)
    ensures logs[i].started.value.mac in Numbers(logs) && Numbers(logs)[logs[i].started.value.mac] == logs[i].num
  {
    if i < |logs| - 1 {
      NumbersOf(logs[..|logs| - 1], i);
    }
  }

  lemma NumbersInjective(logs: seq<NodeLog>)
    requires DistinctNumbers(logs)
    ensures Injective(Numbers(logs))
  {
    var m := Numbers(logs);
    forall a, b | a in m && b in m && m[a] == m[b] ensures a == b {
      NumbersFrom(logs, a);
      NumbersFrom(logs, b);
      var i :| Has(logs, i) && logs[i].started.value.mac == a && logs[i].num == m[a];
      var j :| Has(logs, j) && logs[j].started.value.mac == b && logs[j].num == m[b];
      assert i == j;
    }
  }

  lemma {:induction false} KeptComesFrom(logs: seq<NodeLog>, timeStart: int, duration: int, e: LogEvent)
    requires e in Kept(logs, timeStart, duration)
    ensures exists i :: Has(logs, i) && e in EventsOf(logs[i].started.value.mac, logs[i].started.value.lines, timeStart)
  {
    var front, last := logs[..|logs| - 1], logs[|logs| - 1];
    if e in Kept(front, timeStart, duration) {
      KeptComesFrom(front, timeStart, duration, e);
      var i :| Has(front, i) && e in EventsOf(front[i].started.value.mac, front[i].started.value.lines, timeStart);
      assert Has(logs, i);
    } else {
      var lines := last.started.value.lines;
      assert lines[..|lines|] == lines;
      FilterMember(EventsOf(last.started.value.mac, lines, timeStart), Within(duration), e);
      assert Has(logs, |logs| - 1);
    }
  }

  lemma MergedMacsKnown(logs: seq<NodeLog>, duration: int)
    requires GoodLogs(logs)
    ensures KnownMacs(Numbers(logs), Combined(logs, duration).1)
    ensures TimeStart(logs).Some? ==> Combined(logs, duration).0 == Numbers(logs)
  {
    if TimeStart(logs).Some? {
      var merged, kept := Combined(logs, duration).1, Kept(logs, Begin(logs), duration);
      SortSorts(kept, BY_TIME);
      forall k | 0 <= k < |merged| ensures merged[k].mac1 in Numbers(logs) && merged[k].mac2 in Numbers(logs) {
        assert merged[k] in multiset(merged);
        assert merged[k] in kept;
        KeptComesFrom(logs, Begin(logs), duration, merged[k]);
        var i :| Has(logs, i) && merged[k] in OwnLog(logs, i);
        assert GoodLog(logs, i);
      }
    }
  }

  // The merged log with node numbers.
  ghost function Merged(logs: seq<NodeLog>, duration: int): seq<Event>
    requires GoodLogs(logs)
  {
    MergedMacsKnown(logs, duration);
    ResolvesWhenKnown(Numbers(logs), Combined(logs, duration).1);
    ResolveAll(Numbers(logs), Combined(logs, duration).1).value
  }

  // The beginning of a node's own log, with node numbers.
  function OwnTrace(logs: seq<NodeLog>, i: int, limit: int): seq<Event>
    requires Has(logs, i) && GoodLog(logs, i)
  {
    ResolvesWhenKnown(Numbers(logs), OwnLog(logs, i));
    ResolveAll(Numbers(logs), OwnLog(logs, i)).value[..Below(OwnLog(logs, i), BY_TIME, limit)]
  }

  // What the merged log has from a node is the beginning of that node's own log.
  lemma MergedRestricted(logs: seq<NodeLog>, duration: int, i: int)
    requires GoodLogs(logs) && Has(logs, i)
    ensures Filter(Merged(logs, duration), By(logs[i].num)) == OwnTrace(logs, i, duration)
  {
    var m, merged, mac := Numbers(logs), Combined(logs, duration).1, logs[i].started.value.mac;
    TimeStartIsEarliest(logs);
    assert GoodLog(logs, i);
    MergeKeepsOwn(logs, duration, i);
    NumbersOf(logs, i);
    NumbersInjective(logs);
    MergedMacsKnown(logs, duration);
    ResolveRestricted(m, merged, mac);
    ResolvePrefix(m, OwnLog(logs, i), Below(OwnLog(logs, i), BY_TIME, duration));
  }

  lemma MergedNodes(logs: seq<NodeLog>, duration: int, k: int)
    requires GoodLogs(logs) && 0 <= k < |Merged(logs, duration)|
    ensures exists i :: Has(logs, i) && logs[i].num == Merged(logs, duration)[k].a
  {
    var merged := Combined(logs, duration).1;
    MergedMacsKnown(logs, duration);
    ResolvesWhenKnown(Numbers(logs), merged);
    NumbersFrom(logs, merged[k].mac1);
  }

  // The beginning of the log of the node with that number, if it left one.
  ghost function NodeTrace(logs: seq<NodeLog>, node: Node, limit: int): seq<Event>
    requires GoodLogs(logs)
  {
    if i :| Has(logs, i) && logs[i].num == node then OwnTrace(logs, i, limit) else []
  }

  lemma MergedByNode(logs: seq<NodeLog>, duration: int, node: Node)
    requires GoodLogs(logs)
    ensures Filter(Merged(logs, duration), By(node)) == NodeTrace(logs, node, duration)
  {
    var trace := Merged(logs, duration);
    forall i | Has(logs, i) && logs[i].num == node ensures Filter(trace, By(node)) == OwnTrace(logs, i, duration) {
      MergedRestricted(logs, duration, i);
    }
    if !exists i :: Has(logs, i) && logs[i].num == node {
      forall k | 0 <= k < |trace| ensures trace[k].a != node {
        MergedNodes(logs, duration, k);
      }
      NobodysEvents(trace, node);
    }
  }

  lemma NodeTraceWellFormed(logs: seq<NodeLog>, node: Node, limit: int)
    requires GoodLogs(logs)
    ensures WellFormed(NodeTrace(logs, node, limit))
  {
    forall i | Has(logs, i) && logs[i].num == node ensures WellFormed(OwnTrace(logs, i, limit)) {
      ResolvesWhenKnown(Numbers(logs), OwnLog(logs, i));
      WellFormedPrefix(ResolveAll(Numbers(logs), OwnLog(logs, i)).value, Below(OwnLog(logs, i), BY_TIME, limit));
    }
  }

  lemma MergedWellFormed(logs: seq<NodeLog>, duration: int)
    requires GoodLogs(logs)
    ensures WellFormed(Merged(logs, duration))
  {
    forall node ensures WellFormed(Filter(Merged(logs, duration), By(node))) {
      MergedByNode(logs, duration, node);
      NodeTraceWellFormed(logs, node, duration);
    }
    WellFormedByNode(Merged(logs, duration));
  }

  lemma MergedTimeSorted(logs: seq<NodeLog>, duration: int)
    requires GoodLogs(logs)
    ensures TimeSorted(Merged(logs, duration))
  {
    var merged := Combined(logs, duration).1;
    MergedMacsKnown(logs, duration);
    ResolvesWhenKnown(Numbers(logs), merged);
    SortSorts(Kept(logs, Begin(logs), duration), BY_TIME);
    var trace := Merged(logs, duration);
    forall i, j | 0 <= i < j < |trace| ensures trace[i].time <= trace[j].time {
      assert Sorted(merged, BY_TIME) && BY_TIME(merged[i]) <= BY_TIME(merged[j]);
    }
  }

  /* A shorter duration only cuts the merged log. */

  lemma {:induction false} FilterTwice<T>(s: seq<T>, first: T -> bool, second: T -> bool)
    requires forall x :: second(x) ==> first(x)
    ensures Filter(Filter(s, first), second) == Filter(s, second)
  {
    if s == [] {
    } else {
      FilterTwice(s[..|s| - 1], first, second);
      FilterSnoc(Filter(s[..|s| - 1], first), s[|s| - 1], second);
    }
  }

  lemma {:induction false} KeptCut(logs: seq<NodeLog>, timeStart: int, duration: int, cut: int)
    requires cut <= duration
    ensures Filter(Kept(logs, timeStart, duration), Within(cut)) == Kept(logs, timeStart, cut)
  {
    if logs == [] {
    } else {
      var front, last := logs[..|logs| - 1], logs[|logs| - 1];
      KeptCut(front, timeStart, duration, cut);
      FilterConcat(Kept(front, timeStart, duration), KeptOf(last, timeStart, duration), Within(cut));
      if last.started.Some? {
        var lines := last.started.value.lines;
        FilterTwice(EventsOf(last.started.value.mac, lines[..|lines|], timeStart), Within(duration), Within(cut));
      }
    }
  }

  lemma CombinedCut(logs: seq<NodeLog>, duration: int, cut: int)
    requires cut <= duration
    ensures var merged := Combined(logs, duration).1;
            Sorted(merged, BY_TIME) && Combined(logs, cut).1 == merged[..Below(merged, BY_TIME, cut)]
  {
    if TimeStart(logs).Some? {
      var kept := Kept(logs, TimeStart(logs).value, duration);
      KeptCut(logs, TimeStart(logs).value, duration, cut);
      SortFilter(kept, BY_TIME, Within(cut));
      SortSorts(kept, BY_TIME);
      SelectionIsPrefix(StableSort(kept, BY_TIME), BY_TIME, cut, Within(cut));
    }
  }

  // Where the log stands at a time.
  function Cut(duration: int, time: int): int
  {
    if time < duration then time + 1 else duration
  }

  lemma CombinedBelow(logs: seq<NodeLog>, duration: int)
    ensures forall k :: 0 <= k < |Combined(logs, duration).1| ==> Combined(logs, duration).1[k].time < duration
  {
    var merged := Combined(logs, duration).1;
    CombinedCut(logs, duration, duration);
    assert merged == merged[..Below(merged, BY_TIME, duration)];
  }

  lemma MergedTimes(logs: seq<NodeLog>, duration: int)
    requires GoodLogs(logs)
    ensures var trace, merged := Merged(logs, duration), Combined(logs, duration).1;
            |trace| == |merged| && forall k :: 0 <= k < |trace| ==> trace[k].time == BY_TIME(merged[k]) < duration
  {
    MergedMacsKnown(logs, duration);
    ResolvesWhenKnown(Numbers(logs), Combined(logs, duration).1);
    CombinedBelow(logs, duration);
  }

  lemma MergedBelow(logs: seq<NodeLog>, duration: int, cut: int)
    requires GoodLogs(logs) && cut <= duration
    ensures var merged := Combined(logs, duration).1;
            Below(merged, BY_TIME, cut) <= |Merged(logs, duration)|
            && Merged(logs, duration)[..Below(merged, BY_TIME, cut)] == Merged(logs, cut)
  {
    MergedMacsKnown(logs, duration);
    ResolvesWhenKnown(Numbers(logs), Combined(logs, duration).1);
    CombinedCut(logs, duration, cut);
    ResolvePrefix(Numbers(logs), Combined(logs, duration).1, Below(Combined(logs, duration).1, BY_TIME, cut));
  }

  lemma UntilIs(trace: seq<Event>, time: int, k: nat)
    requires TimeSorted(trace) && k <= |trace|
    requires k > 0 ==> trace[k - 1].time <= time
    requires k < |trace| ==> trace[k].time > time
    ensures Until(trace, time) == k
  {
  }

  // Scrubbing back to a time is analysing the logs with a shorter duration.
  lemma MergedCut(logs: seq<NodeLog>, duration: int, time: int)
    requires GoodLogs(logs)
    ensures TimeSorted(Merged(logs, duration))
    ensures var trace := Merged(logs, duration); trace[..Until(trace, time)] == Merged(logs, Cut(duration, time))
  {
    var merged, cut := Combined(logs, duration).1, Cut(duration, time);
    MergedTimeSorted(logs, duration);
    MergedTimes(logs, duration);
    MergedBelow(logs, duration, cut);
    UntilIs(Merged(logs, duration), time, Below(merged, BY_TIME, cut));
  }

  /* Main result. */

  lemma {:induction false} EmittedSorted(start: Links, trace: seq<Event>)
    requires TimeSorted(trace) && Replay(start, trace).Some? && start.events == []
    ensures Sorted(Replay(start, trace).value.events, V.BY_EVENT_TIME)
  {
    if trace == [] {
    } else {
      var l := Replay(start, Front(trace)).value;
      EmittedSorted(start, Front(trace));
      EmittedExtend(start, Front(trace), 0);
      assert Front(trace)[..0] == [];
      StepEmits(l, Last(trace));
      forall y | y in l.events ensures y.time <= Last(trace).time {
        var i :| 0 <= i < |l.events| && l.events[i] == y;
        assert EmittedBy(Front(trace), 0, y.time);
        var j :| 0 <= j < |trace| - 1 && Front(trace)[j].time == y.time;
        assert trace[j].time <= Last(trace).time;
      }
      if Emits(l, Last(trace)) != [] {
        assert Emits(l, Last(trace)) == [Emits(l, Last(trace))[0]];
        SortedSnoc(l.events, Emits(l, Last(trace))[0], V.BY_EVENT_TIME);
      }
    }
  }

  // By their own logs up to a limit, both ends of the session x opened to y have it open.
  ghost predicate BothOpen(logs: seq<NodeLog>, x: Node, y: Node, limit: int)
    requires GoodLogs(logs)
  {
    IsOpen(NodeTrace(logs, x, limit), x, OUTGOING, y) && IsOpen(NodeTrace(logs, y, limit), y, INCOMING, x)
  }

  ghost predicate BothSee(logs: seq<NodeLog>, x: Node, y: Node, limit: int)
    requires GoodLogs(logs)
  {
    Sees(NodeTrace(logs, x, limit), x, y) && Sees(NodeTrace(logs, y, limit), y, x)
  }

  lemma MergedReports(logs: seq<NodeLog>, limit: int, x: Node, y: Node)
    requires GoodLogs(logs)
    ensures LinkIsUp(Merged(logs, limit), x, y) <==> BothOpen(logs, x, y, limit)
    ensures SeeEachOther(Merged(logs, limit), x, y) <==> BothSee(logs, x, y, limit)
  {
    MergedByNode(logs, limit, x);
    MergedByNode(logs, limit, y);
    ReportsOfNode(Merged(logs, limit), x, OUTGOING, y);
    ReportsOfNode(Merged(logs, limit), y, INCOMING, x);
  }

  // Logs that are well-formed one by one are analysed without an exception.
  lemma GoodLogsComplete(logs: seq<NodeLog>, duration: int)
    requires GoodLogs(logs)
    ensures var (macToNum, log) := Combined(logs, duration);
            Stats.Completes(macToNum, log) && ResolveAll(macToNum, log) == Some(Merged(logs, duration))
            && Replay(Start(macToNum.Values), Merged(logs, duration)).Some?
  {
    var (macToNum, log) := Combined(logs, duration);
    MergedMacsKnown(logs, duration);
    ResolvesWhenKnown(Numbers(logs), log);
    MergedWellFormed(logs, duration);
    WellFormedSuffices(Merged(logs, duration));
    ReplaySucceedsIff(macToNum.Values, Merged(logs, duration));
  }

  // What the analyser makes of the logs.
  ghost function Analysed(logs: seq<NodeLog>, duration: int): Links
    requires GoodLogs(logs)
  {
    GoodLogsComplete(logs, duration);
    Replay(Start(Combined(logs, duration).0.Values), Merged(logs, duration)).value
  }

  // The final graph counts just the sessions that both ends report open.
  lemma GraphShowsLogs(logs: seq<NodeLog>, duration: int, x: Node, y: Node)
    requires GoodLogs(logs)
    ensures G.Mult(Analysed(logs, duration).graph, x, y)
            == G.One(BothOpen(logs, x, y, duration)) + G.One(BothOpen(logs, y, x, duration))
  {
    var trace := Merged(logs, duration);
    GoodLogsComplete(logs, duration);
    MergedWellFormed(logs, duration);
    WellFormedSuffices(trace);
    GraphRefinesTraceIff(Combined(logs, duration).0.Values, trace);
    assert G.Mult(Analysed(logs, duration).graph, x, y) == LinksBetween(trace, x, y);
    MergedReports(logs, duration, x, y);
    MergedReports(logs, duration, y, x);
  }

  // What the screen shows at a time.
  ghost function Shown(logs: seq<NodeLog>, duration: int, time: int): Picture
    requires GoodLogs(logs)
  {
    DrawAll(UpTo(StableSort(Analysed(logs, duration).events, V.BY_EVENT_TIME), time))
  }

  lemma ShownIsReplayed(logs: seq<NodeLog>, duration: int, time: int)
    requires GoodLogs(logs)
    ensures var nodes, trace := Combined(logs, duration).0.Values, Merged(logs, Cut(duration, time));
            Replay(Start(nodes), trace).Some? && Shown(logs, duration, time) == DrawAll(Replay(Start(nodes), trace).value.events)
  {
    var nodes, trace := Combined(logs, duration).0.Values, Merged(logs, duration);
    GoodLogsComplete(logs, duration);
    MergedCut(logs, duration, time);
    EmittedSorted(Start(nodes), trace);
    SortOfSorted(Analysed(logs, duration).events, V.BY_EVENT_TIME);
    ScrubShowsState(nodes, trace, time);
  }

  // The picture has an edge just for each session that both ends, by their own logs so far,
  // have open, and one discovery entry just for each pair of nodes that, by their own logs so
  // far, see each other.
  ghost predicate Faithful(shown: Picture, logs: seq<NodeLog>, limit: int)
    requires GoodLogs(logs)
  {
    && (forall x, y :: Edge(x, y) in shown.activeEdges <==> BothOpen(logs, x, y, limit))
    && (forall x, y :: Entries(shown.discovery, x, y) == G.One(BothSee(logs, x, y, limit)))
  }

  lemma ReplayedIsFaithful(nodes: set<Node>, logs: seq<NodeLog>, limit: int)
    requires GoodLogs(logs)
    ensures Replay(Start(nodes), Merged(logs, limit)).Some?
    ensures Faithful(DrawAll(Replay(Start(nodes), Merged(logs, limit)).value.events), logs, limit)
  {
    MergedWellFormed(logs, limit);
    WellFormedSuffices(Merged(logs, limit));
    ActiveEdgesAreUpLinks(nodes, Merged(logs, limit));
    DiscoveryEntriesIff(nodes, Merged(logs, limit));
    forall x, y
      ensures LinkIsUp(Merged(logs, limit), x, y) <==> BothOpen(logs, x, y, limit)
      ensures SeeEachOther(Merged(logs, limit), x, y) <==> BothSee(logs, x, y, limit)
    {
      MergedReports(logs, limit, x, y);
    }
  }

  // Scrubbed to any time, the screen is faithful to the logs up to that time.
  lemma {:induction false} ScreenShowsLogs(logs: seq<NodeLog>, duration: int, time: int)
    requires GoodLogs(logs)
    ensures Faithful(Shown(logs, duration, time), logs, Cut(duration, time))
  {
    ShownIsReplayed(logs, duration, time);
    ReplayedIsFaithful(Combined(logs, duration).0.Values, logs, Cut(duration, time));
  }

  /* From the managers to the screen. */

  // A run of one node: its log, the steps of its discovery, the sections of its activations
  // and closings of sessions.
  datatype NodeRun = NodeRun(reports: seq<N.Report>, steps: seq<D.Step>, sections: seq<S.Step>)

  // The log has the notifications of both managers. Peers are heard of by broadcast only, no
  // interface vanishes, and sessions are single.
  predicate Behaved(me: Node, run: NodeRun)
  {
    && N.Reports(me, run.reports, run.steps, run.sections)
    && D.AllPolite(D.Start(me), run.steps)
    && N.SingleSessions(me, run.sections)
  }

  // The line of the node with that number and the report are about the same: the time from the
  // common start, what was notified, and the peer, whose address is numbered.
  predicate SameReport(me: Node, macToNum: map<Mac, Node>, line: Line, begin: int, e: Event)
  {
    line.time - begin == e.time && e.a == me && line.what == e.kind
    && line.mac2 in macToNum && macToNum[line.mac2] == e.b
  }

  // The file is in time order and has a line for each report of the run, in order.
  ghost predicate Records(logs: seq<NodeLog>, i: int, run: NodeRun)
    requires Has(logs, i)
  {
    var lines, trace := logs[i].started.value.lines, N.TraceOf(logs[i].num, run.reports);
    Monotone(lines) && |lines| == |trace|
    && forall j :: 0 <= j < |lines| ==> SameReport(logs[i].num, Numbers(logs), lines[j], Begin(logs), trace[j])
  }

  lemma {:induction false} ResolvesTo(macToNum: map<Mac, Node>, log: seq<LogEvent>, trace: seq<Event>)
    requires |log| == |trace| && forall j :: 0 <= j < |log| ==> Resolve(macToNum, log[j]) == Some(trace[j])
    ensures ResolveAll(macToNum, log) == Some(trace)
  {
    if log == [] {
    } else {
      ResolvesTo(macToNum, log[..|log| - 1], trace[..|log| - 1]);
      assert trace == trace[..|log| - 1] + [trace[|log| - 1]];
    }
  }

  lemma RecordsResolve(logs: seq<NodeLog>, i: int, run: NodeRun)
    requires DistinctMacs(logs) && Has(logs, i) && Records(logs, i, run)
    ensures ResolveAll(Numbers(logs), OwnLog(logs, i)) == Some(N.TraceOf(logs[i].num, run.reports))
  {
    var lines, trace := logs[i].started.value.lines, N.TraceOf(logs[i].num, run.reports);
    NumbersOf(logs, i);
    forall j | 0 <= j < |lines| ensures Resolve(Numbers(logs), OwnLog(logs, i)[j]) == Some(trace[j]) {
      assert SameReport(logs[i].num, Numbers(logs), lines[j], Begin(logs), trace[j]);
    }
    ResolvesTo(Numbers(logs), OwnLog(logs, i), trace);
  }

  lemma {:induction false} ResolvedMeansKnown(macToNum: map<Mac, Node>, log: seq<LogEvent>)
    requires ResolveAll(macToNum, log).Some?
    ensures KnownMacs(macToNum, log)
  {
    if log == [] {
    } else {
      ResolvedMeansKnown(macToNum, log[..|log| - 1]);
      forall i | 0 <= i < |log| ensures log[i].mac1 in macToNum && log[i].mac2 in macToNum {
        if i < |log| - 1 {
          assert log[..|log| - 1][i] == log[i];
        }
      }
    }
  }

  /* What the managers have told by a time. */

  const BY_REPORT_TIME: N.Report -> int := (r: N.Report) => r.time

  // The reports of the run before the limit.
  function Told(run: NodeRun, limit: int): seq<N.Report>
  {
    run.reports[..Below(run.reports, BY_REPORT_TIME, limit)]
  }

  // The last its managers told by then about that connection of node x is that it opened.
  ghost predicate ToldOpen(logs: seq<NodeLog>, runs: seq<NodeRun>, x: Node, limit: int, c: S.Conn)
    requires |runs| == |logs|
  {
    exists i :: Has(logs, i) && logs[i].num == x && SN.NotedOpen(N.SessionNotes(Told(runs[i], limit)), c)
  }

  ghost predicate ToldFound(logs: seq<NodeLog>, runs: seq<NodeRun>, x: Node, limit: int, peer: Node)
    requires |runs| == |logs|
  {
    exists i :: Has(logs, i) && logs[i].num == x && D.LastIsFound(N.Sights(Told(runs[i], limit)), peer)
  }

  lemma {:induction false} TracePrefix(me: Node, reports: seq<N.Report>, k: nat)
    requires k <= |reports|
    ensures |N.TraceOf(me, reports)| == |reports| && N.TraceOf(me, reports)[..k] == N.TraceOf(me, reports[..k])
    ensures forall j :: 0 <= j < |reports| ==> N.TraceOf(me, reports)[j] == N.EventOf(me, reports[j])
  {
    if reports == [] {
    } else {
      var n := |reports| - 1;
      TracePrefix(me, reports[..n], if k <= n then k else n);
      if k <= n {
        assert reports[..n][..k] == reports[..k];
      } else {
        assert reports[..k] == reports;
      }
    }
  }

  lemma SameBelow(own: seq<LogEvent>, reports: seq<N.Report>, limit: int)
    requires |own| == |reports| && forall j :: 0 <= j < |own| ==> own[j].time == reports[j].time
    ensures Below(own, BY_TIME, limit) == Below(reports, BY_REPORT_TIME, limit)
    decreases |own|
  {
    if own != [] && own[0].time < limit {
      SameBelow(own[1..], reports[1..], limit);
    }
  }

  // What a file has up to a limit is what the managers of its node told by then.
  lemma OwnTraceIsTold(logs: seq<NodeLog>, i: int, run: NodeRun, limit: int)
    requires DistinctMacs(logs) && Has(logs, i) && Records(logs, i, run) && GoodLog(logs, i)
    ensures OwnTrace(logs, i, limit) == N.TraceOf(logs[i].num, Told(run, limit))
  {
    var own, k := OwnLog(logs, i), Below(run.reports, BY_REPORT_TIME, limit);
    RecordsResolve(logs, i, run);
    TracePrefix(logs[i].num, run.reports, k);
    forall j | 0 <= j < |own| ensures own[j].time == run.reports[j].time {
      var lines := logs[i].started.value.lines;
      assert SameReport(logs[i].num, Numbers(logs), lines[j], Begin(logs), N.TraceOf(logs[i].num, run.reports)[j]);
    }
    SameBelow(own, run.reports, limit);
  }

  ghost predicate AllRecorded(logs: seq<NodeLog>, runs: seq<NodeRun>)
  {
    |runs| == |logs| && DistinctMacs(logs) && DistinctNumbers(logs)
    && forall i :: Has(logs, i) ==> Behaved(logs[i].num, runs[i]) && Records(logs, i, runs[i])
  }

  lemma RecordedIsGood(logs: seq<NodeLog>, runs: seq<NodeRun>)
    requires AllRecorded(logs, runs)
    ensures GoodLogs(logs)
  {
    forall i | Has(logs, i) ensures GoodLog(logs, i) {
      RecordsResolve(logs, i, runs[i]);
      ResolvedMeansKnown(Numbers(logs), OwnLog(logs, i));
      N.PoliteNodeLogWellFormed(logs[i].num, runs[i].reports, runs[i].steps, runs[i].sections);
    }
  }

  lemma NodeTraceIsTold(logs: seq<NodeLog>, runs: seq<NodeRun>, x: Node, limit: int)
    requires AllRecorded(logs, runs) && GoodLogs(logs)
    ensures (forall i :: Has(logs, i) ==> logs[i].num != x) ==> NodeTrace(logs, x, limit) == []
    ensures forall i :: Has(logs, i) && logs[i].num == x ==> NodeTrace(logs, x, limit) == N.TraceOf(x, Told(runs[i], limit))
  {
    if j :| Has(logs, j) && logs[j].num == x {
      assert forall i :: Has(logs, i) && logs[i].num == x ==> i == j;
      assert GoodLog(logs, j);
      OwnTraceIsTold(logs, j, runs[j], limit);
    }
  }

  lemma OpenIsTold(logs: seq<NodeLog>, runs: seq<NodeRun>, x: Node, limit: int, c: S.Conn)
    requires AllRecorded(logs, runs) && GoodLogs(logs)
    ensures IsOpen(NodeTrace(logs, x, limit), x, if c.dir.INCOMING? then INCOMING else OUTGOING, c.peer)
            <==> ToldOpen(logs, runs, x, limit, c)
    ensures Sees(NodeTrace(logs, x, limit), x, c.peer) <==> ToldFound(logs, runs, x, limit, c.peer)
  {
    NodeTraceIsTold(logs, runs, x, limit);
    forall i | Has(logs, i) && logs[i].num == x
      ensures IsOpen(NodeTrace(logs, x, limit), x, if c.dir.INCOMING? then INCOMING else OUTGOING, c.peer)
              <==> SN.NotedOpen(N.SessionNotes(Told(runs[i], limit)), c)
      ensures Sees(NodeTrace(logs, x, limit), x, c.peer) <==> D.LastIsFound(N.Sights(Told(runs[i], limit)), c.peer)
    {
      N.ReportsSeen(x, Told(runs[i], limit), c);
    }
    assert forall i, j :: Has(logs, i) && Has(logs, j) && logs[i].num == x && logs[j].num == x ==> i == j;
  }

  // The picture has an edge from x to y just when the managers of x told last that its outgoing
  // session with y opened and those of y that its incoming one with x did, and one entry just
  // for each pair whose managers told last that they found each other.
  ghost predicate ShowsManagers(shown: Picture, logs: seq<NodeLog>, runs: seq<NodeRun>, limit: int)
    requires |runs| == |logs|
  {
    && (forall x, y :: Edge(x, y) in shown.activeEdges
                       <==> ToldOpen(logs, runs, x, limit, S.Conn(y, S.OUTGOING))
                            && ToldOpen(logs, runs, y, limit, S.Conn(x, S.INCOMING)))
    && (forall x, y :: Entries(shown.discovery, x, y)
                       == G.One(ToldFound(logs, runs, x, limit, y) && ToldFound(logs, runs, y, limit, x)))
  }

  lemma FaithfulShowsManagers(shown: Picture, logs: seq<NodeLog>, runs: seq<NodeRun>, limit: int)
    requires AllRecorded(logs, runs) && GoodLogs(logs) && Faithful(shown, logs, limit)
    ensures ShowsManagers(shown, logs, runs, limit)
  {
    forall x, y
      ensures BothOpen(logs, x, y, limit) <==> ToldOpen(logs, runs, x, limit, S.Conn(y, S.OUTGOING))
                                               && ToldOpen(logs, runs, y, limit, S.Conn(x, S.INCOMING))
      ensures BothSee(logs, x, y, limit) <==> ToldFound(logs, runs, x, limit, y) && ToldFound(logs, runs, y, limit, x)
    {
      OpenIsTold(logs, runs, x, limit, S.Conn(y, S.OUTGOING));
      OpenIsTold(logs, runs, y, limit, S.Conn(x, S.INCOMING));
    }
  }

  // The files of nodes that behaved are analysed without an exception, and at every time the
  // picture is that of what the managers of the nodes have told by then.
  lemma BehavedNodesAreShown(logs: seq<NodeLog>, runs: seq<NodeRun>, duration: int, time: int)
    requires AllRecorded(logs, runs)
    ensures GoodLogs(logs) && ShowsManagers(Shown(logs, duration, time), logs, runs, Cut(duration, time))
  {
    RecordedIsGood(logs, runs);
    ScreenShowsLogs(logs, duration, time);
    FaithfulShowsManagers(Shown(logs, duration, time), logs, runs, Cut(duration, time));
  }
}
