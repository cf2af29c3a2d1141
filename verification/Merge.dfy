// combine_logs: the lines of all nodes, cut at the duration, sorted by time.
module Merge {
  import opened Prelude
  import opened Trace
  import opened Log
  import opened Sorting

  datatype Line = Line(time: int, what: Kind, mac2: Mac)

  // A log file: the node's number, and from its start line on the time, the MAC address and
  // the events that follow. A log without a start line contributes nothing.
  datatype Started = Started(time: int, mac: Mac, lines: seq<Line>)
  datatype NodeLog = NodeLog(num: Node, started: Option<Started>)

  // The earliest start.
  function TimeStart(logs: seq<NodeLog>): Option<int>
  {
    if logs == [] then None
    else
      var front, last := TimeStart(logs[..|logs| - 1]), logs[|logs| - 1].started;
      if last.None? then front
      else if front.None? || last.value.time < front.value then Some(last.value.time)
      else front
  }

  function Shifted(mac: Mac, line: Line, timeStart: int): LogEvent
  {
    LogEvent(line.time - timeStart, mac, line.what, line.mac2)
  }

  // The events of one log, with times from the common start.
  function EventsOf(mac: Mac, lines: seq<Line>, timeStart: int): (events: seq<LogEvent>)
    ensures |events| == |lines|
    ensures forall i :: 0 <= i < |lines| ==> events[i] == Shifted(mac, lines[i], timeStart)
  {
    if lines == [] then []
    else EventsOf(mac, lines[..|lines| - 1], timeStart) + [Shifted(mac, lines[|lines| - 1], timeStart)]
  }

  const BY_TIME: LogEvent -> int := (e: LogEvent) => e.time

  function Within(duration: int): LogEvent -> bool
  {
    (e: LogEvent) => e.time < duration
  }

  function From(mac: Mac): LogEvent -> bool
  {
    (e: LogEvent) => e.mac1 == mac
  }

  function KeptOf(log: NodeLog, timeStart: int, duration: int): seq<LogEvent>
  {
    if log.started.None? then []
    else KeptLines(log.started.value, |log.started.value.lines|, timeStart, duration)
  }

  // Of the first k lines of a log, the events before the duration.
  function KeptLines(log: Started, k: nat, timeStart: int, duration: int): seq<LogEvent>
    requires k <= |log.lines|
  {
    Filter(EventsOf(log.mac, log.lines[..k], timeStart), Within(duration))
  }

  lemma KeptLinesNext(log: Started, k: nat, timeStart: int, duration: int)
    requires k < |log.lines|
    ensures var event := Shifted(log.mac, log.lines[k], timeStart);
            KeptLines(log, k + 1, timeStart, duration)
            == if event.time < duration then KeptLines(log, k, timeStart, duration) + [event]
               else KeptLines(log, k, timeStart, duration)
  {
    assert log.lines[..k + 1][..k] == log.lines[..k];
    FilterSnoc(EventsOf(log.mac, log.lines[..k], timeStart), Shifted(log.mac, log.lines[k], timeStart), Within(duration));
  }

  function Kept(logs: seq<NodeLog>, timeStart: int, duration: int): seq<LogEvent>
  {
    if logs == [] then []
    else Kept(logs[..|logs| - 1], timeStart, duration) + KeptOf(logs[|logs| - 1], timeStart, duration)
  }

  function Numbers(logs: seq<NodeLog>): map<Mac, Node>
  {
    if logs == [] then map[]
    else
      var front, last := Numbers(logs[..|logs| - 1]), logs[|logs| - 1];
      if last.started.None? then front else front[last.started.value.mac := last.num]
  }

  function Combined(logs: seq<NodeLog>, duration: int): (map<Mac, Node>, seq<LogEvent>)
  {
    var timeStart := TimeStart(logs);
    if timeStart.None? then (map[], [])
    else (Numbers(logs), StableSort(Kept(logs, timeStart.value, duration), BY_TIME))
  }

  /* What is merged, line by line. */

  // The line of the node with that address becomes the event, counted from the common start.
  predicate Makes(mac: Mac, line: Line, timeStart: int, duration: int, e: LogEvent)
  {
    && e.mac1 == mac && e.what == line.what && e.mac2 == line.mac2
    && e.time == line.time - timeStart && line.time < timeStart + duration
  }

  function LinesMaking(mac: Mac, lines: seq<Line>, timeStart: int, duration: int, e: LogEvent): nat
  {
    if lines == [] then 0
    else LinesMaking(mac, lines[..|lines| - 1], timeStart, duration, e)
         + if Makes(mac, lines[|lines| - 1], timeStart, duration, e) then 1 else 0
  }

  // Lines of started logs that become the event.
  function LogsMaking(logs: seq<NodeLog>, timeStart: int, duration: int, e: LogEvent): nat
  {
    if logs == [] then 0
    else
      var last := logs[|logs| - 1].started;
      LogsMaking(logs[..|logs| - 1], timeStart, duration, e)
      + if last.Some? then LinesMaking(last.value.mac, last.value.lines, timeStart, duration, e) else 0
  }

  lemma {:induction false} KeptLinesCount(log: Started, k: nat, timeStart: int, duration: int, e: LogEvent)
    requires k <= |log.lines|
    ensures multiset(KeptLines(log, k, timeStart, duration))[e]
            == LinesMaking(log.mac, log.lines[..k], timeStart, duration, e)
  {
    if k == 0 {
      assert log.lines[..0] == [];
    } else {
      KeptLinesCount(log, k - 1, timeStart, duration, e);
      KeptLinesNext(log, k - 1, timeStart, duration);
      CountSnoc(KeptLines(log, k - 1, timeStart, duration), Shifted(log.mac, log.lines[k - 1], timeStart), e);
      LinesMakingNext(log, k - 1, timeStart, duration, e);
    }
  }

  lemma CountSnoc(events: seq<LogEvent>, x: LogEvent, e: LogEvent)
    ensures multiset(events + [x])[e] == multiset(events)[e] + if x == e then 1 else 0
  {
  }

  lemma LinesMakingNext(log: Started, k: nat, timeStart: int, duration: int, e: LogEvent)
    requires k < |log.lines|
    ensures var event := Shifted(log.mac, log.lines[k], timeStart);
            LinesMaking(log.mac, log.lines[..k + 1], timeStart, duration, e)
            == LinesMaking(log.mac, log.lines[..k], timeStart, duration, e)
               + if event.time < duration && event == e then 1 else 0
  {
    assert log.lines[..k + 1][..k] == log.lines[..k];
  }

  lemma {:induction false} KeptCount(logs: seq<NodeLog>, timeStart: int, duration: int, e: LogEvent)
    ensures multiset(Kept(logs, timeStart, duration))[e] == LogsMaking(logs, timeStart, duration, e)
  {
    if logs == [] {
    } else {
      KeptCount(logs[..|logs| - 1], timeStart, duration, e);
      var last := logs[|logs| - 1].started;
      if last.Some? {
        assert last.value.lines[..|last.value.lines|] == last.value.lines;
        KeptLinesCount(last.value, |last.value.lines|, timeStart, duration, e);
      }
    }
  }

  // The common start is the earliest start of any log.
  ghost predicate IsEarliestStart(logs: seq<NodeLog>, timeStart: int)
  {
    && (exists i :: 0 <= i < |logs| && logs[i].started.Some? && logs[i].started.value.time == timeStart)
    && (forall i :: 0 <= i < |logs| && logs[i].started.Some? ==> timeStart <= logs[i].started.value.time)
  }

  lemma {:induction false} TimeStartIsEarliest(logs: seq<NodeLog>)
    ensures TimeStart(logs).None? <==> forall i :: 0 <= i < |logs| ==> logs[i].started.None?
    ensures TimeStart(logs).Some? ==> IsEarliestStart(logs, TimeStart(logs).value)
  {
    if logs == [] {
    } else {
      var n := |logs| - 1;
      TimeStartIsEarliest(logs[..n]);
      if TimeStart(logs[..n]).Some? {
        var i :| 0 <= i < n && logs[..n][i].started.Some? && logs[..n][i].started.value.time == TimeStart(logs[..n]).value;
        assert logs[i].started.Some?;
      }
    }
  }

  predicate StartedWith(logs: seq<NodeLog>, mac: Mac, i: int)
  {
    0 <= i < |logs| && logs[i].started.Some? && logs[i].started.value.mac == mac
  }

  predicate LastWith(logs: seq<NodeLog>, mac: Mac, i: int)
  {
    StartedWith(logs, mac, i) && forall j :: i < j < |logs| ==> !StartedWith(logs, mac, j)
  }

  // The addresses are those of the logs that started, each with the number of the last of these.
  ghost predicate NumberedBy(logs: seq<NodeLog>, macToNum: map<Mac, Node>)
  {
    && (forall mac :: mac in macToNum <==> exists i :: StartedWith(logs, mac, i))
    && (forall mac, i :: LastWith(logs, mac, i) ==> mac in macToNum && macToNum[mac] == logs[i].num)
  }

  lemma {:induction false} NumbersKeys(logs: seq<NodeLog>, mac: Mac)
    ensures mac in Numbers(logs) <==> exists i :: StartedWith(logs, mac, i)
  {
    if logs == [] {
    } else {
      var n := |logs| - 1;
      NumbersKeys(logs[..n], mac);
      forall i | 0 <= i < n ensures StartedWith(logs[..n], mac, i) <==> StartedWith(logs, mac, i) {
      }
      if i :| StartedWith(logs, mac, i) {
        assert i < n ==> StartedWith(logs[..n], mac, i);
      }
      if i :| StartedWith(logs[..n], mac, i) {
        assert StartedWith(logs, mac, i);
      }
      if StartedWith(logs, mac, n) {
        assert mac in Numbers(logs);
      }
    }
  }

  lemma {:induction false} NumberOfLast(logs: seq<NodeLog>, mac: Mac, i: int)
    requires LastWith(logs, mac, i)
    ensures mac in Numbers(logs) && Numbers(logs)[mac] == logs[i].num
  {
    var n := |logs| - 1;
    if i < n {
      assert !StartedWith(logs, mac, n);
      forall j | i < j < n ensures !StartedWith(logs[..n], mac, j) {
        assert !StartedWith(logs, mac, j);
      }
      NumberOfLast(logs[..n], mac, i);
    }
  }

  lemma NumbersNumber(logs: seq<NodeLog>)
    ensures NumberedBy(logs, Numbers(logs))
  {
    forall mac ensures mac in Numbers(logs) <==> exists i :: StartedWith(logs, mac, i) {
      NumbersKeys(logs, mac);
    }
    forall mac, i | LastWith(logs, mac, i) ensures mac in Numbers(logs) && Numbers(logs)[mac] == logs[i].num {
      NumberOfLast(logs, mac, i);
    }
  }

  // The merged log: no log started, and nothing is merged; or every line of a started log before
  // the duration, counted from the earliest start, is there as an event of its node once, and
  // nothing else is, in the order of the times.
  ghost predicate IsMerge(logs: seq<NodeLog>, duration: int, allEvents: seq<LogEvent>)
  {
    Sorted(allEvents, BY_TIME)
    && ((forall i :: 0 <= i < |logs| ==> logs[i].started.None?) ==> allEvents == [])
    && forall timeStart :: IsEarliestStart(logs, timeStart) ==>
         forall e :: multiset(allEvents)[e] == LogsMaking(logs, timeStart, duration, e)
  }

  lemma CombinedIsMerge(logs: seq<NodeLog>, duration: int)
    ensures IsMerge(logs, duration, Combined(logs, duration).1)
    ensures NumberedBy(logs, Combined(logs, duration).0)
  {
    TimeStartIsEarliest(logs);
    NumbersNumber(logs);
    if TimeStart(logs).Some? {
      var timeStart := TimeStart(logs).value;
      SortSorts(Kept(logs, timeStart, duration), BY_TIME);
      forall e ensures multiset(Combined(logs, duration).1)[e] == LogsMaking(logs, timeStart, duration, e) {
        KeptCount(logs, timeStart, duration, e);
      }
      assert forall other :: IsEarliestStart(logs, other) ==> other == timeStart;
    }
  }

  method CombineLogs(logs: seq<NodeLog>, duration: int)
    returns (macToNum: map<Mac, Node>, allEvents: seq<LogEvent>)
    ensures (macToNum, allEvents) == Combined(logs, duration)
    ensures NumberedBy(logs, macToNum) && IsMerge(logs, duration, allEvents)
  {
    macToNum, allEvents := ReadLogs(logs, duration);
    CombinedIsMerge(logs, duration);
  }

  // The two passes over the files, and the sort.
  method ReadLogs(logs: seq<NodeLog>, duration: int) returns (macToNum: map<Mac, Node>, allEvents: seq<LogEvent>)
    ensures (macToNum, allEvents) == Combined(logs, duration)
  {
    var timeStart: Option<int> := None;
    for i := 0 to |logs|
      invariant timeStart == TimeStart(logs[..i])
    {
      assert logs[..i + 1][..i] == logs[..i];
      var started := logs[i].started;
      if started.Some? && (timeStart.None? || started.value.time < timeStart.value) {
        timeStart := Some(started.value.time);
      }
    }
    assert logs[..|logs|] == logs;
    macToNum, allEvents := map[], [];
    if timeStart.None? {
      return;
    }
    for i := 0 to |logs|
      invariant macToNum == Numbers(logs[..i])
      invariant allEvents == Kept(logs[..i], timeStart.value, duration)
    {
      assert logs[..i + 1][..i] == logs[..i];
      if logs[i].started.Some? {
        macToNum := macToNum[logs[i].started.value.mac := logs[i].num];
        allEvents := AppendLog(logs[i].started.value, timeStart.value, duration, allEvents);
      }
    }
    allEvents := StableSort(allEvents, BY_TIME);
  }

  // The inner loop over the lines of one file.
  method AppendLog(log: Started, timeStart: int, duration: int, events: seq<LogEvent>) returns (allEvents: seq<LogEvent>)
    ensures allEvents == events + KeptLines(log, |log.lines|, timeStart, duration)
  {
    allEvents := events;
    for i := 0 to |log.lines|
      invariant allEvents == events + KeptLines(log, i, timeStart, duration)
    {
      var timestamp := log.lines[i].time - timeStart;
      KeptLinesNext(log, i, timeStart, duration);
      if timestamp < duration {
        allEvents := allEvents + [LogEvent(timestamp, log.mac, log.lines[i].what, log.lines[i].mac2)];
      }
    }
  }

  /* What the merge keeps of each node's log. */

  predicate DistinctMacs(logs: seq<NodeLog>)
  {
    forall i, j | 0 <= i < j < |logs| && logs[i].started.Some? && logs[j].started.Some? ::
      logs[i].started.value.mac != logs[j].started.value.mac
  }

  // The lines of each file are in the order of their times.
  predicate Monotone(lines: seq<Line>)
  {
    forall i, j :: 0 <= i < j < |lines| ==> lines[i].time <= lines[j].time
  }

  lemma KeptFromOneLog(log: NodeLog, timeStart: int, duration: int, mac: Mac)
    ensures Filter(KeptOf(log, timeStart, duration), From(mac))
            == if log.started.Some? && log.started.value.mac == mac then KeptOf(log, timeStart, duration) else []
  {
    if log.started.Some? {
      var lines := log.started.value.lines;
      assert lines[..|lines|] == lines;
      var events := EventsOf(log.started.value.mac, lines, timeStart);
      forall e | e in KeptOf(log, timeStart, duration) ensures e.mac1 == log.started.value.mac {
        FilterMember(events, Within(duration), e);
      }
      if log.started.value.mac == mac {
        FilterAll(KeptOf(log, timeStart, duration), From(mac));
      } else {
        FilterNone(KeptOf(log, timeStart, duration), From(mac));
      }
    }
  }

  lemma {:induction false} KeptFromNowhere(logs: seq<NodeLog>, timeStart: int, duration: int, mac: Mac)
    requires forall i :: 0 <= i < |logs| && logs[i].started.Some? ==> logs[i].started.value.mac != mac
    ensures Filter(Kept(logs, timeStart, duration), From(mac)) == []
  {
    if logs == [] {
    } else {
      var front, last := logs[..|logs| - 1], logs[|logs| - 1];
      KeptFromNowhere(front, timeStart, duration, mac);
      KeptFromOneLog(last, timeStart, duration, mac);
      FilterConcat(Kept(front, timeStart, duration), KeptOf(last, timeStart, duration), From(mac));
    }
  }

  lemma {:induction false} KeptFrom(logs: seq<NodeLog>, timeStart: int, duration: int, i: nat)
    requires DistinctMacs(logs) && i < |logs| && logs[i].started.Some?
    ensures Filter(Kept(logs, timeStart, duration), From(logs[i].started.value.mac)) == KeptOf(logs[i], timeStart, duration)
  {
    var front, last, mac := logs[..|logs| - 1], logs[|logs| - 1], logs[i].started.value.mac;
    FilterConcat(Kept(front, timeStart, duration), KeptOf(last, timeStart, duration), From(mac));
    KeptFromOneLog(last, timeStart, duration, mac);
    if i == |logs| - 1 {
      KeptFromNowhere(front, timeStart, duration, mac);
    } else {
      KeptFrom(front, timeStart, duration, i);
    }
  }

  lemma EventsSorted(mac: Mac, lines: seq<Line>, timeStart: int)
    requires Monotone(lines)
    ensures Sorted(EventsOf(mac, lines, timeStart), BY_TIME)
  {
  }

  // What the merged log has from a node are the events of the first lines of that node's log, in
  // their order, up to the first line at or after the duration.
  lemma MergeKeepsNodeLogs(logs: seq<NodeLog>, duration: int, i: nat)
    requires DistinctMacs(logs) && i < |logs| && logs[i].started.Some? && TimeStart(logs).Some?
    requires Monotone(logs[i].started.value.lines)
    ensures var log, start := logs[i].started.value, TimeStart(logs).value;
            var part := Filter(Combined(logs, duration).1, From(log.mac));
            |part| <= |log.lines|
            && (forall j :: 0 <= j < |part| ==> Makes(log.mac, log.lines[j], start, duration, part[j]))
            && (|part| < |log.lines| ==> log.lines[|part|].time >= start + duration)
  {
    MergeKeepsOwn(logs, duration, i);
  }

  lemma MergeKeepsOwn(logs: seq<NodeLog>, duration: int, i: nat)
    requires DistinctMacs(logs) && i < |logs| && logs[i].started.Some? && TimeStart(logs).Some?
    requires Monotone(logs[i].started.value.lines)
    ensures var merged := Combined(logs, duration).1;
            var own := EventsOf(logs[i].started.value.mac, logs[i].started.value.lines, TimeStart(logs).value);
            Filter(merged, From(logs[i].started.value.mac)) == own[..Below(own, BY_TIME, duration)]
  {
    var timeStart, mac := TimeStart(logs).value, logs[i].started.value.mac;
    var own := EventsOf(mac, logs[i].started.value.lines, timeStart);
    var kept := Kept(logs, timeStart, duration);
    assert logs[i].started.value.lines[..|logs[i].started.value.lines|] == logs[i].started.value.lines;
    SortFilter(kept, BY_TIME, From(mac));
    KeptFrom(logs, timeStart, duration, i);
    EventsSorted(mac, logs[i].started.value.lines, timeStart);
    SelectionIsPrefix(own, BY_TIME, duration, Within(duration));
    PrefixSorted(own, Below(own, BY_TIME, duration));
  }

  lemma PrefixSorted(events: seq<LogEvent>, k: nat)
    requires Sorted(events, BY_TIME) && k <= |events|
    ensures StableSort(events[..k], BY_TIME) == events[..k]
  {
    SortOfSorted(events[..k], BY_TIME);
  }
}
