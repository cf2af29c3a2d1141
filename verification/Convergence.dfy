// The two times get_experiment_stats computes, and what they mean.
module Convergence {
  import opened Prelude
  import opened Trace
  import opened Topology

  datatype Times = Times(last: bool, conn: Option<int>, sync: Option<int>)

  // One turn of the loop: last_state, conn_time and sync_time, given is_connected after it.
  function Advance(t: Times, connected: bool, time: int): Times
  {
    var conn := if !t.last && connected then Some(time) else t.conn;
    if connected then Times(connected, conn, Some(time)) else Times(connected, None, None)
  }

  /* What the turns come to, for any course of connectivity. */

  // up[k]: connected after k events, which happen at the given times.
  function Turns(up: seq<bool>, times: seq<int>): Times
    requires |up| == |times| + 1
  {
    if times == [] then Times(up[0], None, None)
    else Advance(Turns(up[..|up| - 1], times[..|times| - 1]), up[|up| - 1], times[|times| - 1])
  }

  // Event i connected for the last time.
  predicate LastUpBy(up: seq<bool>, i: nat)
  {
    i < |up| - 1 && !up[i] && forall k :: i < k < |up| ==> up[k]
  }

  lemma {:induction false} TurnsMean(up: seq<bool>, times: seq<int>)
    requires |up| == |times| + 1
    ensures var t := Turns(up, times);
            t.last == up[|times|]
            && t.sync == (if t.last && times != [] then Some(times[|times| - 1]) else None)
            && (t.conn.Some? <==> exists i: nat :: LastUpBy(up, i))
            && (forall i: nat :: LastUpBy(up, i) ==> t.conn == Some(times[i]))
  {
    if times == [] {
    } else {
      var n, front := |times|, up[..|up| - 1];
      TurnsMean(front, times[..n - 1]);
      if up[n] && up[n - 1] {
        assert forall i: nat :: LastUpBy(up, i) <==> LastUpBy(front, i);
      } else if up[n] {
        assert LastUpBy(up, n - 1);
        assert forall i: nat :: LastUpBy(up, i) ==> i == n - 1;
      }
    }
  }

  /* Connectivity of the topology. */

  // Whether every two nodes are joined by a chain of links once k events have happened.
  ghost predicate ConnectedAfter(nodes: set<Node>, trace: seq<Event>, k: nat)
    requires k <= |trace|
  {
    AllJoined(nodes, trace[..k])
  }

  ghost function Course(nodes: set<Node>, trace: seq<Event>): (up: seq<bool>)
    ensures |up| == |trace| + 1
  {
    if trace == [] then [AllJoined(nodes, trace)] else Course(nodes, Front(trace)) + [AllJoined(nodes, trace)]
  }

  lemma {:induction false} CourseAt(nodes: set<Node>, trace: seq<Event>, k: nat)
    requires k <= |trace|
    ensures Course(nodes, trace)[k] <==> ConnectedAfter(nodes, trace, k)
  {
    if k == |trace| {
      assert trace[..k] == trace;
    } else {
      CourseAt(nodes, Front(trace), k);
      assert Front(trace)[..k] == trace[..k];
    }
  }

  function TimesIn(trace: seq<Event>): (times: seq<int>)
    ensures |times| == |trace| && forall i :: 0 <= i < |trace| ==> times[i] == trace[i].time
  {
    if trace == [] then [] else TimesIn(Front(trace)) + [Last(trace).time]
  }

  ghost function TimesOf(nodes: set<Node>, trace: seq<Event>): Times
  {
    Turns(Course(nodes, trace), TimesIn(trace))
  }

  lemma TimesOfNext(nodes: set<Node>, trace: seq<Event>)
    requires trace != []
    ensures TimesOf(nodes, trace) == Advance(TimesOf(nodes, Front(trace)), AllJoined(nodes, trace), Last(trace).time)
  {
    var up, times := Course(nodes, trace), TimesIn(trace);
    assert up[..|up| - 1] == Course(nodes, Front(trace)) && times[..|times| - 1] == TimesIn(Front(trace));
  }

  // The event at i made the topology connected for the last time.
  ghost predicate LastConnectedBy(nodes: set<Node>, trace: seq<Event>, i: nat)
  {
    i < |trace| && !ConnectedAfter(nodes, trace, i) && forall k :: i < k <= |trace| ==> ConnectedAfter(nodes, trace, k)
  }

  // Convergence: with a disconnected final topology there are no times. Otherwise sync_time is
  // the time of the last event, and conn_time the time of the event that connected the topology
  // for good; there is none when it was connected all along.
  ghost predicate TimesMean(nodes: set<Node>, trace: seq<Event>, conn: Option<int>, sync: Option<int>)
  {
    && sync == (if AllJoined(nodes, trace) && trace != [] then Some(Last(trace).time) else None)
    && (conn.Some? <==> exists i: nat :: LastConnectedBy(nodes, trace, i))
    && (forall i: nat :: LastConnectedBy(nodes, trace, i) ==> conn == Some(trace[i].time))
  }

  lemma LastConnectedIff(nodes: set<Node>, trace: seq<Event>, i: nat)
    ensures LastConnectedBy(nodes, trace, i) <==> LastUpBy(Course(nodes, trace), i)
  {
    forall k | 0 <= k <= |trace| ensures Course(nodes, trace)[k] <==> ConnectedAfter(nodes, trace, k) {
      CourseAt(nodes, trace, k);
    }
  }

  lemma ConvergenceTimes(nodes: set<Node>, trace: seq<Event>)
    ensures TimesMean(nodes, trace, TimesOf(nodes, trace).conn, TimesOf(nodes, trace).sync)
  {
    TurnsMean(Course(nodes, trace), TimesIn(trace));
    CourseAt(nodes, trace, |trace|);
    assert trace[..|trace|] == trace;
    forall i: nat ensures LastConnectedBy(nodes, trace, i) <==> LastUpBy(Course(nodes, trace), i) {
      LastConnectedIff(nodes, trace, i);
    }
  }

  // main prints the times only when conn_time is true in Python, and a zero time is not.
  predicate Reported(conn: Option<int>)
  {
    conn.Some? && conn.value != 0
  }

  // The report says "connected" for a connected final topology unless it never was
  // disconnected or became connected at time zero.
  lemma ReportedIff(nodes: set<Node>, trace: seq<Event>, conn: Option<int>, sync: Option<int>)
    requires TimesMean(nodes, trace, conn, sync)
    ensures Reported(conn) <==> exists i: nat :: LastConnectedBy(nodes, trace, i) && trace[i].time != 0
  {
    if i: nat :| LastConnectedBy(nodes, trace, i) {
    }
  }
}
