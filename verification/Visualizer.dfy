// The visualizer's state and its replay loop.
module Visualizer {
  import opened Trace
  import opened Picture
  import opened Sorting

  const BY_EVENT_TIME: Emitted -> int := (e: Emitted) => e.time

  class Visualizer {
    var events: seq<Emitted>

    constructor ()
      ensures events == []
    {
      events := [];
    }

    // parseInput, given the events of the file in order.
    method ParseInput(parsed: seq<Emitted>)
      modifies this
      ensures events == StableSort(parsed, BY_EVENT_TIME)
      ensures Sorted(events, BY_EVENT_TIME) && multiset(events) == multiset(parsed)
      ensures Sorted(parsed, BY_EVENT_TIME) ==> events == parsed
    {
      events := [];
      for i := 0 to |parsed|
        invariant events == parsed[..i]
      {
        events := events + [parsed[i]];
      }
      assert parsed[..|parsed|] == parsed;
      SortSorts(parsed, BY_EVENT_TIME);
      if Sorted(parsed, BY_EVENT_TIME) {
        SortOfSorted(parsed, BY_EVENT_TIME);
      }
      events := StableSort(events, BY_EVENT_TIME);
    }

    // updateTopology up to the drawing.
    method UpdateTopology(time: int) returns (activeEdges: map<Edge, Edge>, discoveryEvents: seq<Edge>)
      ensures Picture(activeEdges, discoveryEvents) == DrawAll(UpTo(events, time))
    {
      activeEdges, discoveryEvents := map[], [];
      var i := 0;
      while i < |events| && events[i].time <= time
        invariant 0 <= i <= |events|
        invariant forall k :: 0 <= k < i ==> events[k].time <= time
        invariant Picture(activeEdges, discoveryEvents) == DrawAll(events[..i])
      {
        var event := events[i];
        assert events[..i + 1] == events[..i] + [event];
        DrawSnoc(events[..i], event);
        match event.action {
          case LinkUp => activeEdges := activeEdges[Edge(event.from, event.to) := Edge(event.from, event.to)];
          case LinkDown => activeEdges := activeEdges - {Edge(event.from, event.to)};
          case Meet => discoveryEvents := discoveryEvents + [Edge(event.from, event.to)];
          case Part => discoveryEvents := RemoveDiscovery(discoveryEvents, event.from, event.to);
        }
        i := i + 1;
      }
      assert events == events[..i] + events[i..];
      UpToSplit(events[..i], events[i..], time);
    }

    method RemoveDiscovery(entries: seq<Edge>, from: Node, to: Node) returns (left: seq<Edge>)
      ensures left == Splice(entries, from, to)
    {
      var index := 0;
      while index < |entries| && !Matches(entries[index], from, to)
        invariant 0 <= index <= |entries|
        invariant forall k :: 0 <= k < index ==> !Matches(entries[k], from, to)
      {
        index := index + 1;
      }
      SpliceAt(entries, index, from, to);
      left := if index < |entries| then entries[..index] + entries[index + 1..] else entries;
    }
  }

  lemma {:induction false} SpliceAt(entries: seq<Edge>, index: nat, from: Node, to: Node)
    requires index <= |entries| && (forall k :: 0 <= k < index ==> !Matches(entries[k], from, to))
    requires index < |entries| ==> Matches(entries[index], from, to)
    ensures Splice(entries, from, to)
            == if index < |entries| then entries[..index] + entries[index + 1..] else entries
  {
    if index > 0 {
      var rest := entries[1..];
      forall k | 0 <= k < index - 1 ensures !Matches(rest[k], from, to) {
        assert rest[k] == entries[k + 1];
      }
      SpliceAt(rest, index - 1, from, to);
      WithHead(entries, index);
    }
  }

  // Taking out an element after the first leaves the first.
  lemma WithHead(entries: seq<Edge>, index: nat)
    requires 0 < index <= |entries|
    ensures index < |entries| ==>
      [entries[0]] + (entries[1..][..index - 1] + entries[1..][index..]) == entries[..index] + entries[index + 1..]
    ensures [entries[0]] + entries[1..] == entries
  {
  }
}
