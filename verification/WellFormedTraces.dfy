// The traces nodes leave when they report changes only: what makes one well-formed, and that
// it can be judged node by node.
module WellFormedTraces {
  import opened Trace
  import opened Sorting
  import opened Picture

  // The node opens only what is closed, closes only what is open, finds only who is lost,
  // loses only who is found, and does not deal with itself.
  predicate Proper(before: seq<Event>, e: Event)
  {
    e.a != e.b &&
    match e.kind
    case Saw => !Sees(before, e.a, e.b)
    case LostSight => Sees(before, e.a, e.b)
    case Open(dir) => !IsOpen(before, e.a, dir, e.b)
    case Close(dir) => IsOpen(before, e.a, dir, e.b)
  }

  predicate WellFormed(trace: seq<Event>)
  {
    trace == [] || (WellFormed(Front(trace)) && Proper(Front(trace), Last(trace)))
  }

  lemma {:induction false} WellFormedSuffices(trace: seq<Event>)
    requires WellFormed(trace)
    ensures WellFounded(trace) && !ReopensSomewhere(trace) && !DisturbedSomewhere(trace)
  {
    if trace == [] {
    } else {
      WellFormedSuffices(Front(trace));
    }
  }

  lemma {:induction false} WellFormedPrefix(trace: seq<Event>, k: nat)
    requires WellFormed(trace) && k <= |trace|
    ensures WellFormed(trace[..k])
  {
    if k == |trace| {
      assert trace[..k] == trace;
    } else {
      assert Front(trace)[..k] == trace[..k];
      WellFormedPrefix(Front(trace), k);
    }
  }

  /* A trace is well-formed when its restriction to each node is. */

  function By(node: Node): Event -> bool
  {
    (e: Event) => e.a == node
  }

  lemma {:induction false} ReportsOfNode(trace: seq<Event>, a: Node, dir: LinkDirection, b: Node)
    ensures IsOpen(Filter(trace, By(a)), a, dir, b) <==> IsOpen(trace, a, dir, b)
    ensures Sees(Filter(trace, By(a)), a, b) <==> Sees(trace, a, b)
  {
    if trace == [] {
    } else {
      ReportsOfNode(Front(trace), a, dir, b);
      if Last(trace).a == a {
        assert Front(Filter(trace, By(a))) == Filter(Front(trace), By(a));
      }
    }
  }

  lemma ProperByNode(before: seq<Event>, e: Event)
    ensures Proper(before, e) <==> Proper(Filter(before, By(e.a)), e)
  {
  }

  lemma {:induction false} WellFormedByNode(trace: seq<Event>)
    requires forall node :: WellFormed(Filter(trace, By(node)))
    ensures WellFormed(trace)
  {
    if trace == [] {
    } else {
      var front, e := Front(trace), Last(trace);
      forall node ensures WellFormed(Filter(front, By(node))) {
        assert WellFormed(Filter(trace, By(node)));
        if node == e.a {
          assert Front(Filter(trace, By(node))) == Filter(front, By(node));
        }
      }
      WellFormedByNode(front);
      var own := Filter(trace, By(e.a));
      assert WellFormed(own);
      assert own == Filter(front, By(e.a)) + [e];
      assert Front(own) == Filter(front, By(e.a)) && Last(own) == e;
      ProperByNode(front, e);
    }
  }
}
