// What the hello exchange and the send queues of a connection guarantee, and the checks of the
// two hello callbacks.
module Handshake {
  import opened Prelude
  import opened Framing
  import opened Hello
  import opened Connection
  import P = Pipe
  import D = Delivery

  /* Main results. */

  // When the initiator has linked to its target, the other end is that target; it received
  // this initiator's notify message, all of its answer is out, and it has joined (or is in
  // the callback that joins, or joined and was dropped since) with the initiator's id.
  lemma {:induction false} HandshakeAgreement(me: PeerId, target: PeerId, other: PeerId, steps: seq<Step>)
    requires CanRun(Connect(me, target, other), steps)
    ensures var c := Run(Connect(me, target, other), steps);
            EverLinked(c) ==>
              other == target
              && c.forward.pipe.delivered != [] && c.forward.pipe.delivered[0] == Serialize(MakeHello(me, NOTIFY))
              && c.backward.pipe.started != [] && c.backward.pipe.started[0] == Serialize(MakeHello(target, ANSWER))
              && ((c.acceptor == Answering(me) && c.backward.pipe.out.None?)
                  || c.acceptor == Joined(me) || c.acceptor == Dropped(Some(me)))
  {
    var start := Connect(me, target, other);
    ConnectInv(me, target, other);
    RunKeepsInv(start, steps);
    var c := Run(start, steps);
    if EverLinked(c) {
      LinkedMeansAnswered(c);
    }
  }

  lemma LinkedMeansAnswered(c: Connection)
    requires Inv(c) && EverLinked(c)
    ensures c.backward.before == [Answer(c)] && c.backward.pipe.started != [] && c.backward.pipe.started[0] == Answer(c)
    ensures c.forward.pipe.delivered != [] && c.forward.pipe.delivered[0] == Notify(c)
    ensures !EverJoined(c) ==> c.backward.pipe.out.None?
  {
  }

  // Messages OnMessageReceived got at the other end.
  function Got(l: D.Link): seq<Message>
  {
    if |l.pipe.delivered| <= |l.before| then [] else l.pipe.delivered[|l.before|..]
  }

  // Over one connection, from SendMessage at one node to OnMessageReceived at the other: each
  // direction carries one hello message and then the accepted messages; what was delivered,
  // what is in transit and what waits in the queue are together exactly these, in order, and
  // the other application was handed a prefix of what this one's SendMessage accepted. No
  // send or read ever finds its direction taken. The acceptor takes its peer for nobody else.
  lemma {:induction false} HelloThenApplication(me: PeerId, target: PeerId, other: PeerId, steps: seq<Step>)
    requires CanRun(Connect(me, target, other), steps)
    ensures var c := Run(Connect(me, target, other), steps);
            c.forward.before == [Serialize(MakeHello(me, NOTIFY))]
            && (c.backward.before == [] || c.backward.before == [Serialize(MakeHello(other, ANSWER))])
            && Conserved(c.forward) && Conserved(c.backward)
            && (c.forward.accepted != [] ==> EverLinked(c)) && (c.backward.accepted != [] ==> EverJoined(c))
            && (AcceptedPeer(c).Some? ==> AcceptedPeer(c).value == me)
  {
    var start := Connect(me, target, other);
    ConnectInv(me, target, other);
    RunKeepsInv(start, steps);
    LaneConserved(Run(start, steps).forward);
    LaneConserved(Run(start, steps).backward);
  }

  predicate Conserved(l: D.Link)
  {
    && !l.fault && !l.aborted && !l.pipe.clash
    && P.Taken(l.pipe) <= l.pipe.started
    && l.before + l.accepted == P.Taken(l.pipe) + P.InTransit(l.pipe) + D.Waiting(l)
    && Got(l) <= l.accepted
  }

  lemma LaneConserved(l: D.Link)
    requires D.Base(l)
    ensures Conserved(l)
  {
    assert l.pipe.started == P.Taken(l.pipe) + P.InTransit(l.pipe);
    assert l.pipe.delivered <= l.before + l.accepted;
    if |l.pipe.delivered| > |l.before| {
      assert Got(l) == (l.before + l.accepted)[..|l.pipe.delivered|][|l.before|..];
    }
  }

  /* The checks the two callbacks make. */

  // Only a hello of this kind from this node reads back as one.
  lemma HelloReadsAs(message: Message, id: PeerId, kind: byte)
    ensures message == Serialize(MakeHello(id, kind))
            <==> Deserialize(message).Some? && Deserialize(message).value.id == id && Deserialize(message).value.kind == kind
  {
    if message == Serialize(MakeHello(id, kind)) {
      SerializeRoundTripIff(MakeHello(id, kind));
    } else if Deserialize(message).Some? {
      DeserializedIsSerialized(message);
    }
  }

  // IncomingHelloExchange, given a message: the peer to answer, if any. located: getpeername
  // knows the address of the other end.
  method ReadNotify(message: Message, located: bool) returns (peer: Option<PeerId>)
    ensures forall id: PeerId :: peer == Some(id) <==> located && message == Serialize(MakeHello(id, NOTIFY))
    ensures located ==>
      forall c: Connection :: c.forward.pipe.handing == [message] && P.CanStart(c.backward.pipe, Answer(c)) ==>
        DoNotifyReceived(c).acceptor == if peer.Some? then Answering(peer.value) else Dropped(None)
  {
    forall id: PeerId {
      HelloReadsAs(message, id, NOTIFY);
    }
    var hello := Deserialize(message);
    if hello.None? {
      return None;
    }
    if hello.value.kind != NOTIFY {
      return None;
    }
    if !located {
      return None;
    }
    return Some(hello.value.id);
  }

  // OutgoingHelloExchange, given a message: whether the session is set up.
  method ReadAnswer(message: Message, target: PeerId) returns (linked: bool)
    ensures linked <==> message == Serialize(MakeHello(target, ANSWER))
    ensures forall c: Connection :: c.backward.pipe.handing == [message] && c.target == target ==>
      DoAnswerReceived(c).initiator == if linked then Linked else Lost(false)
  {
    HelloReadsAs(message, target, ANSWER);
    var hello := Deserialize(message);
    if hello.None? {
      return false;
    }
    if hello.value.id != target || hello.value.kind != ANSWER {
      return false;
    }
    return true;
  }
}
