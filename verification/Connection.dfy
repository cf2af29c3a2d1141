// One connection from its hello exchange to its closing: the initiator runs
// OutgoingHelloExchange, the acceptor IncomingHelloExchange, and each end that has set its
// session up has a send queue and a ReadMessage loop. Sends and receives may be split
// anywhere, callers and both epoll threads interleave, and either end may fail at any time.
module Connection {
  import opened Prelude
  import opened Framing
  import opened Hello
  import P = Pipe
  import D = Delivery

  // Lost: the socket was closed; active tells whether the session had been established.
  datatype Initiator = NotifyGoing | AwaitAnswer | Linked | Lost(active: bool)
  // Answering(p), Joined(p): p is the id taken from the notify message.
  datatype Acceptor = AwaitNotify | Answering(peer: PeerId) | Joined(peer: PeerId) | Dropped(was: Option<PeerId>)

  // me, other: the ids of the two nodes. target: the peer the initiator asked for.
  // forward, backward: queue and bytes from and to the initiator.
  datatype Connection = Connection(
    me: PeerId, target: PeerId, other: PeerId,
    forward: D.Link, backward: D.Link,
    initiator: Initiator, acceptor: Acceptor)

  function Notify(c: Connection): Message
  {
    Serialize(MakeHello(c.me, NOTIFY))
  }

  function Answer(c: Connection): Message
  {
    Serialize(MakeHello(c.other, ANSWER))
  }

  lemma HellosSendable(c: Connection)
    ensures Sendable(Notify(c)) && Sendable(Answer(c))
    ensures Deserialize(Notify(c)) == Some(MakeHello(c.me, NOTIFY))
    ensures Deserialize(Answer(c)) == Some(MakeHello(c.other, ANSWER))
  {
    SerializeRoundTripIff(MakeHello(c.me, NOTIFY));
    SerializeRoundTripIff(MakeHello(c.other, ANSWER));
  }

  // A link whose hello message is being sent.
  function Greeting(l: D.Link, hello: Message): D.Link
    requires P.CanStart(l.pipe, hello)
  {
    l.(before := l.before + [hello], pipe := P.Start(l.pipe, hello))
  }

  const IDLE: D.Link := D.Begin(P.EMPTY)

  // The initiator sends its notify message, the acceptor waits for one.
  function Connect(me: PeerId, target: PeerId, other: PeerId): Connection
  {
    var hello := Serialize(MakeHello(me, NOTIFY));
    SerializeRoundTripIff(MakeHello(me, NOTIFY));
    var forward := Greeting(IDLE, hello);
    Connection(me, target, other, forward.(pipe := P.Listen(forward.pipe)), IDLE, NotifyGoing, AwaitNotify)
  }

  datatype Step =
    | Forward(step: D.Step) | Backward(step: D.Step)
    | NotifySent | NotifyReceived | AnswerSent | AnswerReceived
    | LoseInitiator | DropAcceptor

  // Which steps of a lane can be taken: writing and reading go on in the handshake, queueing
  // (sender) and passing on (receiver) need a session.
  predicate LaneOpen(step: D.Step, writing: bool, sender: bool, reading: bool, receiver: bool)
  {
    match step
    case Accept(_) => sender
    case Kick => sender
    case Finish => sender
    case Write(_) => writing
    case Read(_) => reading
    case Arm => reading
    case Take => receiver
  }

  // Before the session is set up the callback of a send is the handshake's own.
  function LaneNext(l: D.Link, step: D.Step, active: bool): D.Link
    requires D.Enabled(l, step)
  {
    if step.Write? && !active then l.(pipe := P.Write(l.pipe, step.n)) else D.Do(l, step)
  }

  // A send that has accepted the last byte of the answer cannot fail any more: its callback
  // goes straight on to set the session up.
  predicate Enabled(c: Connection, s: Step)
  {
    match s
    case Forward(step) =>
      && D.Enabled(c.forward, step)
      && LaneOpen(step, !c.initiator.Lost?, c.initiator.Linked?,
                  c.acceptor.AwaitNotify? || c.acceptor.Joined?, c.acceptor.Joined?)
    case Backward(step) =>
      && D.Enabled(c.backward, step)
      && LaneOpen(step, !c.acceptor.Dropped?, c.acceptor.Joined?,
                  c.initiator.AwaitAnswer? || c.initiator.Linked?, c.initiator.Linked?)
    case NotifySent => c.initiator.NotifyGoing? && c.forward.pipe.out.None?
    case NotifyReceived => c.acceptor.AwaitNotify? && c.forward.pipe.handing != [] && P.CanStart(c.backward.pipe, Answer(c))
    case AnswerSent => c.acceptor.Answering? && c.backward.pipe.out.None?
    case AnswerReceived => c.initiator.AwaitAnswer? && c.backward.pipe.handing != []
    case LoseInitiator => !c.initiator.Lost?
    case DropAcceptor => c.acceptor.AwaitNotify? || c.acceptor.Joined? || (c.acceptor.Answering? && c.backward.pipe.out.Some?)
  }

  function Next(c: Connection, s: Step): Connection
    requires Enabled(c, s)
  {
    match s
    case Forward(step) => c.(forward := LaneNext(c.forward, step, EverLinked(c)))
    case Backward(step) => c.(backward := LaneNext(c.backward, step, EverJoined(c)))
    case NotifySent => c.(initiator := AwaitAnswer, backward := Listening(c.backward))
    case NotifyReceived => DoNotifyReceived(c)
    case AnswerSent => c.(acceptor := Joined(c.acceptor.peer), forward := Listening(c.forward))
    case AnswerReceived => DoAnswerReceived(c)
    case LoseInitiator => c.(initiator := Lost(c.initiator.Linked?))
    case DropAcceptor => c.(acceptor := Dropped(if c.acceptor.Joined? then Some(c.acceptor.peer) else None))
  }

  function Listening(l: D.Link): D.Link
  {
    l.(pipe := P.Listen(l.pipe))
  }

  function Passed(l: D.Link): D.Link
    requires l.pipe.handing != []
  {
    l.(pipe := P.Pass(l.pipe))
  }

  function DoNotifyReceived(c: Connection): Connection
    requires c.forward.pipe.handing != [] && P.CanStart(c.backward.pipe, Answer(c))
  {
    var hello := Deserialize(c.forward.pipe.handing[0]);
    var taken := c.(forward := Passed(c.forward));
    if hello.None? || hello.value.kind != NOTIFY then taken.(acceptor := Dropped(None))
    else taken.(acceptor := Answering(hello.value.id), backward := Greeting(c.backward, Answer(c)))
  }

  function DoAnswerReceived(c: Connection): Connection
    requires c.backward.pipe.handing != []
  {
    var hello := Deserialize(c.backward.pipe.handing[0]);
    var taken := c.(backward := Passed(c.backward));
    if hello.None? || hello.value.id != c.target || hello.value.kind != ANSWER then taken.(initiator := Lost(false))
    else taken.(initiator := Linked, backward := Listening(taken.backward))
  }

  predicate CanRun(c: Connection, steps: seq<Step>)
    decreases |steps|
  {
    steps == [] || (Enabled(c, steps[0]) && CanRun(Next(c, steps[0]), steps[1..]))
  }

  function Run(c: Connection, steps: seq<Step>): Connection
    requires CanRun(c, steps)
    decreases |steps|
  {
    if steps == [] then c else Run(Next(c, steps[0]), steps[1..])
  }

  /* The invariant. */

  predicate EverLinked(c: Connection)
  {
    c.initiator.Linked? || (c.initiator.Lost? && c.initiator.active)
  }

  // The acceptor has read the notify message and began the answer.
  predicate EverAnswered(c: Connection)
  {
    c.backward.before != []
  }

  predicate EverJoined(c: Connection)
  {
    c.acceptor.Joined? || (c.acceptor.Dropped? && c.acceptor.was.Some?)
  }

  function AcceptedPeer(c: Connection): Option<PeerId>
  {
    match c.acceptor
    case AwaitNotify => None
    case Answering(p) => Some(p)
    case Joined(p) => Some(p)
    case Dropped(was) => was
  }

  // Nothing was given to a queue that is not there yet.
  predicate NoQueue(l: D.Link)
  {
    l.accepted == [] && l.queue == [] && l.kicks == 0 && l.finishing == 0
  }

  ghost predicate LaneInv(l: D.Link, active: bool)
  {
    D.Base(l) && if active then D.Inv(l) else NoQueue(l)
  }

  // What the initiator's state says of the two pipes.
  predicate InitiatorShape(c: Connection)
  {
    && (c.initiator.NotifyGoing? ==> P.Readers(c.backward.pipe) == 0)
    && (c.initiator.AwaitAnswer? ==> c.forward.pipe.out.None?)
    && (c.initiator.NotifyGoing? || c.initiator.AwaitAnswer? ==> c.backward.pipe.delivered == [])
    && (c.initiator.Linked? ==> P.Readers(c.backward.pipe) == 1)
    && (EverLinked(c) ==> c.other == c.target && c.backward.pipe.delivered != [])
  }

  predicate AcceptorShape(c: Connection)
  {
    && (c.acceptor.AwaitNotify? ==> !EverAnswered(c) && c.forward.pipe.delivered == [])
    && (c.acceptor.Answering? ==> P.Readers(c.forward.pipe) == 0)
    && (c.acceptor.Joined? ==> P.Readers(c.forward.pipe) == 1)
    && (c.acceptor.Answering? || EverJoined(c) ==> EverAnswered(c))
    && (EverAnswered(c) ==> c.forward.pipe.delivered != [])
    && (c.acceptor == Dropped(None) && EverAnswered(c) ==> c.backward.pipe.out.Some?)
    && (AcceptedPeer(c).Some? ==> AcceptedPeer(c).value == c.me)
  }

  predicate Hellos(c: Connection)
  {
    c.forward.before == [Notify(c)] && (c.backward.before == [] || c.backward.before == [Answer(c)])
  }

  ghost predicate Inv(c: Connection)
  {
    && LaneInv(c.forward, EverLinked(c)) && LaneInv(c.backward, EverJoined(c))
    && Hellos(c) && InitiatorShape(c) && AcceptorShape(c)
  }

  lemma GreetingKeepsLane(l: D.Link, hello: Message)
    requires LaneInv(l, false) && P.CanStart(l.pipe, hello)
    ensures LaneInv(Greeting(l, hello), false)
    ensures P.Readers(Greeting(l, hello).pipe) == P.Readers(l.pipe)
  {
    P.StartKeepsInv(l.pipe, hello);
    assert D.Waiting(l) == [] && l.before + [] == l.before && l.pipe.started + [] == l.pipe.started;
  }

  lemma IdleLane()
    ensures LaneInv(IDLE, false)
  {
    D.BeginInv(P.EMPTY);
  }

  lemma ListeningKeepsLane(l: D.Link, active: bool)
    requires LaneInv(l, active) && P.Readers(l.pipe) == 0
    ensures LaneInv(Listening(l), active) && P.Readers(Listening(l).pipe) == 1
  {
    P.ListenKeepsInv(l.pipe);
  }

  lemma PassedKeepsLane(l: D.Link, active: bool)
    requires LaneInv(l, active) && l.pipe.handing != []
    ensures LaneInv(Passed(l), active) && P.Readers(Passed(l).pipe) == 0
  {
    P.PassKeepsInv(l.pipe);
  }

  // The session is set up: an empty queue, nothing being sent.
  lemma SetUpLane(l: D.Link)
    requires LaneInv(l, false) && l.pipe.out.None?
    ensures LaneInv(l, true)
  {
  }

  // What the other parts of the connection can notice of a lane's step.
  predicate Moved(l: D.Link, k: D.Link, step: D.Step)
  {
    && k.before == l.before && P.Readers(k.pipe) == P.Readers(l.pipe)
    && (if step.Take? then k.pipe.delivered != [] else k.pipe.delivered == l.pipe.delivered)
    && (!step.Kick? && l.pipe.out.None? ==> k.pipe.out.None?)
    && (!step.Write? && l.pipe.out.Some? ==> k.pipe.out.Some?)
  }

  lemma QuietLaneStep(l: D.Link, step: D.Step)
    requires LaneInv(l, false) && D.Enabled(l, step) && !step.Accept? && !step.Kick? && !step.Finish?
    ensures LaneInv(LaneNext(l, step, false), false) && Moved(l, LaneNext(l, step, false), step)
  {
    if step.Write? {
      P.WriteKeepsInv(l.pipe, step.n);
    } else if step.Read? {
      P.ReadKeepsInv(l.pipe, step.n);
    } else if step.Arm? {
      P.ArmKeepsInv(l.pipe);
    } else {
      P.PassKeepsInv(l.pipe);
      P.ListenKeepsInv(P.Pass(l.pipe));
    }
  }

  lemma LaneStep(l: D.Link, step: D.Step, active: bool)
    requires LaneInv(l, active) && D.Enabled(l, step)
    requires !active ==> !step.Accept? && !step.Kick? && !step.Finish?
    ensures LaneInv(LaneNext(l, step, active), active) && Moved(l, LaneNext(l, step, active), step)
  {
    if active {
      D.StepKeepsInv(l, step);
      if step.Kick? {
        D.KickKeepsInv(l);
      }
    } else {
      QuietLaneStep(l, step);
    }
  }

  lemma ForwardShapes(c: Connection, k: D.Link, step: D.Step)
    requires Hellos(c) && InitiatorShape(c) && AcceptorShape(c) && Moved(c.forward, k, step)
    requires step.Kick? ==> c.initiator.Linked?
    requires step.Take? ==> c.acceptor.Joined?
    ensures var u := c.(forward := k); Hellos(u) && InitiatorShape(u) && AcceptorShape(u)
  {
    assert Notify(c.(forward := k)) == Notify(c) && Answer(c.(forward := k)) == Answer(c);
  }

  lemma BackwardShapes(c: Connection, k: D.Link, step: D.Step)
    requires Hellos(c) && InitiatorShape(c) && AcceptorShape(c) && Moved(c.backward, k, step)
    requires step.Write? ==> !c.acceptor.Dropped?
    requires step.Take? ==> c.initiator.Linked?
    ensures var u := c.(backward := k); Hellos(u) && InitiatorShape(u) && AcceptorShape(u)
  {
    assert Notify(c.(backward := k)) == Notify(c) && Answer(c.(backward := k)) == Answer(c);
  }

  lemma ConnectInv(me: PeerId, target: PeerId, other: PeerId)
    ensures Inv(Connect(me, target, other))
  {
    var c := Connect(me, target, other);
    HellosSendable(c);
    IdleLane();
    GreetingKeepsLane(IDLE, Notify(c));
    ListeningKeepsLane(Greeting(IDLE, Notify(c)), false);
  }

  lemma ForwardKeepsInv(c: Connection, step: D.Step)
    requires Inv(c) && Enabled(c, Forward(step))
    ensures Inv(Next(c, Forward(step)))
  {
    LaneStep(c.forward, step, EverLinked(c));
    ForwardShapes(c, LaneNext(c.forward, step, EverLinked(c)), step);
  }

  lemma BackwardKeepsInv(c: Connection, step: D.Step)
    requires Inv(c) && Enabled(c, Backward(step))
    ensures Inv(Next(c, Backward(step)))
  {
    LaneStep(c.backward, step, EverJoined(c));
    BackwardShapes(c, LaneNext(c.backward, step, EverJoined(c)), step);
  }

  // The first message out of a link is the first one put in.
  lemma FirstTaken(l: D.Link, hello: Message)
    requires D.Base(l) && l.before == [hello] && l.pipe.delivered == [] && l.pipe.handing != []
    ensures l.pipe.handing[0] == hello
  {
    assert P.Taken(l.pipe)[0] == l.pipe.handing[0];
    assert l.before[0] == l.pipe.started[0];
  }

  lemma NotifyReceivedKeepsInv(c: Connection)
    requires Inv(c) && Enabled(c, NotifyReceived)
    ensures Inv(DoNotifyReceived(c))
  {
    HellosSendable(c);
    FirstTaken(c.forward, Notify(c));
    NotifyAnswers(c);
  }

  lemma AnsweringShapes(c: Connection, f: D.Link, b: D.Link)
    requires Hellos(c) && InitiatorShape(c) && AcceptorShape(c) && c.acceptor.AwaitNotify?
    requires f.before == c.forward.before && f.pipe.out == c.forward.pipe.out
    requires f.pipe.delivered != [] && P.Readers(f.pipe) == 0
    requires b.before == [Answer(c)] && b.pipe.delivered == c.backward.pipe.delivered
    requires P.Readers(b.pipe) == P.Readers(c.backward.pipe)
    ensures var u := c.(forward := f, acceptor := Answering(c.me), backward := b);
            Hellos(u) && InitiatorShape(u) && AcceptorShape(u)
  {
  }

  lemma NotifyAnswers(c: Connection)
    requires Inv(c) && Enabled(c, NotifyReceived)
    ensures Inv(c.(forward := Passed(c.forward), acceptor := Answering(c.me), backward := Greeting(c.backward, Answer(c))))
  {
    var f, b := Passed(c.forward), Greeting(c.backward, Answer(c));
    PassedKeepsLane(c.forward, EverLinked(c));
    GreetingKeepsLane(c.backward, Answer(c));
    assert b.before == [Answer(c)];
    AnsweringShapes(c, f, b);
  }

  lemma AnswerReceivedKeepsInv(c: Connection)
    requires Inv(c) && Enabled(c, AnswerReceived)
    ensures Inv(DoAnswerReceived(c))
  {
    HellosSendable(c);
    AnswerFirst(c);
    if c.other == c.target {
      AnswerLinks(c);
    } else {
      AnswerRefused(c);
    }
  }

  lemma LinkedShapes(c: Connection, k: D.Link)
    requires Hellos(c) && AcceptorShape(c) && c.other == c.target && k.before == c.backward.before
    requires k.pipe.out == c.backward.pipe.out && k.pipe.delivered != [] && P.Readers(k.pipe) == 1
    ensures var u := c.(backward := k, initiator := Linked); Hellos(u) && InitiatorShape(u) && AcceptorShape(u)
  {
  }

  lemma AnswerLinks(c: Connection)
    requires Inv(c) && Enabled(c, AnswerReceived) && c.other == c.target
    ensures Inv(c.(backward := Listening(Passed(c.backward)), initiator := Linked))
  {
    PassedKeepsLane(c.backward, EverJoined(c));
    ListeningKeepsLane(Passed(c.backward), EverJoined(c));
    SetUpLane(c.forward);
    LinkedShapes(c, Listening(Passed(c.backward)));
  }

  lemma AnswerRefused(c: Connection)
    requires Inv(c) && Enabled(c, AnswerReceived)
    ensures Inv(c.(backward := Passed(c.backward), initiator := Lost(false)))
  {
    PassedKeepsLane(c.backward, EverJoined(c));
  }

  lemma AnswerFirst(c: Connection)
    requires Inv(c) && c.backward.pipe.delivered == [] && c.backward.pipe.handing != []
    ensures c.backward.before == [Answer(c)] && c.backward.pipe.handing[0] == Answer(c)
  {
    assert P.Taken(c.backward.pipe) != [] && c.backward.pipe.started != [];
    StartedMeansAnswered(c);
    FirstTaken(c.backward, Answer(c));
  }

  lemma StartedMeansAnswered(c: Connection)
    requires LaneInv(c.backward, EverJoined(c)) && AcceptorShape(c) && c.backward.pipe.started != []
    ensures EverAnswered(c)
  {
  }

  lemma NotifySentKeepsInv(c: Connection)
    requires Inv(c) && Enabled(c, NotifySent)
    ensures Inv(Next(c, NotifySent))
  {
    ListeningKeepsLane(c.backward, EverJoined(c));
  }

  lemma AnswerSentKeepsInv(c: Connection)
    requires Inv(c) && Enabled(c, AnswerSent)
    ensures Inv(Next(c, AnswerSent))
  {
    ListeningKeepsLane(c.forward, EverLinked(c));
    SetUpLane(c.backward);
  }

  // The end of an end changes nothing but its state, and the lanes stay what they were.
  lemma EndShapes(c: Connection, s: Step)
    requires Hellos(c) && InitiatorShape(c) && AcceptorShape(c)
    requires (s.LoseInitiator? || s.DropAcceptor?) && Enabled(c, s)
    ensures var u := Next(c, s);
            Hellos(u) && InitiatorShape(u) && AcceptorShape(u) && u.forward == c.forward && u.backward == c.backward
            && EverLinked(u) == EverLinked(c) && EverJoined(u) == EverJoined(c)
  {
  }

  lemma EndKeepsInv(c: Connection, s: Step)
    requires Inv(c) && Enabled(c, s) && (s.LoseInitiator? || s.DropAcceptor?)
    ensures Inv(Next(c, s))
  {
    EndShapes(c, s);
  }

  lemma StepKeepsInv(c: Connection, s: Step)
    requires Inv(c) && Enabled(c, s)
    ensures Inv(Next(c, s))
  {
    if s.Forward? {
      ForwardKeepsInv(c, s.step);
    } else if s.Backward? {
      BackwardKeepsInv(c, s.step);
    } else if s.NotifySent? {
      NotifySentKeepsInv(c);
    } else if s.AnswerSent? {
      AnswerSentKeepsInv(c);
    } else if s.NotifyReceived? {
      NotifyReceivedKeepsInv(c);
    } else if s.AnswerReceived? {
      AnswerReceivedKeepsInv(c);
    } else {
      EndKeepsInv(c, s);
    }
  }

  predicate SameNodes(c: Connection, d: Connection)
  {
    c.me == d.me && c.target == d.target && c.other == d.other
  }

  lemma StepKeepsNodes(c: Connection, s: Step)
    requires Enabled(c, s)
    ensures SameNodes(c, Next(c, s))
  {
  }

  lemma {:induction false} RunKeepsInv(c: Connection, steps: seq<Step>)
    requires Inv(c) && CanRun(c, steps)
    ensures Inv(Run(c, steps)) && SameNodes(c, Run(c, steps))
    decreases |steps|
  {
    if steps == [] {
    } else {
      StepKeepsInv(c, steps[0]);
      StepKeepsNodes(c, steps[0]);
      RunKeepsInv(Next(c, steps[0]), steps[1..]);
    }
  }
}
