// End-to-end delivery over one session: the send queue of SendMessage/SendMessageFd in front
// of a Pipe, and the ReadMessage loop at its end. Each critical section and each callback run
// is one step; any number of caller threads and the two epoll threads may interleave.
module Delivery {
  import opened Prelude
  import opened Framing
  import P = Pipe

  // before: what the pipe carried before the session was set up (its hello message).
  // queue: sendQueues_[fd]; its front is moved from (left empty) while it is being sent.
  // kicks: threads between pushing (or popping) and SendMessageFd's critical section.
  // finishing: send callbacks between Deregister and their pop_front.
  // fault: an OUTPUT action was already registered, or an empty queue was read or popped.
  // aborted: a message whose size is zero in 32 bits, such as a front moved out before,
  // reached AsyncFd::SendMessage and assert(msg_len > 0) fired.
  datatype Link = Link(
    before: seq<Message>,
    accepted: seq<Message>,
    queue: seq<Message>,
    kicks: nat,
    finishing: nat,
    fault: bool,
    aborted: bool,
    pipe: P.Pipe)

  // The session is set up: sendQueues_ got an empty queue for its descriptor.
  function Begin(pipe: P.Pipe): Link
  {
    Link(pipe.started, [], [], 0, 0, false, false, pipe)
  }

  datatype Step = Accept(m: Message) | Kick | Write(n: nat) | Finish | Read(n: nat) | Take | Arm

  predicate Enabled(l: Link, s: Step)
  {
    !l.aborted &&
    match s
    case Accept(m) => Sendable(m)
    case Kick => l.kicks > 0
    case Write(n) => P.CanWrite(l.pipe, n)
    case Finish => l.finishing > 0
    case Read(n) => P.CanRead(l.pipe, n)
    case Take => l.pipe.handing != []
    case Arm => l.pipe.arming > 0
  }

  function Do(l: Link, s: Step): Link
    requires Enabled(l, s)
  {
    match s
    case Accept(m) => DoAccept(l, m)
    case Kick => DoKick(l)
    case Write(n) =>
      var pipe := P.Write(l.pipe, n);
      l.(pipe := pipe, finishing := l.finishing + if pipe.out.None? then 1 else 0)
    case Finish => DoFinish(l)
    case Read(n) => l.(pipe := P.Read(l.pipe, n))
    case Take => l.(pipe := P.Listen(P.Pass(l.pipe)))
    case Arm => l.(pipe := P.Arm(l.pipe))
  }

  // Take is ReadMessage's callback: OnMessageReceived, then the next ReadMessage.

  // SendMessage under sendQueueMut_: push, and start the writer only when alone.
  function DoAccept(l: Link, m: Message): Link
  {
    l.(accepted := l.accepted + [m], queue := l.queue + [m],
       kicks := if |l.queue| + 1 > 1 then l.kicks else l.kicks + 1)
  }

  // SendMessageFd: move the front out and hand it to AsyncFd::SendMessage. When the
  // direction is taken, RegisterAction fails and the callback runs at once with an error.
  function DoKick(l: Link): Link
    requires l.kicks > 0
  {
    if l.queue == [] then l.(kicks := l.kicks - 1, fault := true)
    else
      var moved := l.(kicks := l.kicks - 1, queue := l.queue[0 := []]);
      if |l.queue[0]| % U32_RANGE == 0 then moved.(aborted := true)
      else if P.CanStart(l.pipe, l.queue[0]) then moved.(pipe := P.Start(l.pipe, l.queue[0]))
      else moved.(finishing := l.finishing + 1, fault := true)
  }

  // The send callback under sendQueueMut_: pop_front, then SendMessageFd while not empty.
  function DoFinish(l: Link): Link
    requires l.finishing > 0
  {
    if l.queue == [] then l.(finishing := l.finishing - 1, fault := true)
    else l.(queue := l.queue[1..], finishing := l.finishing - 1,
            kicks := if |l.queue| > 1 then l.kicks + 1 else l.kicks)
  }

  predicate CanRun(l: Link, steps: seq<Step>)
    decreases |steps|
  {
    steps == [] || (Enabled(l, steps[0]) && CanRun(Do(l, steps[0]), steps[1..]))
  }

  function Run(l: Link, steps: seq<Step>): Link
    requires CanRun(l, steps)
    decreases |steps|
  {
    if steps == [] then l else Run(Do(l, steps[0]), steps[1..])
  }

  /* The invariant. */

  function Writers(l: Link): nat
  {
    l.kicks + l.finishing + if l.pipe.out.Some? then 1 else 0
  }

  // Queued messages whose sending has not begun: without a moved-out front.
  function Waiting(l: Link): seq<Message>
  {
    if l.queue != [] && l.queue[0] == [] then l.queue[1..] else l.queue
  }

  // Every accepted message was started or waits, in order.
  predicate Accounted(l: Link)
  {
    l.before + l.accepted == l.pipe.started + Waiting(l)
  }

  ghost predicate Base(l: Link)
  {
    && !l.fault && !l.aborted
    && P.Inv(l.pipe)
    && AllSendable(l.accepted)
    && l.before <= l.pipe.started
    && Accounted(l)
  }

  ghost predicate Inv(l: Link)
  {
    && Base(l)
    && Writers(l) == (if l.queue == [] then 0 else 1)
    && (l.queue != [] ==> (l.queue[0] == [] <==> l.kicks == 0))
  }

  // A pipe a session can begin with: nothing is being sent, and one ReadMessage is called.
  ghost predicate Ready(pipe: P.Pipe)
  {
    P.Inv(pipe) && pipe.out.None? && P.Readers(pipe) == 1
  }

  lemma BeginInv(pipe: P.Pipe)
    requires P.Inv(pipe) && pipe.out.None?
    ensures Inv(Begin(pipe))
  {
    assert Begin(pipe).before + [] == pipe.started + Waiting(Begin(pipe));
  }

  lemma AcceptKeepsInv(l: Link, m: Message)
    requires Inv(l) && Sendable(m)
    ensures Inv(DoAccept(l, m))
  {
    assert Waiting(DoAccept(l, m)) == Waiting(l) + [m];
    assert l.before + (l.accepted + [m]) == l.before + l.accepted + [m];
    assert l.pipe.started + (Waiting(l) + [m]) == l.pipe.started + Waiting(l) + [m];
  }

  // Waiting messages were accepted.
  lemma WaitingSendable(l: Link)
    requires Accounted(l) && AllSendable(l.accepted) && l.before <= l.pipe.started
    ensures AllSendable(Waiting(l))
  {
    forall i | 0 <= i < |Waiting(l)| ensures Sendable(Waiting(l)[i]) {
      var at := |l.pipe.started| + i;
      assert Waiting(l)[i] == (l.before + l.accepted)[at] == l.accepted[at - |l.before|];
    }
  }

  lemma KickKeepsInv(l: Link)
    requires Inv(l) && l.kicks > 0
    ensures Inv(DoKick(l)) && l.queue != [] && P.CanStart(l.pipe, l.queue[0])
  {
    var m := l.queue[0];
    WaitingSendable(l);
    assert Sendable(Waiting(l)[0]) && m == (l.before + l.accepted)[|l.pipe.started|];
    P.StartKeepsInv(l.pipe, m);
    assert l.queue[0 := []][1..] == l.queue[1..];
    assert l.pipe.started + l.queue == l.pipe.started + [m] + l.queue[1..];
  }

  lemma FinishKeepsInv(l: Link)
    requires Inv(l) && l.finishing > 0
    ensures Inv(DoFinish(l))
  {
    WaitingSendable(l);
    assert |l.queue| > 1 ==> Sendable(Waiting(l)[0]);
    assert Waiting(DoFinish(l)) == Waiting(l);
  }

  lemma StepKeepsInv(l: Link, s: Step)
    requires Inv(l) && Enabled(l, s)
    ensures Inv(Do(l, s)) && P.Readers(Do(l, s).pipe) == P.Readers(l.pipe) && Do(l, s).before == l.before
  {
    match s
    case Accept(m) => AcceptKeepsInv(l, m);
    case Kick => KickKeepsInv(l);
    case Write(n) => P.WriteKeepsInv(l.pipe, n);
    case Finish => FinishKeepsInv(l);
    case Read(n) => P.ReadKeepsInv(l.pipe, n);
    case Take =>
      P.PassKeepsInv(l.pipe);
      P.ListenKeepsInv(P.Pass(l.pipe));
    case Arm => P.ArmKeepsInv(l.pipe);
  }

  lemma {:induction false} RunKeepsInv(l: Link, steps: seq<Step>)
    requires Inv(l) && CanRun(l, steps)
    ensures Inv(Run(l, steps)) && P.Readers(Run(l, steps).pipe) == P.Readers(l.pipe) && Run(l, steps).before == l.before
    decreases |steps|
  {
    if steps == [] {
    } else {
      StepKeepsInv(l, steps[0]);
      RunKeepsInv(Do(l, steps[0]), steps[1..]);
    }
  }

  /* Main results. */

  // In every interleaving, what was handed on, what is on its way and what still waits are
  // together exactly what was carried before and what was accepted since, in order; and the
  // bytes on their way are exactly the frames of the messages on their way.
  lemma DeliveryTheorem(pipe: P.Pipe, steps: seq<Step>)
    requires Ready(pipe) && CanRun(Begin(pipe), steps)
    ensures var l := Run(Begin(pipe), steps);
            P.Inv(l.pipe)
            && pipe.started + l.accepted == P.Taken(l.pipe) + P.InTransit(l.pipe) + Waiting(l)
            && l.pipe.delivered <= pipe.started + l.accepted
            && P.Partial(l.pipe) + l.pipe.channel + P.Unsent(l.pipe) == Frames(P.InTransit(l.pipe))
  {
    BeginInv(pipe);
    RunKeepsInv(Begin(pipe), steps);
    AccountOf(Run(Begin(pipe), steps));
  }

  lemma AccountOf(l: Link)
    requires Base(l)
    ensures l.before + l.accepted == P.Taken(l.pipe) + P.InTransit(l.pipe) + Waiting(l)
    ensures l.pipe.delivered <= l.before + l.accepted
    ensures P.Partial(l.pipe) + l.pipe.channel + P.Unsent(l.pipe) == Frames(P.InTransit(l.pipe))
  {
    P.PendingBytes(l.pipe);
    assert l.pipe.started == P.Taken(l.pipe) + P.InTransit(l.pipe);
  }

  // Single writer: no run ever finds the OUTPUT direction taken, touches an empty queue or
  // hands on a message that was moved out before, and while nobody is about to kick or pop, an
  // OUTPUT action is registered exactly when the queue is not empty.
  lemma SingleWriter(pipe: P.Pipe, steps: seq<Step>)
    requires Ready(pipe) && CanRun(Begin(pipe), steps)
    ensures var l := Run(Begin(pipe), steps);
            !l.fault && !l.aborted && Writers(l) <= 1
            && (l.kicks == 0 && l.finishing == 0 ==> (l.pipe.out.Some? <==> l.queue != []))
  {
    BeginInv(pipe);
    RunKeepsInv(Begin(pipe), steps);
  }

  // Single reader: no run ever finds the INPUT direction taken, and an INPUT action is
  // registered except while one callback is between its Deregister and the registration of
  // the ReadMessage it ends with.
  lemma SingleReader(pipe: P.Pipe, steps: seq<Step>)
    requires Ready(pipe) && CanRun(Begin(pipe), steps)
    ensures var l := Run(Begin(pipe), steps);
            !l.pipe.clash && |l.pipe.handing| + l.pipe.arming <= 1
            && (l.pipe.input.Some? <==> l.pipe.handing == [] && l.pipe.arming == 0)
  {
    BeginInv(pipe);
    RunKeepsInv(Begin(pipe), steps);
  }

  // A link on which nothing but a new SendMessage can happen has delivered everything.
  lemma StuckOnlyWhenDelivered(l: Link)
    requires Inv(l) && P.Readers(l.pipe) == 1
    requires forall s :: Enabled(l, s) ==> s.Accept?
    ensures l.pipe.delivered == l.before + l.accepted && l.queue == []
  {
    assert !Enabled(l, Kick) && !Enabled(l, Finish) && !Enabled(l, Take) && !Enabled(l, Arm);
    assert !Enabled(l, Write(1)) && !Enabled(l, Read(1));
    IdleIsDelivered(l);
  }

  lemma IdleIsDelivered(l: Link)
    requires Inv(l) && P.Readers(l.pipe) == 1 && Writers(l) == 0
    requires l.pipe.handing == [] && l.pipe.arming == 0 && l.pipe.channel == []
    ensures l.pipe.delivered == l.before + l.accepted && l.queue == []
  {
    P.PendingBytes(l.pipe);
    NoPartialIsWhole(P.InTransit(l.pipe), l.pipe.input.value);
    assert P.Taken(l.pipe) == l.pipe.delivered;
  }

  // Work left: every step other than a new SendMessage makes it smaller.
  function Work(l: Link): nat
    requires l.pipe.out.Some? ==> l.pipe.started != [] && l.pipe.out.value <= |Frame(P.Last(l.pipe.started))|
  {
    4 * (2 * |P.Unsent(l.pipe)| + 2 * |Frames(Waiting(l))| + |l.pipe.channel|)
    + 2 * l.finishing + l.kicks + 2 * |l.pipe.handing| + l.pipe.arming
  }

  lemma StepDoesWork(l: Link, s: Step)
    requires Inv(l) && Enabled(l, s) && !s.Accept?
    ensures Inv(Do(l, s)) && Work(Do(l, s)) < Work(l)
  {
    StepKeepsInv(l, s);
    var k := Do(l, s);
    match s
    case Accept(m) =>
    case Kick =>
      FramesHead(l.queue);
      assert Waiting(k) == l.queue[1..];
    case Write(n) =>
    case Finish => assert Waiting(k) == Waiting(l);
    case Read(n) =>
    case Take =>
    case Arm =>
  }

  // From any link that satisfies the invariant, a run without new messages is at most Work
  // long, and one that cannot be continued has delivered every accepted message.
  lemma {:induction false} Drains(l: Link, steps: seq<Step>)
    requires Inv(l) && P.Readers(l.pipe) == 1
    requires CanRun(l, steps) && forall i :: 0 <= i < |steps| ==> !steps[i].Accept?
    ensures |steps| <= Work(l)
    ensures var k := Run(l, steps);
            k.accepted == l.accepted
            && ((forall s :: Enabled(k, s) ==> s.Accept?) ==> k.pipe.delivered == l.before + l.accepted)
    decreases |steps|
  {
    if steps == [] {
      if forall s :: Enabled(l, s) ==> s.Accept? {
        StuckOnlyWhenDelivered(l);
      }
    } else {
      StepKeepsInv(l, steps[0]);
      StepDoesWork(l, steps[0]);
      Drains(Do(l, steps[0]), steps[1..]);
    }
  }

  /* Beginning late: the descriptor was used before. */

  // The session is set up while that many SendMessageFds and send callbacks of the last session
  // on its descriptor still have a section to run.
  function BeginLate(pipe: P.Pipe, kicks: nat, finishing: nat): Link
  {
    Begin(pipe).(kicks := kicks, finishing := finishing)
  }

  // Every message accepted is started or waits, whatever is run.
  ghost predicate NeverLoses(l: Link)
  {
    forall steps :: CanRun(l, steps) ==> Accounted(Run(l, steps))
  }

  // Some run ends with assert(msg_len > 0).
  ghost predicate CanAbort(l: Link)
  {
    exists steps :: CanRun(l, steps) && Run(l, steps).aborted
  }

  lemma RunOne(l: Link, s: Step, rest: seq<Step>)
    requires Enabled(l, s) && CanRun(Do(l, s), rest)
    ensures CanRun(l, [s] + rest) && Run(l, [s] + rest) == Run(Do(l, s), rest)
  {
    assert ([s] + rest)[1..] == rest;
  }

  // A front is moved out exactly while its message is being sent or its callback is about to
  // pop it; SendMessageFds may be too many.
  ghost predicate LateInv(l: Link)
  {
    && P.Inv(l.pipe) && AllSendable(l.accepted) && l.before <= l.pipe.started && Accounted(l)
    && l.finishing + (if l.pipe.out.Some? then 1 else 0) == (if l.queue != [] && l.queue[0] == [] then 1 else 0)
  }

  lemma LateStartKeepsInv(l: Link)
    requires LateInv(l) && l.kicks > 0 && l.queue != [] && l.queue[0] != []
    ensures LateInv(DoKick(l))
  {
    var m := l.queue[0];
    WaitingSendable(l);
    assert Sendable(Waiting(l)[0]) && m == (l.before + l.accepted)[|l.pipe.started|];
    P.StartKeepsInv(l.pipe, m);
    assert l.pipe.started + l.queue == l.pipe.started + [m] + l.queue[1..];
    assert Waiting(DoKick(l)) == l.queue[1..];
  }

  lemma LateKickKeepsInv(l: Link)
    requires LateInv(l) && l.kicks > 0
    ensures LateInv(DoKick(l))
  {
    if l.queue != [] && l.queue[0] != [] {
      LateStartKeepsInv(l);
    } else if l.queue != [] {
      assert l.queue[0 := []] == l.queue;
    }
  }

  lemma LateAcceptKeepsInv(l: Link, m: Message)
    requires LateInv(l) && Sendable(m)
    ensures LateInv(DoAccept(l, m))
  {
    assert Waiting(DoAccept(l, m)) == Waiting(l) + [m];
    assert l.before + (l.accepted + [m]) == l.before + l.accepted + [m];
    assert l.pipe.started + (Waiting(l) + [m]) == l.pipe.started + Waiting(l) + [m];
  }

  lemma LateFinishKeepsInv(l: Link)
    requires LateInv(l) && l.finishing > 0
    ensures LateInv(DoFinish(l))
  {
    WaitingSendable(l);
    assert |l.queue| > 1 ==> Sendable(Waiting(l)[0]);
    assert Waiting(DoFinish(l)) == Waiting(l);
  }

  lemma StepKeepsLateInv(l: Link, s: Step)
    requires LateInv(l) && Enabled(l, s)
    ensures LateInv(Do(l, s))
  {
    match s
    case Accept(m) => LateAcceptKeepsInv(l, m);
    case Kick => LateKickKeepsInv(l);
    case Write(n) => P.WriteKeepsInv(l.pipe, n);
    case Finish => LateFinishKeepsInv(l);
    case Read(n) => P.ReadKeepsInv(l.pipe, n);
    case Take =>
      P.PassKeepsInv(l.pipe);
      P.ListenKeepsInv(P.Pass(l.pipe));
    case Arm => P.ArmKeepsInv(l.pipe);
  }

  lemma {:induction false} RunKeepsLateInv(l: Link, steps: seq<Step>)
    requires LateInv(l) && CanRun(l, steps)
    ensures LateInv(Run(l, steps))
    decreases |steps|
  {
    if steps == [] {
    } else {
      StepKeepsLateInv(l, steps[0]);
      RunKeepsLateInv(Do(l, steps[0]), steps[1..]);
    }
  }

  // A send callback left over pops the first message before it is sent.
  lemma LateFinishLoses(l: Link, m: Message)
    requires !l.aborted && l.queue == [] && l.finishing > 0 && Sendable(m) && l.before + l.accepted == l.pipe.started
    ensures CanRun(l, [Accept(m), Finish]) && !Accounted(Run(l, [Accept(m), Finish]))
  {
    var l1 := DoAccept(l, m);
    RunOne(l1, Finish, []);
    RunOne(l, Accept(m), [Finish]);
    assert |Run(l, [Accept(m), Finish]).accepted| == |l.accepted| + 1;
  }

  // A SendMessageFd left over hands on the front again that is being sent already.
  lemma LateKickAborts(l: Link, m: Message)
    requires !l.aborted && l.queue == [] && l.kicks > 0 && l.pipe.out.None? && Sendable(m)
    ensures CanRun(l, [Accept(m), Kick, Kick]) && Run(l, [Accept(m), Kick, Kick]).aborted
  {
    var l1 := DoAccept(l, m);
    KickTwiceAborts(l1);
    RunOne(l, Accept(m), [Kick, Kick]);
  }

  lemma KickTwiceAborts(l: Link)
    requires !l.aborted && l.queue != [] && l.kicks > 1 && P.CanStart(l.pipe, l.queue[0])
    ensures CanRun(l, [Kick, Kick]) && Run(l, [Kick, Kick]).aborted
  {
    RunOne(DoKick(l), Kick, []);
    RunOne(l, Kick, [Kick]);
  }

  // A send callback left over pops the first message of two and so calls one SendMessageFd
  // beside that of the first one.
  lemma LateFinishAborts(l: Link, m: Message)
    requires !l.aborted && l.queue == [] && l.finishing > 0 && l.pipe.out.None? && Sendable(m)
    ensures CanRun(l, [Accept(m), Accept(m), Finish, Kick, Kick])
    ensures Run(l, [Accept(m), Accept(m), Finish, Kick, Kick]).aborted
  {
    var l1 := DoAccept(l, m);
    var l2 := DoAccept(l1, m);
    KickTwiceAborts(DoFinish(l2));
    RunOne(l2, Finish, [Kick, Kick]);
    RunOne(l1, Accept(m), [Finish, Kick, Kick]);
    RunOne(l, Accept(m), [Accept(m), Finish, Kick, Kick]);
  }

  // From the setting up of a session with an empty queue: in every run each accepted message is
  // started or waits, in order, if and only if no send callback of the last session on the
  // descriptor is still under way. SendMessageFds still under way lose nothing.
  lemma NoneLostIff(pipe: P.Pipe, kicks: nat, finishing: nat)
    requires Ready(pipe)
    ensures NeverLoses(BeginLate(pipe, kicks, finishing)) <==> finishing == 0
  {
    var l := BeginLate(pipe, kicks, finishing);
    if finishing > 0 {
      LateFinishLoses(l, [0]);
    } else {
      forall steps | CanRun(l, steps) ensures Accounted(Run(l, steps)) {
        RunKeepsLateInv(l, steps);
      }
    }
  }

  // From there, some run ends with assert(msg_len > 0) if and only if a SendMessageFd or a send
  // callback of the last session is still under way.
  lemma AbortsIff(pipe: P.Pipe, kicks: nat, finishing: nat)
    requires Ready(pipe)
    ensures CanAbort(BeginLate(pipe, kicks, finishing)) <==> kicks > 0 || finishing > 0
  {
    var l := BeginLate(pipe, kicks, finishing);
    if kicks > 0 {
      LateKickAborts(l, [0]);
    } else if finishing > 0 {
      LateFinishAborts(l, [0]);
    } else {
      forall steps | CanRun(l, steps) ensures !Run(l, steps).aborted {
        BeginInv(pipe);
        RunKeepsInv(l, steps);
      }
    }
  }

  // A session whose queue was not empty at its beginning never sends: the first SendMessage
  // finds another message before its own and leaves the sending to nobody.
  lemma {:induction false} LeftoverBlocks(l: Link, steps: seq<Step>)
    requires l.queue != [] && Writers(l) == 0 && CanRun(l, steps)
    ensures Run(l, steps).pipe.started == l.pipe.started && l.queue <= Run(l, steps).queue
    decreases |steps|
  {
    if steps == [] {
    } else {
      var k := Do(l, steps[0]);
      assert l.queue <= k.queue && Writers(k) == 0;
      LeftoverBlocks(k, steps[1..]);
    }
  }
}
