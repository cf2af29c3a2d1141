// A session's queue and reader on the registries of the two epoll loops: every registration,
// replacement and deregistration its two AsyncFd loops make, among those of all others.
module Wiring {
  import opened Prelude
  import opened Framing
  import P = Pipe
  import D = Delivery
  import R = Registry

  // writing, reading: the tokens of the registered OUTPUT and INPUT actions. refused: some
  // registration found its direction taken.
  datatype Wired = Wired(
    link: D.Link,
    sender: R.Tables, sendFd: R.Fd, writing: R.Token,
    receiver: R.Tables, recvFd: R.Fd, reading: R.Token,
    refused: bool)
  {
    function Out(): R.FdDirection
    {
      R.FdDirection(sendFd, R.OUTPUT)
    }

    function In(): R.FdDirection
    {
      R.FdDirection(recvFd, R.INPUT)
    }
  }

  // Sender, Receiver: calls of other sessions, of timers and of the other direction.
  datatype Step = Link(step: D.Step) | Sender(call: R.Call) | Receiver(call: R.Call)

  // The call neither registers that key, nor goes by a token that names its action, nor
  // deregisters or closes its descriptor; it may do anything with other descriptors.
  predicate Foreign(t: R.Tables, key: R.FdDirection, call: R.Call)
  {
    match call
    case RegisterCall(fd, dir, _, _) => R.FdDirection(fd, dir) != key
    case ReplaceCall(token, _) => token in t.cancelMap ==> t.cancelMap[token] != key
    case DeregisterActionCall(token) => token in t.cancelMap ==> t.cancelMap[token] != key
    case DeregisterFdCall(fd) => fd != key.fd
    case OpenFd(_) => true
    case CloseFd(fd) => fd != key.fd
  }

  predicate Enabled(w: Wired, s: Step)
  {
    match s
    case Link(step) => D.Enabled(w.link, step)
    case Sender(call) => Foreign(w.sender, w.Out(), call)
    case Receiver(call) => Foreign(w.receiver, w.In(), call)
  }

  function Next(w: Wired, s: Step): Wired
    requires Enabled(w, s)
  {
    match s
    case Link(Kick) => Kicked(w)
    case Link(Write(n)) => Wrote(w, n)
    case Link(Read(n)) => DidRead(w, n)
    case Link(Arm) => Armed(w)
    case Link(step) => w.(link := D.Do(w.link, step))
    case Sender(call) => w.(sender := R.Apply(w.sender, call))
    case Receiver(call) => w.(receiver := R.Apply(w.receiver, call))
  }

  // SendMessageFd's AsyncFd::SendMessage registers for OUTPUT.
  function Kicked(w: Wired): Wired
    requires w.link.kicks > 0
  {
    var link := D.DoKick(w.link);
    if w.link.queue == [] || link.aborted then w.(link := link)
    else
      var (tables, ok) := R.Register(w.sender, w.sendFd, R.OUTPUT, None, None);
      w.(link := link, sender := tables, writing := if ok then w.sender.nextToken else w.writing, refused := w.refused || !ok)
  }

  // The callback replaces itself between length and body and deregisters at the end.
  function Wrote(w: Wired, n: nat): Wired
    requires D.Enabled(w.link, D.Write(n))
  {
    var link := D.Do(w.link, D.Write(n));
    var tables :=
      if link.pipe.out.None? then R.DeregisterAction(w.sender, w.writing).0
      else if link.pipe.out.value == HEADER_SIZE then R.Replace(w.sender, w.writing, None).0
      else w.sender;
    w.(link := link, sender := tables)
  }

  function DidRead(w: Wired, n: nat): Wired
    requires D.Enabled(w.link, D.Read(n))
  {
    var link := D.Do(w.link, D.Read(n));
    var tables :=
      if link.pipe.input.None? then R.DeregisterAction(w.receiver, w.reading).0
      else if w.link.pipe.input.value.ReadLength? && link.pipe.input.value.ReadBody? then
        R.Replace(w.receiver, w.reading, None).0
      else w.receiver;
    w.(link := link, receiver := tables)
  }

  // ReadMessage's AsyncFd::RecvMessage registers for INPUT.
  function Armed(w: Wired): Wired
    requires D.Enabled(w.link, D.Arm)
  {
    var (tables, ok) := R.Register(w.receiver, w.recvFd, R.INPUT, None, None);
    w.(link := D.Do(w.link, D.Arm), receiver := tables,
       reading := if ok then w.receiver.nextToken else w.reading, refused := w.refused || !ok)
  }

  predicate CanRun(w: Wired, steps: seq<Step>)
    decreases |steps|
  {
    steps == [] || (Enabled(w, steps[0]) && CanRun(Next(w, steps[0]), steps[1..]))
  }

  function Run(w: Wired, steps: seq<Step>): Wired
    requires CanRun(w, steps)
    decreases |steps|
  {
    if steps == [] then w else Run(Next(w, steps[0]), steps[1..])
  }

  /* One action in one registry. */

  // The direction is registered or not, under that token.
  ghost predicate Bound(t: R.Tables, key: R.FdDirection, registered: bool, token: R.Token)
  {
    && R.TokensCover(t) && R.Agrees(t, key.fd) && key.fd in t.open
    && (key in t.fdToCallback <==> registered)
    && (registered ==> token in t.cancelMap && t.cancelMap[token] == key)
  }

  lemma BoundRegister(t: R.Tables, key: R.FdDirection, token: R.Token)
    requires Bound(t, key, false, token)
    ensures R.Register(t, key.fd, key.dir, None, None).1
    ensures Bound(R.Register(t, key.fd, key.dir, None, None).0, key, true, t.nextToken)
  {
    R.ApplyKeepsTokens(t, R.RegisterCall(key.fd, key.dir, None, None));
    R.RegisterKeepsAgreement(t, key.fd, key.dir, None, None, key.fd);
    R.RegisterSucceedsIff(t, key.fd, key.dir, None, None);
  }

  lemma BoundReplace(t: R.Tables, key: R.FdDirection, token: R.Token)
    requires Bound(t, key, true, token)
    ensures Bound(R.Replace(t, token, None).0, key, true, token)
  {
    R.ApplyKeepsTokens(t, R.ReplaceCall(token, None));
    R.ReplaceKeepsAgreement(t, token, None, key.fd);
  }

  lemma BoundDeregister(t: R.Tables, key: R.FdDirection, token: R.Token)
    requires Bound(t, key, true, token)
    ensures Bound(R.DeregisterAction(t, token).0, key, false, token)
  {
    R.ApplyKeepsTokens(t, R.DeregisterActionCall(token));
    R.DeregisterActionKeepsAgreement(t, token, key.fd);
  }

  lemma BoundForeign(t: R.Tables, key: R.FdDirection, registered: bool, token: R.Token, call: R.Call)
    requires Bound(t, key, registered, token) && Foreign(t, key, call)
    ensures Bound(R.Apply(t, call), key, registered, token)
  {
    R.ApplyKeepsTokens(t, call);
    R.ApplyKeepsAgreementIff(t, call, key.fd);
    if call.DeregisterFdCall? {
      R.DropsOther(t, call.fd, key.fd);
    }
  }

  /* The invariant. */

  ghost predicate Inv(w: Wired)
  {
    && D.Inv(w.link) && P.Readers(w.link.pipe) == 1 && !w.refused
    && Bound(w.sender, w.Out(), w.link.pipe.out.Some?, w.writing)
    && Bound(w.receiver, w.In(), w.link.pipe.input.Some?, w.reading)
  }

  lemma KickedKeepsInv(w: Wired)
    requires Inv(w) && w.link.kicks > 0
    ensures Inv(Kicked(w))
  {
    D.StepKeepsInv(w.link, D.Kick);
    D.KickKeepsInv(w.link);
    BoundRegister(w.sender, w.Out(), w.writing);
  }

  lemma ArmedKeepsInv(w: Wired)
    requires Inv(w) && D.Enabled(w.link, D.Arm)
    ensures Inv(Armed(w))
  {
    D.StepKeepsInv(w.link, D.Arm);
    BoundRegister(w.receiver, w.In(), w.reading);
  }

  lemma WroteKeepsInv(w: Wired, n: nat)
    requires Inv(w) && D.Enabled(w.link, D.Write(n))
    ensures Inv(Wrote(w, n))
  {
    D.StepKeepsInv(w.link, D.Write(n));
    BoundReplace(w.sender, w.Out(), w.writing);
    BoundDeregister(w.sender, w.Out(), w.writing);
  }

  lemma DidReadKeepsInv(w: Wired, n: nat)
    requires Inv(w) && D.Enabled(w.link, D.Read(n))
    ensures Inv(DidRead(w, n))
  {
    D.StepKeepsInv(w.link, D.Read(n));
    BoundReplace(w.receiver, w.In(), w.reading);
    BoundDeregister(w.receiver, w.In(), w.reading);
  }

  lemma LinkKeepsInv(w: Wired, step: D.Step)
    requires Inv(w) && D.Enabled(w.link, step)
    ensures Inv(Next(w, Link(step)))
  {
    if step.Kick? {
      KickedKeepsInv(w);
    } else if step.Write? {
      WroteKeepsInv(w, step.n);
    } else if step.Read? {
      DidReadKeepsInv(w, step.n);
    } else if step.Arm? {
      ArmedKeepsInv(w);
    } else {
      D.StepKeepsInv(w.link, step);
    }
  }

  lemma StepKeepsInv(w: Wired, s: Step)
    requires Inv(w) && Enabled(w, s)
    ensures Inv(Next(w, s))
  {
    if s.Link? {
      LinkKeepsInv(w, s.step);
    } else if s.Sender? {
      BoundForeign(w.sender, w.Out(), w.link.pipe.out.Some?, w.writing, s.call);
    } else {
      BoundForeign(w.receiver, w.In(), w.link.pipe.input.Some?, w.reading, s.call);
    }
  }

  lemma {:induction false} RunKeepsInv(w: Wired, steps: seq<Step>)
    requires Inv(w) && CanRun(w, steps)
    ensures Inv(Run(w, steps))
    decreases |steps|
  {
    if steps == [] {
    } else {
      StepKeepsInv(w, steps[0]);
      RunKeepsInv(Next(w, steps[0]), steps[1..]);
    }
  }

  // From the setting up of a session, whatever is done with other descriptors on the two
  // loops, and while nobody else registers its directions, uses a token of its actions or
  // closes its descriptors: no registration of this session finds its direction taken, OUTPUT
  // is registered while a message is being sent, and INPUT is registered except while one
  // callback is between its Deregister and the registration of the next ReadMessage.
  lemma NeverRefused(pipe: P.Pipe, w: Wired, steps: seq<Step>)
    requires D.Ready(pipe) && w.link == D.Begin(pipe) && !w.refused
    requires Bound(w.sender, w.Out(), false, w.writing) && Bound(w.receiver, w.In(), pipe.input.Some?, w.reading)
    requires CanRun(w, steps)
    ensures var u := Run(w, steps);
            !u.refused
            && (u.Out() in u.sender.fdToCallback <==> u.link.pipe.out.Some?)
            && |u.link.pipe.handing| + u.link.pipe.arming <= 1
            && (u.In() in u.receiver.fdToCallback <==> u.link.pipe.handing == [] && u.link.pipe.arming == 0)
  {
    D.BeginInv(pipe);
    RunKeepsInv(w, steps);
  }
}
