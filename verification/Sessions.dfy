// The three maps of ConnectionManager. Activating and closing a session each touch them in
// separate critical sections, so the sections of different operations interleave.
module Sessions {
  import opened Prelude
  import opened Framing

  type Fd = int
  type PeerId = nat
  type SessionId = nat
  type Ticket = nat

  datatype LinkDirection = INCOMING | OUTGOING
  datatype Conn = Conn(peer: PeerId, dir: LinkDirection)

  // OnLinkEstablishing and OnLinkClosed; session tells which activation the note is about.
  datatype Note = Opened(session: SessionId, conn: Conn) | Closed(session: SessionId, conn: Conn)

  // session, begun: the number of the last activation on each descriptor and the number of
  // activations, which only the notes use.
  datatype Maps = Maps(
    activeConns: map<Fd, Conn>,
    connToFd: map<Conn, Fd>,
    sendQueues: map<Fd, seq<Message>>,
    session: map<Fd, SessionId>,
    begun: nat,
    notes: seq<Note>)

  const NO_SESSIONS := Maps(map[], map[], map[], map[], 0, [])

  /* Critical sections. std::map::insert keeps an existing entry. */

  function AddActive(m: Maps, fd: Fd, c: Conn): Maps
  {
    m.(activeConns := if fd in m.activeConns then m.activeConns else m.activeConns[fd := c],
       session := m.session[fd := m.begun], begun := m.begun + 1)
  }

  function AddConn(m: Maps, fd: Fd, c: Conn): Maps
  {
    if c in m.connToFd then m else m.(connToFd := m.connToFd[c := fd])
  }

  function AddQueue(m: Maps, fd: Fd): Maps
  {
    if fd in m.sendQueues then m else m.(sendQueues := m.sendQueues[fd := []])
  }

  function DropActive(m: Maps, fd: Fd): Maps
  {
    m.(activeConns := m.activeConns - {fd})
  }

  function DropConn(m: Maps, c: Conn): Maps
  {
    m.(connToFd := m.connToFd - {c})
  }

  function DropQueue(m: Maps, fd: Fd): Maps
  {
    m.(sendQueues := m.sendQueues - {fd})
  }

  // SendMessage's section on the queues: without a queue the message is dropped.
  function Pushed(m: Maps, fd: Fd, message: Message): Maps
  {
    if fd in m.sendQueues then m.(sendQueues := m.sendQueues[fd := m.sendQueues[fd] + [message]]) else m
  }

  // The send callback's section on the queues.
  function Popped(m: Maps, fd: Fd): Maps
    requires fd in m.sendQueues && m.sendQueues[fd] != []
  {
    m.(sendQueues := m.sendQueues[fd := m.sendQueues[fd][1..]])
  }

  function Tell(m: Maps, n: Note): Maps
  {
    m.(notes := m.notes + [n])
  }

  function SessionOf(m: Maps, fd: Fd): SessionId
  {
    if fd in m.session then m.session[fd] else 0
  }

  // The descriptor SendMessage picks: the outgoing session first.
  function Route(m: Maps, peer: PeerId): Option<Fd>
  {
    if Conn(peer, OUTGOING) in m.connToFd then Some(m.connToFd[Conn(peer, OUTGOING)])
    else if Conn(peer, INCOMING) in m.connToFd then Some(m.connToFd[Conn(peer, INCOMING)])
    else None
  }

  /* Interleavings, by descriptor. */

  // Sections an activation has completed: activeConns, connToFd, sendQueues, notification.
  datatype OpenPhase = HasActive | HasConn | HasQueue | Announced
  // Sections the CloseFD that found the session has completed.
  datatype ClosePhase = LostActive | LostConn | LostQueue | Told

  // conn, opening, closing: the last session on each descriptor. leaked: descriptors with a
  // queue that was added after the CloseFD of its session had dropped queues. senders,
  // closers: the descriptor each SendMessage, or each CloseConn and read callback, has found and
  // goes on with after releasing the mutex, by the number of the lookup.
  datatype System = System(
    maps: Maps,
    conn: map<Fd, Conn>,
    opening: map<Fd, OpenPhase>,
    closing: map<Fd, ClosePhase>,
    leaked: set<Fd>,
    senders: map<Ticket, Fd>,
    closers: map<Ticket, Fd>,
    asked: Ticket)

  const START := System(NO_SESSIONS, map[], map[], map[], {}, map[], map[], 0)

  datatype Step =
    | ActivateSection(fd: Fd, conn: Conn)   // activeConns.insert by the handshake callback
    | OpenSection(fd: Fd)                   // the activation's next section
    | LookUp(peer: PeerId)                  // SendMessage's section on connToFd
    | Push(ticket: Ticket, message: Message)  // its section on the queues
    | Pop(fd: Fd)                           // the send callback's section on the queues
    | LookUpConn(conn: Conn)                // CloseConn's section on connToFd
    | ReadFails(fd: Fd)                     // the read callback's section on activeConns, on an error
    | CloseFound(ticket: Ticket)            // CloseFD's section on activeConns, after one of these two
    | FinishSection(fd: Fd)                 // that CloseFD's next section

  // The activation on fd and the CloseFD that found its session have both finished.
  predicate Done(s: System, fd: Fd)
  {
    fd in s.opening && s.opening[fd] == Announced && fd in s.closing && s.closing[fd] == Told
  }

  // An activation runs in a callback, and the epoll thread runs one at a time.
  predicate NoneOpening(s: System)
  {
    forall fd :: fd in s.opening ==> s.opening[fd] == Announced
  }

  // The activation has called ReadMessage: as its last act, or before the notification when the
  // session is outgoing. Its callback runs on the epoll thread, at once when the registration
  // fails.
  predicate ReaderRuns(s: System, fd: Fd)
  {
    && fd in s.maps.activeConns && fd in s.opening
    && (s.opening[fd] == Announced || (s.opening[fd] == HasQueue && s.maps.activeConns[fd].dir == OUTGOING))
    && forall g :: g in s.opening && g != fd ==> s.opening[g] == Announced
  }

  // A descriptor number is used again once the last session on it is done with.
  predicate Enabled(s: System, step: Step)
  {
    match step
    case ActivateSection(fd, c) => NoneOpening(s) && (fd !in s.conn || Done(s, fd))
    case OpenSection(fd) => fd in s.opening && s.opening[fd] != Announced
    case LookUp(peer) => true
    case Push(ticket, m) => ticket in s.senders
    case Pop(fd) => fd in s.maps.sendQueues && s.maps.sendQueues[fd] != []
    case LookUpConn(c) => true
    case ReadFails(fd) => ReaderRuns(s, fd)
    case CloseFound(ticket) => ticket in s.closers
    case FinishSection(fd) => fd in s.closing && fd in s.conn && s.closing[fd] != Told
  }

  function Next(s: System, step: Step): System
    requires Enabled(s, step)
  {
    match step
    case ActivateSection(fd, c) => ActivateNext(s, fd, c)
    case OpenSection(fd) => if fd in s.conn then OpenNext(s, fd) else s
    case LookUp(peer) =>
      var fd := Route(s.maps, peer);
      if fd.Some? then s.(senders := s.senders[s.asked := fd.value], asked := s.asked + 1) else s
    case Push(ticket, m) => s.(maps := Pushed(s.maps, s.senders[ticket], m), senders := s.senders - {ticket})
    case Pop(fd) => s.(maps := Popped(s.maps, fd))
    case LookUpConn(c) =>
      if c in s.maps.connToFd then s.(closers := s.closers[s.asked := s.maps.connToFd[c]], asked := s.asked + 1) else s
    case ReadFails(fd) => s.(closers := s.closers[s.asked := fd], asked := s.asked + 1)
    case CloseFound(ticket) => CloseNext(s, s.closers[ticket]).(closers := s.closers - {ticket})
    case FinishSection(fd) => FinishNext(s, fd)
  }

  function ActivateNext(s: System, fd: Fd, c: Conn): System
  {
    s.(maps := AddActive(s.maps, fd, c), conn := s.conn[fd := c], opening := s.opening[fd := HasActive],
       closing := s.closing - {fd})
  }

  function OpenNext(s: System, fd: Fd): System
    requires fd in s.opening && fd in s.conn && s.opening[fd] != Announced
  {
    match s.opening[fd]
    case HasActive => s.(maps := AddConn(s.maps, fd, s.conn[fd]), opening := s.opening[fd := HasConn])
    case HasConn =>
      s.(maps := AddQueue(s.maps, fd), opening := s.opening[fd := HasQueue],
         leaked := if QueueDropped(s, fd) then s.leaked + {fd} else s.leaked)
    case HasQueue =>
      s.(maps := Tell(s.maps, Opened(SessionOf(s.maps, fd), s.conn[fd])), opening := s.opening[fd := Announced])
  }

  predicate QueueDropped(s: System, fd: Fd)
  {
    fd in s.closing && (s.closing[fd] == LostQueue || s.closing[fd] == Told)
  }

  function CloseNext(s: System, fd: Fd): System
  {
    if fd in s.maps.activeConns then s.(maps := DropActive(s.maps, fd), closing := s.closing[fd := LostActive]) else s
  }

  function FinishNext(s: System, fd: Fd): System
    requires fd in s.closing && fd in s.conn && s.closing[fd] != Told
  {
    match s.closing[fd]
    case LostActive => s.(maps := DropConn(s.maps, s.conn[fd]), closing := s.closing[fd := LostConn])
    case LostConn =>
      s.(maps := DropQueue(s.maps, fd), closing := s.closing[fd := LostQueue], leaked := s.leaked - {fd})
    case LostQueue =>
      s.(maps := Tell(s.maps, Closed(SessionOf(s.maps, fd), s.conn[fd])), closing := s.closing[fd := Told])
  }

  // What session a descriptor is on changes only by activations there.
  lemma StepKeepsSession(s: System, step: Step, fd: Fd)
    requires Enabled(s, step) && !(step.ActivateSection? && step.fd == fd)
    ensures fd in s.conn ==> fd in Next(s, step).conn && Next(s, step).conn[fd] == s.conn[fd]
    ensures SessionOf(Next(s, step).maps, fd) == SessionOf(s.maps, fd)
  {
    match step
    case OpenSection(_) =>
    case FinishSection(_) =>
    case _ =>
  }

  lemma StepKeepsBegun(s: System, step: Step)
    requires Enabled(s, step)
    ensures s.maps.begun <= Next(s, step).maps.begun
  {
    match step
    case OpenSection(_) =>
    case FinishSection(_) =>
    case _ =>
  }

  // The step is a CloseFD that finds a session.
  predicate FindsSession(s: System, step: Step)
  {
    step.CloseFound? && step.ticket in s.closers && s.closers[step.ticket] in s.maps.activeConns
  }

  predicate CanRun(s: System, steps: seq<Step>)
    decreases |steps|
  {
    steps == [] || (Enabled(s, steps[0]) && CanRun(Next(s, steps[0]), steps[1..]))
  }

  function Run(s: System, steps: seq<Step>): System
    requires CanRun(s, steps)
    decreases |steps|
  {
    if steps == [] then s else Run(Next(s, steps[0]), steps[1..])
  }

  lemma RunOne(s: System, step: Step, rest: seq<Step>)
    requires Enabled(s, step) && CanRun(Next(s, step), rest)
    ensures CanRun(s, [step] + rest) && Run(s, [step] + rest) == Run(Next(s, step), rest)
  {
  }

  lemma {:induction false} RunConcat(s: System, first: seq<Step>, second: seq<Step>)
    requires CanRun(s, first) && CanRun(Run(s, first), second)
    ensures CanRun(s, first + second) && Run(s, first + second) == Run(Run(s, first), second)
    decreases |first|
  {
    if first == [] {
      assert first + second == second;
    } else {
      assert (first + second)[1..] == first[1..] + second;
      RunConcat(Next(s, first[0]), first[1..], second);
    }
  }

  /* The map invariant. */

  ghost predicate Core(s: System)
  {
    && s.opening.Keys == s.conn.Keys && s.closing.Keys <= s.conn.Keys
    && (forall fd :: fd in s.maps.activeConns <==> fd in s.conn && fd !in s.closing)
    && (forall fd :: fd in s.maps.activeConns ==> s.maps.activeConns[fd] == s.conn[fd])
    && (forall c :: c in s.maps.connToFd ==> s.maps.connToFd[c] in s.conn)
  }

  // Different descriptors are on different sessions.
  ghost predicate Numbered(s: System)
  {
    && s.maps.session.Keys == s.conn.Keys
    && (forall fd :: fd in s.conn ==> s.maps.session[fd] < s.maps.begun)
    && (forall a, b :: a in s.conn && b in s.conn && s.maps.session[a] == s.maps.session[b] ==> a == b)
  }

  predicate ConnAdded(s: System, fd: Fd)
  {
    fd in s.opening && s.opening[fd] != HasActive
  }

  predicate QueueAdded(s: System, fd: Fd)
  {
    fd in s.opening && (s.opening[fd] == HasQueue || s.opening[fd] == Announced)
  }

  ghost predicate QueuesKnown(s: System)
  {
    && s.leaked <= s.conn.Keys
    && forall fd :: fd in s.maps.sendQueues <==> (QueueAdded(s, fd) && !QueueDropped(s, fd)) || fd in s.leaked
  }

  ghost predicate MapInv(s: System)
  {
    Core(s) && Numbered(s) && QueuesKnown(s)
  }

  lemma ActivateKeepsCore(s: System, fd: Fd, c: Conn)
    requires Core(s) && Enabled(s, ActivateSection(fd, c))
    ensures Core(ActivateNext(s, fd, c))
  {
  }

  lemma OpenKeepsCore(s: System, fd: Fd)
    requires Core(s) && fd in s.opening && s.opening[fd] != Announced
    ensures Core(OpenNext(s, fd))
  {
  }

  lemma CloseKeepsCore(s: System, fd: Fd)
    requires Core(s)
    ensures Core(CloseNext(s, fd))
  {
  }

  lemma FinishKeepsCore(s: System, fd: Fd)
    requires Core(s) && fd in s.closing && s.closing[fd] != Told
    ensures Core(FinishNext(s, fd))
  {
  }

  lemma StepKeepsCore(s: System, step: Step)
    requires Core(s) && Enabled(s, step)
    ensures Core(Next(s, step))
  {
    match step
    case ActivateSection(fd, c) => ActivateKeepsCore(s, fd, c);
    case OpenSection(fd) => OpenKeepsCore(s, fd);
    case FinishSection(fd) => FinishKeepsCore(s, fd);
    case CloseFound(ticket) => CloseKeepsCore(s, s.closers[ticket]);
    case _ =>
  }

  // At most one activation is between its sections.
  ghost predicate OneOpening(s: System)
  {
    forall a, b :: a in s.opening && b in s.opening && s.opening[a] != Announced && s.opening[b] != Announced ==> a == b
  }

  lemma {:induction false} RunKeepsOneOpening(s: System, steps: seq<Step>)
    requires OneOpening(s) && CanRun(s, steps)
    ensures OneOpening(Run(s, steps))
    decreases |steps|
  {
    if steps == [] {
    } else {
      StepKeepsOneOpening(s, steps[0]);
      RunKeepsOneOpening(Next(s, steps[0]), steps[1..]);
    }
  }

  lemma StepKeepsOneOpening(s: System, step: Step)
    requires OneOpening(s) && Enabled(s, step)
    ensures OneOpening(Next(s, step))
  {
    match step
    case OpenSection(_) =>
    case FinishSection(_) =>
    case _ =>
  }

  lemma ActivateKeepsMapInv(s: System, fd: Fd, c: Conn)
    requires MapInv(s) && (fd !in s.conn || Done(s, fd))
    ensures MapInv(ActivateNext(s, fd, c))
  {
  }

  lemma OpenKeepsMapInv(s: System, fd: Fd)
    requires MapInv(s) && fd in s.opening && s.opening[fd] != Announced
    ensures MapInv(OpenNext(s, fd))
  {
    match s.opening[fd]
    case HasActive =>
    case HasConn => AddQueueKeepsMapInv(s, fd);
    case HasQueue =>
  }

  lemma AddQueueKeepsMapInv(s: System, fd: Fd)
    requires MapInv(s) && fd in s.opening && s.opening[fd] == HasConn
    ensures MapInv(OpenNext(s, fd))
  {
  }

  lemma CloseKeepsMapInv(s: System, fd: Fd)
    requires MapInv(s)
    ensures MapInv(CloseNext(s, fd))
  {
  }

  lemma FinishKeepsMapInv(s: System, fd: Fd)
    requires MapInv(s) && fd in s.closing && s.closing[fd] != Told
    ensures MapInv(FinishNext(s, fd))
  {
  }

  lemma MessageStepKeepsMapInv(s: System, step: Step)
    requires MapInv(s) && Enabled(s, step)
    requires !step.ActivateSection? && !step.OpenSection? && !step.CloseFound? && !step.FinishSection?
    ensures MapInv(Next(s, step))
  {
  }

  lemma StepKeepsMapInv(s: System, step: Step)
    requires MapInv(s) && Enabled(s, step)
    ensures MapInv(Next(s, step))
  {
    if step.ActivateSection? {
      ActivateKeepsMapInv(s, step.fd, step.conn);
    } else if step.OpenSection? {
      OpenKeepsMapInv(s, step.fd);
    } else if step.FinishSection? {
      FinishKeepsMapInv(s, step.fd);
    } else if step.CloseFound? {
      CloseKeepsMapInv(s, s.closers[step.ticket]);
    } else {
      MessageStepKeepsMapInv(s, step);
    }
  }

  lemma {:induction false} RunKeepsMapInv(s: System, steps: seq<Step>)
    requires MapInv(s) && CanRun(s, steps)
    ensures MapInv(Run(s, steps))
    decreases |steps|
  {
    if steps == [] {
    } else {
      StepKeepsMapInv(s, steps[0]);
      RunKeepsMapInv(Next(s, steps[0]), steps[1..]);
    }
  }

  /* What connToFd and the queues promise. */

  // connToFd[c] names a session with c that is active, or whose CloseFD is about to erase c.
  predicate Mapped(s: System, c: Conn)
    requires c in s.maps.connToFd
  {
    var fd := s.maps.connToFd[c];
    fd in s.conn && s.conn[fd] == c && ConnAdded(s, fd) && (fd in s.closing ==> s.closing[fd] == LostActive)
  }

  ghost predicate AllMapped(s: System)
  {
    forall c :: c in s.maps.connToFd ==> Mapped(s, c)
  }

  // The step does not insert a connection that the CloseFD of its session has erased already.
  predicate InsertsConnInTime(s: System, step: Step)
  {
    InsertsConn(s, step) && step.fd in s.closing ==> s.closing[step.fd] == LostActive
  }

  predicate InsertsConn(s: System, step: Step)
  {
    step.OpenSection? && step.fd in s.opening && s.opening[step.fd] == HasActive
    && step.fd in s.conn && s.conn[step.fd] !in s.maps.connToFd
  }

  predicate ConnsTimely(s: System, steps: seq<Step>)
    requires CanRun(s, steps)
    decreases |steps|
  {
    steps == [] || (InsertsConnInTime(s, steps[0]) && ConnsTimely(Next(s, steps[0]), steps[1..]))
  }

  ghost predicate AlwaysMapped(s: System, steps: seq<Step>)
    requires CanRun(s, steps)
    decreases |steps|
  {
    AllMapped(s) && (steps == [] || AlwaysMapped(Next(s, steps[0]), steps[1..]))
  }

  lemma OpenKeepsMapped(s: System, fd: Fd)
    requires Core(s) && AllMapped(s) && fd in s.opening && s.opening[fd] != Announced
    requires InsertsConnInTime(s, OpenSection(fd))
    ensures AllMapped(OpenNext(s, fd))
  {
    var u := OpenNext(s, fd);
    forall c | c in u.maps.connToFd ensures Mapped(u, c) {
      assert c in s.maps.connToFd ==> Mapped(s, c);
    }
  }

  lemma FinishKeepsMapped(s: System, fd: Fd)
    requires Core(s) && AllMapped(s) && fd in s.closing && s.closing[fd] != Told
    ensures AllMapped(FinishNext(s, fd))
  {
  }

  lemma ActivateKeepsMapped(s: System, fd: Fd, c: Conn)
    requires Core(s) && AllMapped(s) && Enabled(s, ActivateSection(fd, c))
    ensures AllMapped(ActivateNext(s, fd, c))
  {
  }

  lemma CloseKeepsMapped(s: System, fd: Fd)
    requires Core(s) && AllMapped(s)
    ensures AllMapped(CloseNext(s, fd))
  {
  }

  lemma SameConnsMapped(s: System, u: System)
    requires AllMapped(s) && u.maps.connToFd == s.maps.connToFd && u.conn == s.conn
    requires u.opening == s.opening && u.closing == s.closing
    ensures AllMapped(u)
  {
  }

  lemma CloseFoundKeepsMapped(s: System, t: Ticket)
    requires Core(s) && AllMapped(s) && t in s.closers
    ensures AllMapped(Next(s, CloseFound(t)))
  {
    CloseKeepsMapped(s, s.closers[t]);
    SameConnsMapped(CloseNext(s, s.closers[t]), Next(s, CloseFound(t)));
  }

  lemma StepKeepsMapped(s: System, step: Step)
    requires Core(s) && AllMapped(s) && Enabled(s, step) && InsertsConnInTime(s, step)
    ensures AllMapped(Next(s, step))
  {
    match step
    case ActivateSection(fd, c) => ActivateKeepsMapped(s, fd, c);
    case OpenSection(fd) => OpenKeepsMapped(s, fd);
    case FinishSection(fd) => FinishKeepsMapped(s, fd);
    case CloseFound(ticket) => CloseFoundKeepsMapped(s, ticket);
    case _ => SameConnsMapped(s, Next(s, step));
  }

  lemma LateInsertStays(s: System, step: Step)
    requires Core(s) && Enabled(s, step) && !InsertsConnInTime(s, step)
    ensures !AllMapped(Next(s, step))
  {
    assert !Mapped(Next(s, step), s.conn[step.fd]);
  }

  lemma {:induction false} MappedIff(s: System, steps: seq<Step>)
    requires Core(s) && AllMapped(s) && CanRun(s, steps)
    ensures AlwaysMapped(s, steps) <==> ConnsTimely(s, steps)
    ensures ConnsTimely(s, steps) ==> AllMapped(Run(s, steps))
    decreases |steps|
  {
    if steps == [] {
    } else {
      StepKeepsCore(s, steps[0]);
      if InsertsConnInTime(s, steps[0]) {
        StepKeepsMapped(s, steps[0]);
        MappedIff(Next(s, steps[0]), steps[1..]);
      } else {
        LateInsertStays(s, steps[0]);
      }
    }
  }

  // Every queue belongs to a session that has added it and whose CloseFD has not dropped it.
  ghost predicate OwnQueues(s: System)
  {
    forall fd :: fd in s.maps.sendQueues ==> QueueAdded(s, fd) && !QueueDropped(s, fd)
  }

  // The step does not add a queue that the CloseFD of its session has dropped already.
  predicate AddsQueueInTime(s: System, step: Step)
  {
    step.OpenSection? && step.fd in s.opening && s.opening[step.fd] == HasConn ==> !QueueDropped(s, step.fd)
  }

  predicate QueuesTimely(s: System, steps: seq<Step>)
    requires CanRun(s, steps)
    decreases |steps|
  {
    steps == [] || (AddsQueueInTime(s, steps[0]) && QueuesTimely(Next(s, steps[0]), steps[1..]))
  }

  ghost predicate AlwaysOwnQueues(s: System, steps: seq<Step>)
    requires CanRun(s, steps)
    decreases |steps|
  {
    OwnQueues(s) && (steps == [] || AlwaysOwnQueues(Next(s, steps[0]), steps[1..]))
  }

  lemma StepKeepsNoneLeaked(s: System, step: Step)
    requires MapInv(s) && s.leaked == {} && Enabled(s, step)
    ensures AddsQueueInTime(s, step) ==> Next(s, step).leaked == {}
    ensures !AddsQueueInTime(s, step) ==> !OwnQueues(Next(s, step))
  {
    if !AddsQueueInTime(s, step) {
      assert step.fd in Next(s, step).maps.sendQueues;
    }
  }

  lemma {:induction false} OwnQueuesIff(s: System, steps: seq<Step>)
    requires MapInv(s) && s.leaked == {} && CanRun(s, steps)
    ensures AlwaysOwnQueues(s, steps) <==> QueuesTimely(s, steps)
    ensures QueuesTimely(s, steps) ==> Run(s, steps).leaked == {}
    decreases |steps|
  {
    if steps == [] {
    } else {
      StepKeepsMapInv(s, steps[0]);
      StepKeepsNoneLeaked(s, steps[0]);
      if AddsQueueInTime(s, steps[0]) {
        OwnQueuesIff(Next(s, steps[0]), steps[1..]);
      } else if steps[1..] == [] {
      }
    }
  }

  // CloseFD finds no session whose connection is not yet in connToFd. The reader of a session
  // starts later, but a CloseConn that looked the descriptor up for an earlier session can
  // find the next one that early.
  predicate Found(s: System, steps: seq<Step>)
    requires CanRun(s, steps)
    decreases |steps|
  {
    steps == [] ||
    ((FindsSession(s, steps[0]) ==> ConnAdded(s, s.closers[steps[0].ticket])) && Found(Next(s, steps[0]), steps[1..]))
  }

  ghost predicate ClosingAdded(s: System)
  {
    forall fd :: fd in s.closing ==> ConnAdded(s, fd)
  }

  lemma StepKeepsClosingAdded(s: System, step: Step)
    requires Core(s) && ClosingAdded(s) && Enabled(s, step)
    requires FindsSession(s, step) ==> ConnAdded(s, s.closers[step.ticket])
    ensures ClosingAdded(Next(s, step)) && InsertsConnInTime(s, step)
  {
  }

  lemma {:induction false} FoundIsTimely(s: System, steps: seq<Step>)
    requires Core(s) && ClosingAdded(s) && CanRun(s, steps) && Found(s, steps)
    ensures ConnsTimely(s, steps)
    decreases |steps|
  {
    if steps == [] {
    } else {
      StepKeepsCore(s, steps[0]);
      StepKeepsClosingAdded(s, steps[0]);
      FoundIsTimely(Next(s, steps[0]), steps[1..]);
    }
  }

  // CloseFD finds only sessions that have their queue.
  predicate Gentle(s: System, steps: seq<Step>)
    requires CanRun(s, steps)
    decreases |steps|
  {
    steps == [] ||
    ((FindsSession(s, steps[0]) ==> QueueAdded(s, s.closers[steps[0].ticket])) && Gentle(Next(s, steps[0]), steps[1..]))
  }

  ghost predicate ClosingQueued(s: System)
  {
    forall fd :: fd in s.closing ==> QueueAdded(s, fd)
  }

  lemma StepKeepsClosingQueued(s: System, step: Step)
    requires Core(s) && ClosingQueued(s) && Enabled(s, step)
    requires FindsSession(s, step) ==> QueueAdded(s, s.closers[step.ticket])
    ensures ClosingQueued(Next(s, step)) && AddsQueueInTime(s, step)
  {
  }

  lemma {:induction false} GentleIsTimely(s: System, steps: seq<Step>)
    requires Core(s) && ClosingQueued(s) && CanRun(s, steps) && Gentle(s, steps)
    ensures QueuesTimely(s, steps)
    decreases |steps|
  {
    if steps == [] {
    } else {
      StepKeepsCore(s, steps[0]);
      StepKeepsClosingQueued(s, steps[0]);
      GentleIsTimely(Next(s, steps[0]), steps[1..]);
    }
  }

  // No activation and no CloseFD is between its sections.
  predicate Quiescent(s: System)
  {
    && (forall fd :: fd in s.opening ==> s.opening[fd] == Announced)
    && (forall fd :: fd in s.closing ==> s.closing[fd] == Told)
  }

  // In every interleaving, also with descriptor numbers used again: connToFd names only
  // sessions of that very connection throughout the run, even with duplicate sessions, if and
  // only if no connection is inserted after the CloseFD of its session erased it; all queues
  // belong to sessions in progress throughout the run if and only if none is added after the
  // CloseFD of its session dropped it. It suffices that CloseFD finds no session before its
  // connection (its queue) is there. Then, whenever no operation is under way, connToFd only
  // names active sessions, and exactly the active sessions have a queue.
  lemma SessionMapsAgree(steps: seq<Step>)
    requires CanRun(START, steps)
    ensures AlwaysMapped(START, steps) <==> ConnsTimely(START, steps)
    ensures AlwaysOwnQueues(START, steps) <==> QueuesTimely(START, steps)
    ensures Found(START, steps) ==> ConnsTimely(START, steps)
    ensures Gentle(START, steps) ==> QueuesTimely(START, steps)
    ensures Quiescent(Run(START, steps)) ==>
              var m := Run(START, steps).maps;
              (ConnsTimely(START, steps) ==> NamesActive(m)) && (QueuesTimely(START, steps) ==> SameKeys(m))
  {
    RunKeepsMapInv(START, steps);
    MappedIff(START, steps);
    OwnQueuesIff(START, steps);
    if Found(START, steps) {
      FoundIsTimely(START, steps);
    }
    if Gentle(START, steps) {
      GentleIsTimely(START, steps);
    }
    var s := Run(START, steps);
    if Quiescent(s) {
      forall c | ConnsTimely(START, steps) && c in s.maps.connToFd ensures s.maps.connToFd[c] in s.maps.activeConns {
        assert Mapped(s, c);
      }
      assert forall fd :: fd in s.maps.sendQueues <==> fd in s.maps.activeConns || fd in s.leaked;
    }
  }

  /* Whole operations, when nothing else runs between their sections. */

  function Activate(m: Maps, fd: Fd, c: Conn): Maps
  {
    Tell(AddQueue(AddConn(AddActive(m, fd, c), fd, c), fd), Opened(m.begun, c))
  }

  function CloseFD(m: Maps, fd: Fd): Maps
  {
    if fd !in m.activeConns then m
    else
      var c := m.activeConns[fd];
      Tell(DropQueue(DropConn(DropActive(m, fd), c), fd), Closed(SessionOf(m, fd), c))
  }

  function CloseOne(m: Maps, c: Conn): Maps
  {
    if c in m.connToFd then CloseFD(m, m.connToFd[c]) else m
  }

  datatype Which = OnlyIncoming | OnlyOutgoing | All

  function CloseConn(m: Maps, peer: PeerId, which: Which): Maps
  {
    var n := if which == OnlyOutgoing then m else CloseOne(m, Conn(peer, INCOMING));
    if which == OnlyIncoming then n else CloseOne(n, Conn(peer, OUTGOING))
  }

  // What connToFd promises between operations.
  predicate NamesActive(m: Maps)
  {
    forall c :: c in m.connToFd ==> m.connToFd[c] in m.activeConns && m.activeConns[m.connToFd[c]] == c
  }

  predicate SameKeys(m: Maps)
  {
    m.sendQueues.Keys == m.activeConns.Keys
  }

  // The inserts of an activation add the session and keep every entry there was.
  lemma ActivateInserts(m: Maps, fd: Fd, c: Conn)
    ensures var n := Activate(m, fd, c);
            n.activeConns == map[fd := c] + m.activeConns && n.connToFd == map[c := fd] + m.connToFd
            && n.sendQueues == map[fd := []] + m.sendQueues
  {
    Inserts(m.activeConns, fd, c);
    Inserts(m.connToFd, c, fd);
    Inserts(m.sendQueues, fd, []);
  }

  // std::map::insert.
  lemma Inserts<K, V>(m: map<K, V>, k: K, v: V)
    ensures (if k in m then m else m[k := v]) == map[k := v] + m
  {
  }

  lemma ActivateKeeps(m: Maps, fd: Fd, c: Conn)
    requires NamesActive(m) && fd !in m.activeConns
    ensures NamesActive(Activate(m, fd, c)) && (SameKeys(m) ==> SameKeys(Activate(m, fd, c)))
    ensures SameKeys(m) ==> Activate(m, fd, c).sendQueues[fd] == []
  {
  }

  lemma CloseFDKeeps(m: Maps, fd: Fd)
    requires NamesActive(m)
    ensures NamesActive(CloseFD(m, fd)) && (SameKeys(m) ==> SameKeys(CloseFD(m, fd)))
    ensures fd !in CloseFD(m, fd).activeConns
    ensures CloseFD(CloseFD(m, fd), fd) == CloseFD(m, fd)
  {
  }

  predicate Asks(which: Which, dir: LinkDirection)
  {
    match which
    case OnlyIncoming => dir == INCOMING
    case OnlyOutgoing => dir == OUTGOING
    case All => true
  }

  predicate Names(m: Maps, c: Conn, fd: Fd)
  {
    c in m.connToFd && m.connToFd[c] == fd
  }

  predicate AskedConn(peer: PeerId, which: Which, c: Conn)
  {
    (Asks(which, INCOMING) && c == Conn(peer, INCOMING)) || (Asks(which, OUTGOING) && c == Conn(peer, OUTGOING))
  }

  // connToFd names fd for an asked connection of the peer.
  predicate AskedFd(m: Maps, peer: PeerId, which: Which, fd: Fd)
  {
    (Asks(which, INCOMING) && Names(m, Conn(peer, INCOMING), fd)) || (Asks(which, OUTGOING) && Names(m, Conn(peer, OUTGOING), fd))
  }

  function ClosingOf(m: Maps, c: Conn): seq<Note>
  {
    if c in m.connToFd then [Closed(SessionOf(m, m.connToFd[c]), c)] else []
  }

  // CloseConn erases exactly the asked connections of the peer, with their sessions and queues,
  // and tells about each of them once, about the incoming one first.
  lemma CloseConnExactly(m: Maps, peer: PeerId, which: Which)
    requires NamesActive(m)
    ensures var n := CloseConn(m, peer, which);
            NamesActive(n)
            && (forall c :: c in n.connToFd <==> c in m.connToFd && !AskedConn(peer, which, c))
            && (forall c :: c in n.connToFd ==> n.connToFd[c] == m.connToFd[c])
            && (forall fd :: fd in n.activeConns <==> fd in m.activeConns && !AskedFd(m, peer, which, fd))
            && (forall fd :: fd in n.activeConns ==> n.activeConns[fd] == m.activeConns[fd])
            && (forall fd :: fd in n.sendQueues <==> fd in m.sendQueues && !AskedFd(m, peer, which, fd))
            && (forall fd :: fd in n.sendQueues ==> n.sendQueues[fd] == m.sendQueues[fd])
            && n.notes == m.notes + (if Asks(which, INCOMING) then ClosingOf(m, Conn(peer, INCOMING)) else [])
                          + (if Asks(which, OUTGOING) then ClosingOf(m, Conn(peer, OUTGOING)) else [])
            && (which == All ==> Route(n, peer).None?)
  {
    var incoming, outgoing := Conn(peer, INCOMING), Conn(peer, OUTGOING);
    var n := if Asks(which, INCOMING) then CloseOne(m, incoming) else m;
    if Asks(which, INCOMING) {
      CloseOneExactly(m, incoming);
    }
    if Asks(which, OUTGOING) {
      CloseOneExactly(n, outgoing);
    }
    assert Asks(which, OUTGOING) ==> forall fd :: Names(n, outgoing, fd) <==> Names(m, outgoing, fd);
  }

  lemma CloseOneExactly(m: Maps, c: Conn)
    requires NamesActive(m)
    ensures var n := CloseOne(m, c);
            NamesActive(n) && n.connToFd == m.connToFd - {c} && n.session == m.session && n.notes == m.notes + ClosingOf(m, c)
            && (forall fd :: fd in n.activeConns <==> fd in m.activeConns && !Names(m, c, fd))
            && (forall fd :: fd in n.activeConns ==> n.activeConns[fd] == m.activeConns[fd])
            && (forall fd :: fd in n.sendQueues <==> fd in m.sendQueues && !Names(m, c, fd))
            && (forall fd :: fd in n.sendQueues ==> n.sendQueues[fd] == m.sendQueues[fd])
  {
    CloseOneRemoves(m, c);
  }

  lemma CloseOneRemoves(m: Maps, c: Conn)
    requires NamesActive(m)
    ensures var n := CloseOne(m, c); NamesActive(n) && n.connToFd == m.connToFd - {c}
  {
  }

  // Run without interruption, the sections of an activation are Activate and those of a
  // CloseFD are CloseFD, and neither leaks a queue.
  lemma SectionsMakeOperations(s: System, fd: Fd, c: Conn)
    requires Enabled(s, ActivateSection(fd, c))
    ensures CanRun(s, OperationSteps(fd, c)) && Run(s, OperationSteps(fd, c)) == Activated(s, fd, c)
  {
    var s1 := ActivateNext(s, fd, c);
    var s2 := OpenNext(s1, fd);
    var s3 := OpenNext(s2, fd);
    assert s.opening[fd := HasActive][fd := HasConn][fd := HasQueue][fd := Announced] == s.opening[fd := Announced];
    assert OpenNext(s3, fd) == Activated(s, fd, c);
    OpensRest(s1, fd);
    RunOne(s, ActivateSection(fd, c), [OpenSection(fd), OpenSection(fd), OpenSection(fd)]);
  }

  lemma OpensRest(s: System, fd: Fd)
    requires fd in s.conn && fd in s.opening && s.opening[fd] == HasActive
    ensures var open := [OpenSection(fd), OpenSection(fd), OpenSection(fd)];
            CanRun(s, open) && Run(s, open) == OpenNext(OpenNext(OpenNext(s, fd), fd), fd)
  {
    var s1 := OpenNext(s, fd);
    var s2 := OpenNext(s1, fd);
    RunOne(s2, OpenSection(fd), []);
    RunOne(s1, OpenSection(fd), [OpenSection(fd)]);
    RunOne(s, OpenSection(fd), [OpenSection(fd), OpenSection(fd)]);
  }

  function OperationSteps(fd: Fd, c: Conn): seq<Step>
  {
    [ActivateSection(fd, c), OpenSection(fd), OpenSection(fd), OpenSection(fd)]
  }

  function Activated(s: System, fd: Fd, c: Conn): System
  {
    s.(maps := Activate(s.maps, fd, c), conn := s.conn[fd := c], opening := s.opening[fd := Announced],
       closing := s.closing - {fd})
  }

  function FinishSteps(fd: Fd): seq<Step>
  {
    [FinishSection(fd), FinishSection(fd), FinishSection(fd)]
  }

  // After the three remaining sections of CloseFD.
  function Finished(s: System, fd: Fd): System
    requires fd in s.closing && fd in s.conn
  {
    var c := s.conn[fd];
    s.(maps := Tell(DropQueue(DropConn(s.maps, c), fd), Closed(SessionOf(s.maps, fd), c)),
       closing := s.closing[fd := Told], leaked := s.leaked - {fd})
  }

  lemma Finishes(s: System, fd: Fd)
    requires fd in s.closing && fd in s.conn && s.closing[fd] == LostActive
    ensures CanRun(s, FinishSteps(fd)) && Run(s, FinishSteps(fd)) == Finished(s, fd)
  {
    var s1 := FinishNext(s, fd);
    var s2 := FinishNext(s1, fd);
    assert s.closing[fd := LostConn][fd := LostQueue][fd := Told] == s.closing[fd := Told];
    RunOne(s2, FinishSection(fd), []);
    RunOne(s1, FinishSection(fd), [FinishSection(fd)]);
    RunOne(s, FinishSection(fd), [FinishSection(fd), FinishSection(fd)]);
  }

  // The reader of a session goes on to CloseFD, which finds the session.
  function Erased(s: System, fd: Fd): System
  {
    s.(maps := DropActive(s.maps, fd), closing := s.closing[fd := LostActive], closers := s.closers - {s.asked},
       asked := s.asked + 1)
  }

  lemma ReaderErases(s: System, fd: Fd)
    requires ReaderRuns(s, fd)
    ensures CanRun(s, [ReadFails(fd), CloseFound(s.asked)]) && Run(s, [ReadFails(fd), CloseFound(s.asked)]) == Erased(s, fd)
  {
    var s1 := Next(s, ReadFails(fd));
    assert s1.closers - {s.asked} == s.closers - {s.asked};
    RunOne(s1, CloseFound(s.asked), []);
    RunOne(s, ReadFails(fd), [CloseFound(s.asked)]);
  }

  lemma SectionsMakeCloseFD(s: System, fd: Fd)
    requires Core(s) && ReaderRuns(s, fd)
    ensures CanRun(s, CloseSteps(fd, s.asked)) && Run(s, CloseSteps(fd, s.asked)) == Deactivated(s, fd)
  {
    ReaderErases(s, fd);
    Finishes(Erased(s, fd), fd);
    assert s.closing[fd := LostActive][fd := Told] == s.closing[fd := Told];
    assert Finished(Erased(s, fd), fd) == Deactivated(s, fd);
    RunConcat(s, [ReadFails(fd), CloseFound(s.asked)], FinishSteps(fd));
  }

  // The reader of a session closes it; t is the number of its lookup.
  function CloseSteps(fd: Fd, t: Ticket): seq<Step>
  {
    [ReadFails(fd), CloseFound(t)] + FinishSteps(fd)
  }

  function Deactivated(s: System, fd: Fd): System
  {
    s.(maps := CloseFD(s.maps, fd), closing := s.closing[fd := Told], leaked := s.leaked - {fd},
       closers := s.closers - {s.asked}, asked := s.asked + 1)
  }
}
