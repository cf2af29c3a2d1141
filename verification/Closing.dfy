// When CloseFD may run: what it breaks, in some continuation, when it overtakes the activation
// of the session it closes.
module Closing {
  import opened Prelude
  import opened Framing
  import opened Sessions
  import opened SessionNotes

  /* Notes about one session. */

  predicate Announces(notes: seq<Note>, n: SessionId)
  {
    exists i :: 0 <= i < |notes| && notes[i].Opened? && notes[i].session == n
  }

  predicate Closes(notes: seq<Note>, n: SessionId)
  {
    exists j :: 0 <= j < |notes| && notes[j].Closed? && notes[j].session == n
  }

  predicate OpenedThenClosed(notes: seq<Note>, n: SessionId)
  {
    exists i, j :: 0 <= i < j < |notes| && notes[i].Opened? && notes[i].session == n && notes[j].Closed? && notes[j].session == n
  }

  lemma TellOrder(notes: seq<Note>, note: Note, n: SessionId)
    ensures Announces(notes + [note], n) <==> Announces(notes, n) || (note.Opened? && note.session == n)
    ensures Closes(notes + [note], n) <==> Closes(notes, n) || (note.Closed? && note.session == n)
    ensures OpenedThenClosed(notes + [note], n)
            <==> OpenedThenClosed(notes, n) || (note.Closed? && note.session == n && Announces(notes, n))
  {
    var more, k := notes + [note], |notes|;
    assert more[k] == note;
    assert forall i :: 0 <= i < k ==> more[i] == notes[i];
    if Announces(notes, n) {
      var i :| 0 <= i < k && notes[i].Opened? && notes[i].session == n;
      assert more[i].Opened? && more[i].session == n;
    }
    if Closes(notes, n) {
      var j :| 0 <= j < k && notes[j].Closed? && notes[j].session == n;
      assert more[j].Closed? && more[j].session == n;
    }
    if OpenedThenClosed(notes, n) {
      var i, j :| 0 <= i < j < k && notes[i].Opened? && notes[i].session == n && notes[j].Closed? && notes[j].session == n;
      assert more[i].Opened? && more[i].session == n && more[j].Closed? && more[j].session == n;
    }
  }

  // The notes about the sessions in progress say how far they are; later ones have none.
  ghost predicate NotesKnown(s: System)
  {
    && (forall fd :: fd in s.conn && fd in s.opening ==>
          (Announces(s.maps.notes, SessionOf(s.maps, fd)) <==> s.opening[fd] == Announced)
          && (Closes(s.maps.notes, SessionOf(s.maps, fd)) <==> fd in s.closing && s.closing[fd] == Told))
    && (forall n: SessionId :: Announces(s.maps.notes, n) || Closes(s.maps.notes, n) ==> n < s.maps.begun)
  }

  ghost predicate OrderInv(s: System)
  {
    MapInv(s) && NotesKnown(s)
  }

  lemma ActivateKeepsNotes(s: System, fd: Fd, c: Conn)
    requires OrderInv(s) && Enabled(s, ActivateSection(fd, c))
    ensures NotesKnown(ActivateNext(s, fd, c))
  {
  }

  lemma CloseKeepsNotes(s: System, fd: Fd)
    requires OrderInv(s)
    ensures NotesKnown(CloseNext(s, fd))
  {
  }

  lemma OpenKeepsNotes(s: System, fd: Fd)
    requires OrderInv(s) && fd in s.opening && (s.opening[fd] == HasActive || s.opening[fd] == HasConn)
    ensures NotesKnown(OpenNext(s, fd))
  {
  }

  lemma FinishKeepsNotes(s: System, fd: Fd)
    requires OrderInv(s) && fd in s.closing && (s.closing[fd] == LostActive || s.closing[fd] == LostConn)
    ensures NotesKnown(FinishNext(s, fd))
  {
  }

  lemma SilentKeepsNotes(s: System, step: Step)
    requires OrderInv(s) && Enabled(s, step) && NoteOf(s, step).None?
    ensures NotesKnown(Next(s, step))
  {
    if step.ActivateSection? {
      ActivateKeepsNotes(s, step.fd, step.conn);
    } else if step.OpenSection? {
      OpenKeepsNotes(s, step.fd);
    } else if step.CloseFound? {
      CloseKeepsNotes(s, s.closers[step.ticket]);
    } else if step.FinishSection? {
      FinishKeepsNotes(s, step.fd);
    }
  }

  lemma NoteKeepsNotes(s: System, step: Step)
    requires OrderInv(s) && Enabled(s, step) && NoteOf(s, step).Some?
    ensures NotesKnown(Next(s, step))
  {
    StepNotes(s, step);
    forall n {
      TellOrder(s.maps.notes, NoteOf(s, step).value, n);
    }
  }

  lemma StepKeepsOrder(s: System, step: Step)
    requires OrderInv(s) && Enabled(s, step)
    ensures OrderInv(Next(s, step))
  {
    StepKeepsMapInv(s, step);
    if NoteOf(s, step).Some? {
      NoteKeepsNotes(s, step);
    } else {
      SilentKeepsNotes(s, step);
    }
  }

  lemma {:induction false} RunKeepsOrder(s: System, steps: seq<Step>)
    requires OrderInv(s) && CanRun(s, steps)
    ensures OrderInv(Run(s, steps))
    decreases |steps|
  {
    if steps == [] {
    } else {
      StepKeepsOrder(s, steps[0]);
      RunKeepsOrder(Next(s, steps[0]), steps[1..]);
    }
  }

  /* What is at stake. */

  // However the run goes on, the closing of session n is announced only after its opening.
  ghost predicate OrderSafe(s: System, n: SessionId)
  {
    forall more :: CanRun(s, more) && Closes(Run(s, more).maps.notes, n) ==> OpenedThenClosed(Run(s, more).maps.notes, n)
  }

  // Session n on fd is over.
  predicate Over(s: System, fd: Fd, n: SessionId)
  {
    Done(s, fd) && SessionOf(s.maps, fd) == n
  }

  // However the run goes on, no queue of fd is left when session n is over.
  ghost predicate QueueSafe(s: System, fd: Fd, n: SessionId)
  {
    forall more :: CanRun(s, more) && Over(Run(s, more), fd, n) ==> fd !in Run(s, more).maps.sendQueues
  }

  // However the run goes on, no connection names fd when session n is over.
  ghost predicate ConnSafe(s: System, fd: Fd, n: SessionId)
  {
    forall more :: CanRun(s, more) && Over(Run(s, more), fd, n) ==> Unnamed(Run(s, more).maps, fd)
  }

  predicate Unnamed(m: Maps, fd: Fd)
  {
    forall c :: c in m.connToFd ==> m.connToFd[c] != fd
  }

  function Activations(steps: seq<Step>, fd: Fd): nat
  {
    if steps == [] then 0
    else (if steps[0].ActivateSection? && steps[0].fd == fd then 1 else 0) + Activations(steps[1..], fd)
  }

  // The session on fd, another one than n, has only its entry in activeConns.
  predicate NextBegins(s: System, fd: Fd, n: SessionId)
  {
    SessionOf(s.maps, fd) != n && fd in s.opening && s.opening[fd] == HasActive
  }

  predicate NothingQueued(m: Maps, fd: Fd)
  {
    fd in m.sendQueues ==> m.sendQueues[fd] == []
  }

  // However the run goes on, the next session on fd begins with an empty queue.
  ghost predicate NextStartsEmpty(s: System, fd: Fd, n: SessionId)
  {
    forall more :: CanRun(s, more) && Activations(more, fd) <= 1 && NextBegins(Run(s, more), fd, n) ==>
      NothingQueued(Run(s, more).maps, fd)
  }

  // No connection names fd, and no SendMessage has found it.
  predicate NobodyNames(s: System, fd: Fd)
  {
    Unnamed(s.maps, fd) && forall t :: t in s.senders ==> s.senders[t] != fd
  }

  // CloseConn can close the active session on fd: some connection names it, or it was found.
  predicate Closable(s: System, fd: Fd)
  {
    fd in s.maps.activeConns && (!Unnamed(s.maps, fd) || exists t :: t in s.closers && s.closers[t] == fd)
  }

  // A CloseFD of some session can still erase c from connToFd.
  ghost predicate Erasable(s: System, c: Conn)
  {
    exists fd :: fd in s.conn && s.conn[fd] == c && (Closable(s, fd) || (fd in s.closing && s.closing[fd] == LostActive))
  }

  function Outgoing(c: Conn): Conn
  {
    Conn(c.peer, OUTGOING)
  }

  // By that name a SendMessage can find fd while no activation can begin: at once, or once the
  // outgoing session that it prefers is erased. The name of another session outlives this one.
  ghost predicate FoundBy(s: System, fd: Fd, c: Conn)
    requires fd in s.conn
  {
    c in s.maps.connToFd && s.maps.connToFd[c] == fd
    && (c != s.conn[fd] || c.dir == OUTGOING || Outgoing(c) !in s.maps.connToFd || Erasable(s, Outgoing(c)))
  }

  // A SendMessage has found fd or can still find it.
  ghost predicate StillFound(s: System, fd: Fd)
    requires fd in s.conn
  {
    (exists t :: t in s.senders && s.senders[t] == fd) || exists c :: FoundBy(s, fd, c)
  }

  /* Closing in time. */

  predicate Sound(notes: seq<Note>, n: SessionId)
  {
    Announces(notes, n) && (Closes(notes, n) ==> OpenedThenClosed(notes, n))
  }

  lemma {:induction false} StaysSound(s: System, steps: seq<Step>, n: SessionId)
    requires CanRun(s, steps) && Sound(s.maps.notes, n)
    ensures Sound(Run(s, steps).maps.notes, n)
    decreases |steps|
  {
    if steps == [] {
    } else {
      StepNotes(s, steps[0]);
      var note := NoteOf(s, steps[0]);
      if note.Some? {
        TellOrder(s.maps.notes, note.value, n);
      }
      StaysSound(Next(s, steps[0]), steps[1..], n);
    }
  }

  // As long as fd is on session n, its queue was added and, once dropped, is gone.
  predicate QueueKept(s: System, fd: Fd, n: SessionId)
  {
    n < s.maps.begun
    && (SessionOf(s.maps, fd) == n ==> QueueAdded(s, fd) && (QueueDropped(s, fd) ==> fd !in s.leaked))
  }

  lemma OpenKeepsQueueKept(s: System, other: Fd, fd: Fd, n: SessionId)
    requires other in s.opening && other in s.conn && s.opening[other] != Announced && QueueKept(s, fd, n)
    ensures QueueKept(OpenNext(s, other), fd, n)
  {
  }

  lemma FinishKeepsQueueKept(s: System, other: Fd, fd: Fd, n: SessionId)
    requires other in s.closing && other in s.conn && s.closing[other] != Told && QueueKept(s, fd, n)
    ensures QueueKept(FinishNext(s, other), fd, n)
  {
  }

  lemma StepKeepsQueueKept(s: System, step: Step, fd: Fd, n: SessionId)
    requires Enabled(s, step) && QueueKept(s, fd, n)
    ensures QueueKept(Next(s, step), fd, n)
  {
    if step.OpenSection? {
      if step.fd in s.conn {
        OpenKeepsQueueKept(s, step.fd, fd, n);
      }
    } else if step.FinishSection? {
      FinishKeepsQueueKept(s, step.fd, fd, n);
    }
  }

  lemma {:induction false} StaysKept(s: System, steps: seq<Step>, fd: Fd, n: SessionId)
    requires MapInv(s) && CanRun(s, steps) && QueueKept(s, fd, n)
    ensures MapInv(Run(s, steps)) && QueueKept(Run(s, steps), fd, n)
    decreases |steps|
  {
    if steps == [] {
    } else {
      StepKeepsMapInv(s, steps[0]);
      StepKeepsQueueKept(s, steps[0], fd, n);
      StaysKept(Next(s, steps[0]), steps[1..], fd, n);
    }
  }

  // Nothing is queued for the next session on fd, and nothing will be before it is in connToFd.
  predicate Clean(s: System, fd: Fd)
  {
    fd !in s.maps.sendQueues || (NothingQueued(s.maps, fd) && NobodyNames(s, fd))
  }

  // The activation on fd pauses before its queue, and no SendMessage finds fd before CloseFD has
  // erased its connection.
  ghost predicate Shielded(s: System, fd: Fd)
  {
    && fd in s.conn && fd in s.opening && s.opening[fd] == HasConn && fd in s.closing && s.closing[fd] == LostActive
    && !StillFound(s, fd)
  }

  // What follows on that: the queue is added before CloseFD drops queues, or nobody names fd.
  ghost predicate ShieldHeld(s: System, fd: Fd)
  {
    !QueueDropped(s, fd) && ConnAdded(s, fd) && (QueueAdded(s, fd) || NobodyNames(s, fd) || Shielded(s, fd))
  }

  lemma StillErasable(s: System, u: System, c: Conn)
    requires Core(s) && u.conn == s.conn
    requires forall d :: d in u.maps.connToFd ==> d in s.maps.connToFd && u.maps.connToFd[d] == s.maps.connToFd[d]
    requires forall fd :: Closable(u, fd) ==> Closable(s, fd)
    requires forall fd :: fd in u.closing && u.closing[fd] == LostActive ==>
               (fd in s.closing && s.closing[fd] == LostActive) || Closable(s, fd)
    ensures Erasable(u, c) ==> Erasable(s, c)
  {
    if Erasable(u, c) {
      var fd :| fd in u.conn && u.conn[fd] == c && (Closable(u, fd) || (fd in u.closing && u.closing[fd] == LostActive));
      assert Closable(s, fd) || (fd in s.closing && s.closing[fd] == LostActive);
    }
  }

  // Fewer names, lookups and sessions to close: fd stays shielded.
  lemma StaysShielded(s: System, u: System, fd: Fd)
    requires Core(s) && Shielded(s, fd) && u.conn == s.conn
    requires fd in u.opening && u.opening[fd] == HasConn && fd in u.closing && u.closing[fd] == LostActive
    requires forall c :: c in u.maps.connToFd ==> c in s.maps.connToFd && u.maps.connToFd[c] == s.maps.connToFd[c]
    requires forall c :: c in s.maps.connToFd && !Erasable(s, c) ==> c in u.maps.connToFd
    requires forall h :: Closable(u, h) ==> Closable(s, h)
    requires forall h :: h in u.closing && u.closing[h] == LostActive ==>
               (h in s.closing && s.closing[h] == LostActive) || Closable(s, h)
    requires forall t :: t in u.senders ==> u.senders[t] != fd
    ensures Shielded(u, fd)
  {
    forall c ensures !FoundBy(u, fd, c) {
      if c in u.maps.connToFd && u.maps.connToFd[c] == fd {
        assert !FoundBy(s, fd, c);
        StillErasable(s, u, Outgoing(c));
      }
    }
  }

  // The lookup of a shielded descriptor's peer gives its outgoing session.
  lemma RouteAvoids(s: System, fd: Fd, peer: PeerId)
    requires Shielded(s, fd)
    ensures Route(s.maps, peer) != Some(fd)
  {
    if Route(s.maps, peer) == Some(fd) {
      var c := if Conn(peer, OUTGOING) in s.maps.connToFd then Conn(peer, OUTGOING) else Conn(peer, INCOMING);
      assert FoundBy(s, fd, c);
    }
  }

  lemma MessageKeepsShield(s: System, step: Step, fd: Fd)
    requires Core(s) && OneOpening(s) && Enabled(s, step) && Shielded(s, fd)
    requires step.LookUp? || step.Push? || step.Pop? || step.LookUpConn? || step.ReadFails?
    ensures Shielded(Next(s, step), fd)
  {
    var u := Next(s, step);
    if step.LookUp? {
      RouteAvoids(s, fd, step.peer);
    }
    if step.LookUpConn? && step.conn in s.maps.connToFd {
      assert !Unnamed(s.maps, s.maps.connToFd[step.conn]);
    }
    forall h | Closable(u, h) ensures Closable(s, h) {
      if t :| t in u.closers && u.closers[t] == h {
        assert t in s.closers || step.LookUpConn?;
      }
    }
    StaysShielded(s, u, fd);
  }

  lemma CloseKeepsShield(s: System, t: Ticket, fd: Fd)
    requires Core(s) && t in s.closers && Shielded(s, fd)
    ensures Shielded(Next(s, CloseFound(t)), fd)
  {
    var u := Next(s, CloseFound(t));
    assert s.closers[t] in s.maps.activeConns ==> Closable(s, s.closers[t]);
    StaysShielded(s, u, fd);
  }

  lemma FinishKeepsShield(s: System, other: Fd, fd: Fd)
    requires Core(s) && other in s.closing && s.closing[other] != Told && Shielded(s, fd)
    ensures ShieldHeld(FinishNext(s, other), fd)
  {
    var u := FinishNext(s, other);
    if other == fd {
      forall c | c in u.maps.connToFd ensures u.maps.connToFd[c] != fd {
        assert !FoundBy(s, fd, c);
      }
    } else {
      assert s.closing[other] == LostActive ==> Erasable(s, s.conn[other]);
      StaysShielded(s, u, fd);
    }
  }

  lemma StepKeepsShield(s: System, step: Step, fd: Fd)
    requires Core(s) && OneOpening(s) && Enabled(s, step) && Shielded(s, fd)
    ensures ShieldHeld(Next(s, step), fd)
  {
    match step
    case ActivateSection(_, _) =>
    case OpenSection(other) => assert other == fd;
    case FinishSection(other) => FinishKeepsShield(s, other, fd);
    case CloseFound(t) => CloseKeepsShield(s, t, fd);
    case _ => MessageKeepsShield(s, step, fd);
  }

  // fd is on session n, whose CloseFD leaves nothing queued, or on the next one, which nothing
  // is queued for as it begins.
  ghost predicate NextKept(s: System, fd: Fd, n: SessionId)
  {
    && n < s.maps.begun && fd in s.conn && fd in s.opening
    && (SessionOf(s.maps, fd) == n ==> SessionKept(s, fd))
    && (NextBegins(s, fd, n) ==> Clean(s, fd))
  }

  ghost predicate SessionKept(s: System, fd: Fd)
  {
    Shielded(s, fd)
    || (ConnAdded(s, fd) && (QueueDropped(s, fd) ==> Clean(s, fd)) && (QueueAdded(s, fd) || NobodyNames(s, fd)))
  }

  lemma ActivateKeepsNext(s: System, other: Fd, c: Conn, fd: Fd, n: SessionId)
    requires MapInv(s) && Enabled(s, ActivateSection(other, c)) && NextKept(s, fd, n)
    requires other == fd ==> SessionOf(s.maps, fd) == n
    ensures NextKept(ActivateNext(s, other, c), fd, n)
  {
  }

  lemma OpenKeepsNext(s: System, other: Fd, fd: Fd, n: SessionId)
    requires Core(s) && other in s.opening && s.opening[other] != Announced && NextKept(s, fd, n)
    requires !(SessionOf(s.maps, fd) == n && Shielded(s, fd))
    ensures NextKept(OpenNext(s, other), fd, n)
  {
  }

  lemma FinishKeepsNext(s: System, other: Fd, fd: Fd, n: SessionId)
    requires MapInv(s) && other in s.closing && s.closing[other] != Told && NextKept(s, fd, n)
    requires !(SessionOf(s.maps, fd) == n && Shielded(s, fd))
    ensures NextKept(FinishNext(s, other), fd, n)
  {
  }

  lemma OtherKeepsNext(s: System, step: Step, fd: Fd, n: SessionId)
    requires Core(s) && Enabled(s, step) && NextKept(s, fd, n)
    requires !step.ActivateSection? && !step.OpenSection? && !step.FinishSection?
    requires !(SessionOf(s.maps, fd) == n && Shielded(s, fd))
    ensures NextKept(Next(s, step), fd, n)
  {
  }

  lemma StepKeepsNext(s: System, step: Step, fd: Fd, n: SessionId)
    requires MapInv(s) && OneOpening(s) && Enabled(s, step) && NextKept(s, fd, n)
    requires step.ActivateSection? && step.fd == fd ==> SessionOf(s.maps, fd) == n
    ensures NextKept(Next(s, step), fd, n)
  {
    if step.ActivateSection? {
      ActivateKeepsNext(s, step.fd, step.conn, fd, n);
    } else if SessionOf(s.maps, fd) == n && Shielded(s, fd) {
      StepKeepsShield(s, step, fd);
      StepKeepsSession(s, step, fd);
      StepKeepsBegun(s, step);
      ShieldKeepsNext(Next(s, step), fd, n);
    } else if step.OpenSection? {
      OpenKeepsNext(s, step.fd, fd, n);
    } else if step.FinishSection? {
      FinishKeepsNext(s, step.fd, fd, n);
    } else {
      OtherKeepsNext(s, step, fd, n);
    }
  }

  lemma ShieldKeepsNext(s: System, fd: Fd, n: SessionId)
    requires ShieldHeld(s, fd) && fd in s.conn && SessionOf(s.maps, fd) == n && n < s.maps.begun
    ensures NextKept(s, fd, n)
  {
  }

  lemma {:induction false} StaysNextKept(s: System, steps: seq<Step>, fd: Fd, n: SessionId)
    requires MapInv(s) && OneOpening(s) && CanRun(s, steps) && NextKept(s, fd, n)
    requires Activations(steps, fd) <= if SessionOf(s.maps, fd) == n then 1 else 0
    ensures NextKept(Run(s, steps), fd, n)
    decreases |steps|
  {
    if steps == [] {
    } else {
      StepKeepsMapInv(s, steps[0]);
      StepKeepsOneOpening(s, steps[0]);
      StepKeepsNext(s, steps[0], fd, n);
      if !(steps[0].ActivateSection? && steps[0].fd == fd) {
        StepKeepsSession(s, steps[0], fd);
      }
      StaysNextKept(Next(s, steps[0]), steps[1..], fd, n);
    }
  }

  // As long as fd is on session n, which is being closed, connToFd names fd only until CloseFD
  // erases the connection.
  predicate ConnKept(s: System, fd: Fd, n: SessionId)
  {
    n < s.maps.begun
    && (SessionOf(s.maps, fd) == n ==>
          fd in s.closing && fd in s.opening && s.opening[fd] != HasActive && fd in s.conn
          && forall c :: c in s.maps.connToFd && s.maps.connToFd[c] == fd ==> c == s.conn[fd] && s.closing[fd] == LostActive)
  }

  lemma OpenKeepsConnKept(s: System, other: Fd, fd: Fd, n: SessionId)
    requires Core(s) && other in s.opening && s.opening[other] != Announced && ConnKept(s, fd, n)
    ensures ConnKept(OpenNext(s, other), fd, n)
  {
  }

  lemma FinishKeepsConnKept(s: System, other: Fd, fd: Fd, n: SessionId)
    requires Core(s) && other in s.closing && s.closing[other] != Told && ConnKept(s, fd, n)
    ensures ConnKept(FinishNext(s, other), fd, n)
  {
  }

  lemma ActivateKeepsConnKept(s: System, other: Fd, c: Conn, fd: Fd, n: SessionId)
    requires Core(s) && Enabled(s, ActivateSection(other, c)) && ConnKept(s, fd, n)
    ensures ConnKept(ActivateNext(s, other, c), fd, n)
  {
  }

  lemma StepKeepsConnKept(s: System, step: Step, fd: Fd, n: SessionId)
    requires Core(s) && Enabled(s, step) && ConnKept(s, fd, n)
    ensures ConnKept(Next(s, step), fd, n)
  {
    if step.ActivateSection? {
      ActivateKeepsConnKept(s, step.fd, step.conn, fd, n);
    } else if step.OpenSection? {
      OpenKeepsConnKept(s, step.fd, fd, n);
    } else if step.FinishSection? {
      FinishKeepsConnKept(s, step.fd, fd, n);
    }
  }

  lemma {:induction false} StaysConnKept(s: System, steps: seq<Step>, fd: Fd, n: SessionId)
    requires Core(s) && CanRun(s, steps) && ConnKept(s, fd, n)
    ensures ConnKept(Run(s, steps), fd, n)
    decreases |steps|
  {
    if steps == [] {
    } else {
      StepKeepsCore(s, steps[0]);
      StepKeepsConnKept(s, steps[0], fd, n);
      StaysConnKept(Next(s, steps[0]), steps[1..], fd, n);
    }
  }

  lemma AnnouncedOrderSafe(s: System, n: SessionId)
    requires Sound(s.maps.notes, n)
    ensures OrderSafe(s, n)
  {
    forall more | CanRun(s, more) && Closes(Run(s, more).maps.notes, n) ensures OpenedThenClosed(Run(s, more).maps.notes, n) {
      StaysSound(s, more, n);
    }
  }

  lemma AddedQueueSafe(s: System, fd: Fd, n: SessionId)
    requires MapInv(s) && QueueKept(s, fd, n)
    ensures QueueSafe(s, fd, n)
  {
    forall more | CanRun(s, more) && Over(Run(s, more), fd, n) ensures fd !in Run(s, more).maps.sendQueues {
      StaysKept(s, more, fd, n);
    }
  }

  lemma KeptNextStartsEmpty(s: System, fd: Fd, n: SessionId)
    requires MapInv(s) && OneOpening(s) && NextKept(s, fd, n) && SessionOf(s.maps, fd) == n
    ensures NextStartsEmpty(s, fd, n)
  {
    forall more | CanRun(s, more) && Activations(more, fd) <= 1 && NextBegins(Run(s, more), fd, n)
      ensures NothingQueued(Run(s, more).maps, fd)
    {
      StaysNextKept(s, more, fd, n);
    }
  }

  lemma MappedConnSafe(s: System, fd: Fd, n: SessionId)
    requires Core(s) && ConnKept(s, fd, n)
    ensures ConnSafe(s, fd, n)
  {
    forall more | CanRun(s, more) && Over(Run(s, more), fd, n) ensures Unnamed(Run(s, more).maps, fd) {
      StaysConnKept(s, more, fd, n);
    }
  }

  /* Closing too early: CloseFD finishes while the activation pauses. */

  lemma HastyUnsafe(s: System, fd: Fd)
    requires OrderInv(s) && fd in s.closing && s.closing[fd] == LostActive && s.opening[fd] != Announced
    ensures !OrderSafe(s, SessionOf(s.maps, fd))
  {
    var n := SessionOf(s.maps, fd);
    Finishes(s, fd);
    TellOrder(s.maps.notes, Closed(n, s.conn[fd]), n);
    assert !OpenedThenClosed(s.maps.notes, n) by {
      if OpenedThenClosed(s.maps.notes, n) {
        assert Announces(s.maps.notes, n);
      }
    }
    assert Closes(Run(s, FinishSteps(fd)).maps.notes, n);
  }

  function OpenSteps(fd: Fd, phase: OpenPhase): seq<Step>
  {
    match phase
    case HasActive => [OpenSection(fd), OpenSection(fd), OpenSection(fd)]
    case HasConn => [OpenSection(fd), OpenSection(fd)]
    case HasQueue => [OpenSection(fd)]
    case Announced => []
  }

  // The activation goes on after its CloseFD is over: connection and queue come too late.
  lemma OpensBehind(s: System, fd: Fd)
    requires fd in s.conn && fd in s.opening && fd in s.closing && s.closing[fd] == Told
    requires s.opening[fd] == HasActive || s.opening[fd] == HasConn
    ensures CanRun(s, OpenSteps(fd, s.opening[fd]))
    ensures var u := Run(s, OpenSteps(fd, s.opening[fd]));
            Done(u, fd) && fd in u.maps.sendQueues && u.maps.session == s.maps.session
            && u.conn == s.conn && u.senders == s.senders && u.opening == s.opening[fd := Announced]
            && (s.opening[fd] == HasActive && s.conn[fd] !in s.maps.connToFd ==>
                  s.conn[fd] in u.maps.connToFd && u.maps.connToFd[s.conn[fd]] == fd)
  {
    var open := OpenSection(fd);
    assert s.opening[fd := HasConn][fd := HasQueue][fd := Announced] == s.opening[fd := Announced];
    assert s.opening[fd := HasQueue][fd := Announced] == s.opening[fd := Announced];
    var s1 := if s.opening[fd] == HasActive then OpenNext(s, fd) else s;
    var s2 := OpenNext(s1, fd);
    RunOne(s2, open, []);
    RunOne(s1, open, [open]);
    if s.opening[fd] == HasActive {
      RunOne(s, open, [open, open]);
    }
  }

  function LateSteps(s: System, fd: Fd): seq<Step>
    requires fd in s.opening
  {
    FinishSteps(fd) + OpenSteps(fd, s.opening[fd])
  }

  lemma FinishesThenOpens(s: System, fd: Fd)
    requires fd in s.closing && fd in s.conn && fd in s.opening && s.closing[fd] == LostActive
    requires s.opening[fd] == HasActive || s.opening[fd] == HasConn
    ensures CanRun(s, LateSteps(s, fd))
    ensures var u := Run(s, LateSteps(s, fd));
            Done(u, fd) && fd in u.maps.sendQueues && u.maps.session == s.maps.session && u.conn == s.conn
            && u.senders == s.senders && u.opening == s.opening[fd := Announced]
            && (s.opening[fd] == HasActive ==> s.conn[fd] in u.maps.connToFd && u.maps.connToFd[s.conn[fd]] == fd)
  {
    Finishes(s, fd);
    OpensBehind(Finished(s, fd), fd);
    RunConcat(s, FinishSteps(fd), OpenSteps(fd, s.opening[fd]));
  }

  lemma LeakUnsafe(s: System, fd: Fd)
    requires fd in s.closing && fd in s.conn && fd in s.opening && s.closing[fd] == LostActive
    requires s.opening[fd] == HasActive || s.opening[fd] == HasConn
    ensures !QueueSafe(s, fd, SessionOf(s.maps, fd))
  {
    FinishesThenOpens(s, fd);
    assert Over(Run(s, LateSteps(s, fd)), fd, SessionOf(s.maps, fd));
  }

  lemma StrandUnsafe(s: System, fd: Fd)
    requires fd in s.closing && fd in s.conn && fd in s.opening && s.closing[fd] == LostActive
    requires s.opening[fd] == HasActive
    ensures !ConnSafe(s, fd, SessionOf(s.maps, fd))
  {
    FinishesThenOpens(s, fd);
    var u := Run(s, LateSteps(s, fd));
    assert s.conn[fd] in u.maps.connToFd && u.maps.connToFd[s.conn[fd]] == fd;
    assert !Unnamed(u.maps, fd) && Over(u, fd, SessionOf(s.maps, fd));
  }

  // The name of another connection stays, however the session ends.
  lemma OpensKeepName(s: System, fd: Fd, c: Conn)
    requires fd in s.conn && fd in s.opening && fd in s.closing && s.closing[fd] == Told && s.conn[fd] != c
    requires c in s.maps.connToFd && s.maps.connToFd[c] == fd
    ensures CanRun(s, OpenSteps(fd, s.opening[fd]))
    ensures var u := Run(s, OpenSteps(fd, s.opening[fd]));
            Done(u, fd) && u.maps.session == s.maps.session && c in u.maps.connToFd && u.maps.connToFd[c] == fd
    decreases match s.opening[fd] case HasActive => 3 case HasConn => 2 case HasQueue => 1 case Announced => 0
  {
    if s.opening[fd] != Announced {
      var u := OpenNext(s, fd);
      OpenKeepsName(s, fd, c);
      OpensKeepName(u, fd, c);
      assert OpenSteps(fd, s.opening[fd]) == [OpenSection(fd)] + OpenSteps(fd, u.opening[fd]);
      RunOne(s, OpenSection(fd), OpenSteps(fd, u.opening[fd]));
    }
  }

  lemma OpenKeepsName(s: System, fd: Fd, c: Conn)
    requires fd in s.conn && fd in s.opening && s.opening[fd] != Announced && s.conn[fd] != c
    requires c in s.maps.connToFd && s.maps.connToFd[c] == fd
    ensures var u := OpenNext(s, fd);
            u.conn == s.conn && u.closing == s.closing && u.maps.session == s.maps.session
            && c in u.maps.connToFd && u.maps.connToFd[c] == fd
  {
  }

  lemma KeepsOtherName(s: System, fd: Fd, c: Conn)
    requires fd in s.closing && fd in s.conn && fd in s.opening && s.closing[fd] == LostActive
    requires c in s.maps.connToFd && s.maps.connToFd[c] == fd && c != s.conn[fd]
    ensures CanRun(s, LateSteps(s, fd))
    ensures var u := Run(s, LateSteps(s, fd));
            Done(u, fd) && u.maps.session == s.maps.session && c in u.maps.connToFd && u.maps.connToFd[c] == fd
  {
    Finishes(s, fd);
    OpensKeepName(Finished(s, fd), fd, c);
    RunConcat(s, FinishSteps(fd), OpenSteps(fd, s.opening[fd]));
  }

  lemma StrangerUnsafe(s: System, fd: Fd, c: Conn)
    requires fd in s.closing && fd in s.conn && fd in s.opening && s.closing[fd] == LostActive
    requires c in s.maps.connToFd && s.maps.connToFd[c] == fd && c != s.conn[fd]
    ensures !ConnSafe(s, fd, SessionOf(s.maps, fd))
  {
    KeepsOtherName(s, fd, c);
    var u := Run(s, LateSteps(s, fd));
    assert !Unnamed(u.maps, fd) && Over(u, fd, SessionOf(s.maps, fd));
  }

  /* A message reaches the queue that is left. */

  lemma {:induction false} ActivationsConcat(first: seq<Step>, second: seq<Step>, fd: Fd)
    ensures Activations(first + second, fd) == Activations(first, fd) + Activations(second, fd)
  {
    if first == [] {
      assert first + second == second;
    } else {
      assert (first + second)[1..] == first[1..] + second;
      ActivationsConcat(first[1..], second, fd);
    }
  }

  lemma {:induction false} NoActivations(steps: seq<Step>, fd: Fd)
    requires forall i :: 0 <= i < |steps| ==> !(steps[i].ActivateSection? && steps[i].fd == fd)
    ensures Activations(steps, fd) == 0
  {
    if steps == [] {
    } else {
      NoActivations(steps[1..], fd);
    }
  }

  lemma UnsafeBefore(s: System, steps: seq<Step>, fd: Fd, n: SessionId)
    requires CanRun(s, steps) && Activations(steps, fd) == 0 && !NextStartsEmpty(Run(s, steps), fd, n)
    ensures !NextStartsEmpty(s, fd, n)
  {
    var u := Run(s, steps);
    var more :| CanRun(u, more) && Activations(more, fd) <= 1 && NextBegins(Run(u, more), fd, n)
                && !NothingQueued(Run(u, more).maps, fd);
    RunConcat(s, steps, more);
    ActivationsConcat(steps, more, fd);
  }

  // A late SendMessage on the left queue, then the next session on the descriptor.
  function ReuseSteps(fd: Fd, t: Ticket, m: Message, c: Conn): seq<Step>
  {
    [Push(t, m), ActivateSection(fd, c)]
  }

  lemma NextInherits(s: System, fd: Fd, t: Ticket, m: Message, c: Conn)
    requires MapInv(s) && NoneOpening(s) && Done(s, fd) && fd in s.maps.sendQueues && t in s.senders && s.senders[t] == fd
    ensures !NextStartsEmpty(s, fd, SessionOf(s.maps, fd))
  {
    var s1, steps := Next(s, Push(t, m)), ReuseSteps(fd, t, m, c);
    var s2 := Next(s1, ActivateSection(fd, c));
    RunOne(s1, ActivateSection(fd, c), []);
    RunOne(s, Push(t, m), [ActivateSection(fd, c)]);
    assert steps[1..] == [ActivateSection(fd, c)];
    assert Activations(steps, fd) == Activations([ActivateSection(fd, c)], fd) == 1;
    assert NextBegins(Run(s, steps), fd, SessionOf(s.maps, fd)) && !NothingQueued(Run(s, steps).maps, fd);
  }

  lemma LateQueueStays(s: System, fd: Fd)
    requires MapInv(s) && OneOpening(s) && fd in s.closing && s.closing[fd] == LostActive
    requires s.opening[fd] == HasActive || s.opening[fd] == HasConn
    ensures CanRun(s, LateSteps(s, fd)) && Activations(LateSteps(s, fd), fd) == 0
    ensures var u := Run(s, LateSteps(s, fd));
            MapInv(u) && NoneOpening(u) && Done(u, fd) && fd in u.maps.sendQueues && u.senders == s.senders
            && u.maps.session == s.maps.session
  {
    FinishesThenOpens(s, fd);
    RunKeepsMapInv(s, LateSteps(s, fd));
    NoActivations(LateSteps(s, fd), fd);
  }

  lemma PendingUnsafe(s: System, fd: Fd, t: Ticket, m: Message)
    requires MapInv(s) && OneOpening(s) && fd in s.closing && s.closing[fd] == LostActive && s.opening[fd] == HasConn
    requires t in s.senders && s.senders[t] == fd
    ensures !NextStartsEmpty(s, fd, SessionOf(s.maps, fd))
  {
    LateQueueStays(s, fd);
    NextInherits(Run(s, LateSteps(s, fd)), fd, t, m, s.conn[fd]);
    UnsafeBefore(s, LateSteps(s, fd), fd, SessionOf(s.maps, fd));
  }

  lemma {:induction false} UnusedFd(fds: set<Fd>) returns (fd: Fd)
    ensures fd !in fds && forall g :: g in fds ==> g < fd
    decreases |fds|
  {
    if g :| g in fds {
      var above := UnusedFd(fds - {g});
      fd := if g < above then above else g + 1;
      forall h | h in fds ensures h < fd {
        assert h != g ==> h in fds - {g};
      }
    } else {
      fd := 0;
    }
  }

  // A session with c on an unused descriptor takes c from connToFd when its reader closes it.
  lemma Shadows(s: System, g: Fd, c: Conn)
    requires MapInv(s) && NoneOpening(s) && g !in s.conn
    ensures CanRun(s, OperationSteps(g, c) + CloseSteps(g, s.asked))
    ensures Run(s, OperationSteps(g, c) + CloseSteps(g, s.asked)) == Deactivated(Activated(s, g, c), g)
  {
    SectionsMakeOperations(s, g, c);
    RunKeepsMapInv(s, OperationSteps(g, c));
    SectionsMakeCloseFD(Activated(s, g, c), g);
    RunConcat(s, OperationSteps(g, c), CloseSteps(g, s.asked));
  }

  lemma ShadowErases(s: System, g: Fd, c: Conn, fd: Fd)
    requires MapInv(s) && NoneOpening(s) && g !in s.conn && c in s.maps.connToFd && fd in s.conn
    ensures var u := Deactivated(Activated(s, g, c), g);
            u.maps.connToFd == s.maps.connToFd - {c} && NoneOpening(u)
            && (Done(s, fd) ==> Done(u, fd)) && (fd in s.maps.sendQueues ==> fd in u.maps.sendQueues)
            && SessionOf(u.maps, fd) == SessionOf(s.maps, fd)
  {
    assert g !in s.maps.activeConns;
  }

  // Once everything else is over, the name that is left leads a SendMessage to the queue that is
  // left.
  lemma StrandedFound(s: System, fd: Fd, c: Conn)
    requires MapInv(s) && NoneOpening(s) && Done(s, fd) && fd in s.maps.sendQueues
    requires c in s.maps.connToFd && s.maps.connToFd[c] == fd
    requires c.dir == OUTGOING || Outgoing(c) !in s.maps.connToFd
    ensures !NextStartsEmpty(s, fd, SessionOf(s.maps, fd))
  {
    var step := LookUp(c.peer);
    assert c == Conn(c.peer, c.dir) && Route(s.maps, c.peer) == Some(fd);
    StepKeepsMapInv(s, step);
    NextInherits(Next(s, step), fd, s.asked, [], c);
    RunOne(s, step, []);
    assert [step] + [] == [step];
    NoActivations([step], fd);
    UnsafeBefore(s, [step], fd, SessionOf(s.maps, fd));
  }

  lemma ErasesAside(s: System, fd: Fd, c: Conn) returns (steps: seq<Step>)
    requires MapInv(s) && NoneOpening(s) && Done(s, fd) && fd in s.maps.sendQueues && fd in s.conn && c in s.maps.connToFd
    ensures CanRun(s, steps) && Activations(steps, fd) == 0
    ensures var u := Run(s, steps);
            MapInv(u) && NoneOpening(u) && Done(u, fd) && fd in u.maps.sendQueues
            && u.maps.connToFd == s.maps.connToFd - {c} && SessionOf(u.maps, fd) == SessionOf(s.maps, fd)
  {
    var g := UnusedFd(s.conn.Keys);
    steps := OperationSteps(g, c) + CloseSteps(g, s.asked);
    Shadows(s, g, c);
    ShadowErases(s, g, c, fd);
    RunKeepsMapInv(s, steps);
    NoActivations(steps, fd);
  }

  lemma StrandedUnsafe(s: System, fd: Fd, c: Conn)
    requires MapInv(s) && NoneOpening(s) && Done(s, fd) && fd in s.maps.sendQueues && fd in s.conn
    requires c in s.maps.connToFd && s.maps.connToFd[c] == fd
    ensures !NextStartsEmpty(s, fd, SessionOf(s.maps, fd))
  {
    if c.dir == OUTGOING || Outgoing(c) !in s.maps.connToFd {
      StrandedFound(s, fd, c);
    } else {
      var steps := ErasesAside(s, fd, Outgoing(c));
      StrandedFound(Run(s, steps), fd, c);
      UnsafeBefore(s, steps, fd, SessionOf(s.maps, fd));
    }
  }

  // The connection is inserted after CloseFD erased it, and stays.
  lemma BareUnsafe(s: System, fd: Fd)
    requires MapInv(s) && OneOpening(s) && fd in s.closing && s.closing[fd] == LostActive && s.opening[fd] == HasActive
    ensures !NextStartsEmpty(s, fd, SessionOf(s.maps, fd))
  {
    LateQueueStays(s, fd);
    FinishesThenOpens(s, fd);
    StrandedUnsafe(Run(s, LateSteps(s, fd)), fd, s.conn[fd]);
    UnsafeBefore(s, LateSteps(s, fd), fd, SessionOf(s.maps, fd));
  }

  // The name of another session stays.
  lemma OtherNameUnsafe(s: System, fd: Fd, c: Conn)
    requires MapInv(s) && OneOpening(s) && fd in s.closing && s.closing[fd] == LostActive && s.opening[fd] == HasConn
    requires c in s.maps.connToFd && s.maps.connToFd[c] == fd && c != s.conn[fd]
    ensures !NextStartsEmpty(s, fd, SessionOf(s.maps, fd))
  {
    LateQueueStays(s, fd);
    KeepsOtherName(s, fd, c);
    StrandedUnsafe(Run(s, LateSteps(s, fd)), fd, c);
    UnsafeBefore(s, LateSteps(s, fd), fd, SessionOf(s.maps, fd));
  }

  // A SendMessage looks fd up before CloseFD erases its connection.
  lemma LooksUp(s: System, fd: Fd, c: Conn)
    requires MapInv(s) && OneOpening(s) && fd in s.closing && s.closing[fd] == LostActive && s.opening[fd] == HasConn
    requires c in s.maps.connToFd && s.maps.connToFd[c] == fd
    requires c.dir == OUTGOING || Outgoing(c) !in s.maps.connToFd
    ensures !NextStartsEmpty(s, fd, SessionOf(s.maps, fd))
  {
    var step := LookUp(c.peer);
    assert c == Conn(c.peer, c.dir) && Route(s.maps, c.peer) == Some(fd);
    StepKeepsMapInv(s, step);
    PendingUnsafe(Next(s, step), fd, s.asked, []);
    RunOne(s, step, []);
    assert [step] + [] == [step];
    NoActivations([step], fd);
    UnsafeBefore(s, [step], fd, SessionOf(s.maps, fd));
  }

  // The session on fd is as far in u as in s, and only that connection is gone from connToFd.
  predicate ErasedFrom(s: System, u: System, fd: Fd, c: Conn)
  {
    && fd in s.conn && fd in s.opening && fd in s.closing && fd in u.conn && fd in u.opening && fd in u.closing
    && u.conn[fd] == s.conn[fd] && u.opening[fd] == s.opening[fd] && u.closing[fd] == s.closing[fd]
    && SessionOf(u.maps, fd) == SessionOf(s.maps, fd) && u.maps.connToFd == s.maps.connToFd - {c}
  }

  // The next section of the CloseFD of h.
  lemma FinishErases(s: System, h: Fd, fd: Fd)
    requires Core(s) && fd in s.closing && h in s.closing && s.closing[h] == LostActive && h != fd
    ensures CanRun(s, [FinishSection(h)]) && ErasedFrom(s, Run(s, [FinishSection(h)]), fd, s.conn[h])
  {
    RunOne(s, FinishSection(h), []);
    assert [FinishSection(h)] + [] == [FinishSection(h)];
  }

  lemma CloseErases(s: System, h: Fd, t: Ticket, fd: Fd)
    requires Core(s) && fd in s.closing && h in s.maps.activeConns && t in s.closers && s.closers[t] == h
    ensures CanRun(s, [CloseFound(t), FinishSection(h)])
    ensures ErasedFrom(s, Run(s, [CloseFound(t), FinishSection(h)]), fd, s.conn[h])
  {
    var s1 := Next(s, CloseFound(t));
    StepKeepsCore(s, CloseFound(t));
    FinishErases(s1, h, fd);
    RunOne(s, CloseFound(t), [FinishSection(h)]);
  }

  lemma FoundErases(s: System, h: Fd, d: Conn, fd: Fd)
    requires Core(s) && fd in s.closing && h in s.maps.activeConns && d in s.maps.connToFd && s.maps.connToFd[d] == h
    ensures CanRun(s, [LookUpConn(d), CloseFound(s.asked), FinishSection(h)])
    ensures ErasedFrom(s, Run(s, [LookUpConn(d), CloseFound(s.asked), FinishSection(h)]), fd, s.conn[h])
  {
    var s1 := Next(s, LookUpConn(d));
    StepKeepsCore(s, LookUpConn(d));
    CloseErases(s1, h, s.asked, fd);
    RunOne(s, LookUpConn(d), [CloseFound(s.asked), FinishSection(h)]);
  }

  lemma Erases(s: System, fd: Fd, c: Conn) returns (steps: seq<Step>)
    requires Core(s) && fd in s.closing && s.conn[fd] != c && Erasable(s, c)
    ensures CanRun(s, steps) && Activations(steps, fd) == 0 && ErasedFrom(s, Run(s, steps), fd, c)
  {
    var h :| h in s.conn && s.conn[h] == c && (Closable(s, h) || (h in s.closing && s.closing[h] == LostActive));
    if h in s.closing {
      steps := [FinishSection(h)];
      FinishErases(s, h, fd);
    } else if t :| t in s.closers && s.closers[t] == h {
      steps := [CloseFound(t), FinishSection(h)];
      CloseErases(s, h, t, fd);
    } else {
      var d :| d in s.maps.connToFd && s.maps.connToFd[d] == h;
      steps := [LookUpConn(d), CloseFound(s.asked), FinishSection(h)];
      FoundErases(s, h, d, fd);
    }
    NoActivations(steps, fd);
  }

  lemma OwnNameUnsafe(s: System, fd: Fd, c: Conn)
    requires MapInv(s) && OneOpening(s) && fd in s.closing && s.closing[fd] == LostActive && s.opening[fd] == HasConn
    requires FoundBy(s, fd, c) && c == s.conn[fd]
    ensures !NextStartsEmpty(s, fd, SessionOf(s.maps, fd))
  {
    if c.dir == OUTGOING || Outgoing(c) !in s.maps.connToFd {
      LooksUp(s, fd, c);
    } else {
      var steps := Erases(s, fd, Outgoing(c));
      RunKeepsMapInv(s, steps);
      RunKeepsOneOpening(s, steps);
      LooksUp(Run(s, steps), fd, c);
      UnsafeBefore(s, steps, fd, SessionOf(s.maps, fd));
    }
  }

  /* Main results. */

  // The connection of the session on fd is the only one that may name fd.
  ghost predicate NamedByItsOwn(s: System, fd: Fd)
  {
    fd in s.conn && forall c :: c in s.maps.connToFd && s.maps.connToFd[c] == fd ==> c == s.conn[fd]
  }

  // CloseFD on an active session, in every reachable state: in every continuation the
  // notifications keep their order exactly when the session is announced already; no queue is
  // left exactly when it has its queue already; the next session on the descriptor begins with
  // an empty queue exactly when it has, or when the session is in connToFd and no SendMessage
  // has found the descriptor or can find it before CloseFD erases the connection; no connection
  // is left naming the descriptor exactly when the session's was inserted already and no other
  // names it.
  lemma ClosingSafeIff(steps: seq<Step>, fd: Fd)
    requires CanRun(START, steps) && fd in Run(START, steps).maps.activeConns
    ensures var s := Run(START, steps);
            var n := SessionOf(s.maps, fd);
            fd in s.opening && fd in s.conn
            && (OrderSafe(CloseNext(s, fd), n) <==> s.opening[fd] == Announced)
            && (QueueSafe(CloseNext(s, fd), fd, n) <==> QueueAdded(s, fd))
            && (NextStartsEmpty(CloseNext(s, fd), fd, n)
                <==> QueueAdded(s, fd) || (s.opening[fd] == HasConn && !StillFound(s, fd)))
            && (ConnSafe(CloseNext(s, fd), fd, n) <==> s.opening[fd] != HasActive && NamedByItsOwn(s, fd))
  {
    RunKeepsOrder(START, steps);
    var s := Run(START, steps);
    RunKeepsOneOpening(START, steps);
    CloseKeepsMapInv(s, fd);
    CloseKeepsNotes(s, fd);
    OrderSafeIff(s, fd);
    QueueSafeIff(s, fd);
    NextStartsEmptyIff(s, fd);
    ConnSafeIff(s, fd);
  }

  lemma OrderSafeIff(s: System, fd: Fd)
    requires OrderInv(s) && OrderInv(CloseNext(s, fd)) && fd in s.maps.activeConns
    ensures OrderSafe(CloseNext(s, fd), SessionOf(s.maps, fd)) <==> s.opening[fd] == Announced
  {
    if s.opening[fd] == Announced {
      AnnouncedOrderSafe(CloseNext(s, fd), SessionOf(s.maps, fd));
    } else {
      HastyUnsafe(CloseNext(s, fd), fd);
    }
  }

  lemma QueueSafeIff(s: System, fd: Fd)
    requires MapInv(s) && MapInv(CloseNext(s, fd)) && fd in s.maps.activeConns
    ensures QueueSafe(CloseNext(s, fd), fd, SessionOf(s.maps, fd)) <==> QueueAdded(s, fd)
  {
    if QueueAdded(s, fd) {
      AddedQueueSafe(CloseNext(s, fd), fd, SessionOf(s.maps, fd));
    } else {
      LeakUnsafe(CloseNext(s, fd), fd);
    }
  }

  lemma CloseKeepsFound(s: System, fd: Fd)
    requires Core(s) && fd in s.maps.activeConns
    ensures StillFound(CloseNext(s, fd), fd) <==> StillFound(s, fd)
  {
    var u := CloseNext(s, fd);
    forall c ensures FoundBy(u, fd, c) <==> FoundBy(s, fd, c) {
      if s.conn[fd] != Outgoing(c) {
        assert forall h :: h != fd ==> (Closable(u, h) <==> Closable(s, h));
        assert Erasable(u, Outgoing(c)) <==> Erasable(s, Outgoing(c));
      }
    }
  }

  lemma NextStartsEmptyIff(s: System, fd: Fd)
    requires MapInv(s) && MapInv(CloseNext(s, fd)) && OneOpening(s) && fd in s.maps.activeConns
    ensures NextStartsEmpty(CloseNext(s, fd), fd, SessionOf(s.maps, fd))
            <==> QueueAdded(s, fd) || (s.opening[fd] == HasConn && !StillFound(s, fd))
  {
    var u, n := CloseNext(s, fd), SessionOf(s.maps, fd);
    CloseKeepsFound(s, fd);
    if QueueAdded(s, fd) || (s.opening[fd] == HasConn && !StillFound(s, fd)) {
      KeptNextStartsEmpty(u, fd, n);
    } else if s.opening[fd] == HasActive {
      BareUnsafe(u, fd);
    } else if t :| t in s.senders && s.senders[t] == fd {
      PendingUnsafe(u, fd, t, []);
    } else {
      var c :| FoundBy(u, fd, c);
      if c == u.conn[fd] {
        OwnNameUnsafe(u, fd, c);
      } else {
        OtherNameUnsafe(u, fd, c);
      }
    }
  }

  lemma ConnSafeIff(s: System, fd: Fd)
    requires MapInv(s) && MapInv(CloseNext(s, fd)) && fd in s.maps.activeConns
    ensures ConnSafe(CloseNext(s, fd), fd, SessionOf(s.maps, fd)) <==> s.opening[fd] != HasActive && NamedByItsOwn(s, fd)
  {
    var u, n := CloseNext(s, fd), SessionOf(s.maps, fd);
    if s.opening[fd] == HasActive {
      StrandUnsafe(u, fd);
    } else if NamedByItsOwn(s, fd) {
      MappedConnSafe(u, fd, n);
    } else {
      var c :| c in s.maps.connToFd && s.maps.connToFd[c] == fd && c != s.conn[fd];
      StrangerUnsafe(u, fd, c);
    }
  }

  // In every interleaving in which CloseFD finds only sessions that have their queue, also
  // with descriptor numbers used again: every session begins with an empty queue, and the
  // queues belong to exactly the active sessions whenever no operation is under way.
  lemma GentleRunsStartEmpty(steps: seq<Step>)
    requires CanRun(START, steps) && Gentle(START, steps)
    ensures var s := Run(START, steps);
            (forall fd :: fd in s.opening && s.opening[fd] == HasConn ==> fd !in s.maps.sendQueues)
            && (Quiescent(s) ==> SameKeys(s.maps))
  {
    RunKeepsMapInv(START, steps);
    SessionMapsAgree(steps);
    OwnQueuesIff(START, steps);
  }

  ghost predicate AllOrdered(notes: seq<Note>)
  {
    forall n: SessionId :: Closes(notes, n) ==> OpenedThenClosed(notes, n)
  }

  lemma StepKeepsOrdered(s: System, step: Step)
    requires OrderInv(s) && PatientInv(s) && Enabled(s, step) && AllOrdered(s.maps.notes)
    ensures AllOrdered(Next(s, step).maps.notes)
  {
    StepNotes(s, step);
    var note := NoteOf(s, step);
    if note.Some? {
      forall n | Closes(s.maps.notes + [note.value], n) ensures OpenedThenClosed(s.maps.notes + [note.value], n) {
        TellOrder(s.maps.notes, note.value, n);
      }
    }
  }

  lemma {:induction false} RunKeepsOrdered(s: System, steps: seq<Step>)
    requires OrderInv(s) && PatientInv(s) && CanRun(s, steps) && Patient(s, steps) && AllOrdered(s.maps.notes)
    ensures AllOrdered(Run(s, steps).maps.notes)
    decreases |steps|
  {
    if steps == [] {
    } else {
      StepKeepsOrder(s, steps[0]);
      StepKeepsPatient(s, steps[0]);
      StepKeepsOrdered(s, steps[0]);
      RunKeepsOrdered(Next(s, steps[0]), steps[1..]);
    }
  }

  // In every interleaving in which sessions are closed only once announced, every closing is
  // announced after the opening of its own session.
  lemma PatientRunsOrdered(steps: seq<Step>)
    requires CanRun(START, steps) && Patient(START, steps)
    ensures AllOrdered(Run(START, steps).maps.notes)
  {
    RunKeepsOrdered(START, steps);
  }

  /* One such run. */

  // CloseFD overtakes an activation: the queue of the closed descriptor stays behind, and the
  // closing is announced before the opening.
  lemma ClosingTooEarly(fd: Fd, c: Conn)
    ensures var steps := [ActivateSection(fd, c), OpenSection(fd), LookUpConn(c), CloseFound(0)]
                         + (FinishSteps(fd) + OpenSteps(fd, HasConn));
            CanRun(START, steps) && Quiescent(Run(START, steps))
            && Run(START, steps).maps.activeConns == map[] && Run(START, steps).maps.connToFd == map[]
            && Run(START, steps).maps.sendQueues == map[fd := []]
            && Run(START, steps).maps.notes == [Closed(0, c), Opened(0, c)]
  {
    var first := [ActivateSection(fd, c), OpenSection(fd), LookUpConn(c), CloseFound(0)];
    ClosesHalfOpen(fd, c);
    ClosingGoesFirst(fd, c);
    RunConcat(START, first, FinishSteps(fd) + OpenSteps(fd, HasConn));
  }

  // The activation has passed connToFd when CloseFD finds its session.
  function HalfOpen(fd: Fd, c: Conn): System
  {
    System(Maps(map[], map[c := fd], map[], map[fd := 0], 1, []),
           map[fd := c], map[fd := HasConn], map[fd := LostActive], {}, map[], map[], 1)
  }

  lemma ClosesHalfOpen(fd: Fd, c: Conn)
    ensures var first := [ActivateSection(fd, c), OpenSection(fd), LookUpConn(c), CloseFound(0)];
            CanRun(START, first) && Run(START, first) == HalfOpen(fd, c)
  {
    var s1 := Next(START, ActivateSection(fd, c));
    var s2 := Next(s1, OpenSection(fd));
    var s3 := Next(s2, LookUpConn(c));
    assert map[fd := c] - {fd} == map[] && map[0 := fd] - {0} == map[];
    assert s3.closers == map[0 := fd] && s3.asked == 1;
    assert Next(s3, CloseFound(0)) == HalfOpen(fd, c);
    RunOne(s3, CloseFound(0), []);
    RunOne(s2, LookUpConn(c), [CloseFound(0)]);
    RunOne(s1, OpenSection(fd), [LookUpConn(c), CloseFound(0)]);
    RunOne(START, ActivateSection(fd, c), [OpenSection(fd), LookUpConn(c), CloseFound(0)]);
  }

  lemma ClosingGoesFirst(fd: Fd, c: Conn)
    ensures var s, steps := HalfOpen(fd, c), FinishSteps(fd) + OpenSteps(fd, HasConn);
            CanRun(s, steps) && Quiescent(Run(s, steps))
            && Run(s, steps).maps.activeConns == map[] && Run(s, steps).maps.connToFd == map[]
            && Run(s, steps).maps.sendQueues == map[fd := []] && Run(s, steps).maps.notes == [Closed(0, c), Opened(0, c)]
  {
    var s := HalfOpen(fd, c);
    Finishes(s, fd);
    assert map[c := fd] - {c} == map[];
    var s1 := s.(maps := Maps(map[], map[], map[], map[fd := 0], 1, [Closed(0, c)]), closing := map[fd := Told]);
    assert Finished(s, fd) == s1;
    var s2 := OpenNext(s1, fd);
    var s3 := OpenNext(s2, fd);
    assert s3.maps.notes == [Closed(0, c), Opened(0, c)];
    RunOne(s2, OpenSection(fd), []);
    RunOne(s1, OpenSection(fd), [OpenSection(fd)]);
    RunConcat(s, FinishSteps(fd), OpenSteps(fd, HasConn));
  }
}
