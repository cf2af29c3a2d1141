// SendMessage and CloseConn release connToFdMut_ after the lookup and use the descriptor later:
// whose session they reach when other sections run in between.
module Routing {
  import opened Prelude
  import opened Framing
  import opened Sessions

  // The connection of the last activation on fd.
  function LastActivated(steps: seq<Step>, fd: Fd): Option<Conn>
  {
    if steps == [] then None
    else if LastActivated(steps[1..], fd).Some? then LastActivated(steps[1..], fd)
    else if steps[0].ActivateSection? && steps[0].fd == fd then Some(steps[0].conn)
    else None
  }

  // The session on fd is that of the last activation there, or still the same.
  lemma {:induction false} SessionOnFd(s: System, steps: seq<Step>, fd: Fd)
    requires CanRun(s, steps) && fd in s.conn
    ensures var last, u := LastActivated(steps, fd), Run(s, steps);
            fd in u.conn && u.conn[fd] == (if last.Some? then last.value else s.conn[fd])
            && (if last.Some? then SessionOf(u.maps, fd) >= s.maps.begun else SessionOf(u.maps, fd) == SessionOf(s.maps, fd))
    decreases |steps|
  {
    if steps == [] {
    } else {
      if !(steps[0].ActivateSection? && steps[0].fd == fd) {
        StepKeepsSession(s, steps[0], fd);
      }
      StepKeepsBegun(s, steps[0]);
      SessionOnFd(Next(s, steps[0]), steps[1..], fd);
    }
  }

  // Lookup t found fd, whether it is still to be used or not.
  predicate Sends(s: System, t: Ticket, fd: Fd)
  {
    t < s.asked && (t in s.senders ==> s.senders[t] == fd)
  }

  predicate Closes(s: System, t: Ticket, fd: Fd)
  {
    t < s.asked && (t in s.closers ==> s.closers[t] == fd)
  }

  lemma StepKeepsTicket(s: System, step: Step, t: Ticket, fd: Fd)
    requires Enabled(s, step)
    ensures Sends(s, t, fd) ==> Sends(Next(s, step), t, fd)
    ensures Closes(s, t, fd) ==> Closes(Next(s, step), t, fd)
  {
  }

  lemma {:induction false} RunKeepsTicket(s: System, steps: seq<Step>, t: Ticket, fd: Fd)
    requires CanRun(s, steps)
    ensures Sends(s, t, fd) ==> Sends(Run(s, steps), t, fd)
    ensures Closes(s, t, fd) ==> Closes(Run(s, steps), t, fd)
    decreases |steps|
  {
    if steps == [] {
    } else {
      StepKeepsTicket(s, steps[0], t, fd);
      RunKeepsTicket(Next(s, steps[0]), steps[1..], t, fd);
    }
  }

  // The queue of fd belongs to the session on fd.
  predicate InUse(s: System, fd: Fd)
  {
    fd in s.conn && fd in s.maps.sendQueues && QueueAdded(s, fd) && !QueueDropped(s, fd)
  }

  // What becomes of a message that is sent to fd: dropped, or last in the queue of fd, which is
  // in use by the session there or left behind.
  ghost predicate JoinsQueue(u: System, w: System, fd: Fd, message: Message)
  {
    && (fd !in u.maps.sendQueues ==> w.maps == u.maps)
    && (fd in u.maps.sendQueues ==>
          w.maps == u.maps.(sendQueues := u.maps.sendQueues[fd := u.maps.sendQueues[fd] + [message]])
          && (InUse(u, fd) || fd in u.leaked))
  }

  lemma RouteFinds(before: seq<Step>, peer: PeerId)
    requires CanRun(START, before) && Route(Run(START, before).maps, peer).Some?
    ensures var s := Run(START, before);
            var fd := Route(s.maps, peer).value;
            MapInv(s) && fd in s.conn && (ConnsTimely(START, before) ==> s.conn[fd].peer == peer)
  {
    RunKeepsMapInv(START, before);
    MappedIff(START, before);
    var s := Run(START, before);
    if ConnsTimely(START, before) {
      assert Mapped(s, if Conn(peer, OUTGOING) in s.maps.connToFd then Conn(peer, OUTGOING) else Conn(peer, INCOMING));
    }
  }

  lemma PushJoins(s: System, after: seq<Step>, t: Ticket, fd: Fd, message: Message)
    requires MapInv(s) && Sends(s, t, fd) && fd in s.conn && CanRun(s, after) && t in Run(s, after).senders
    ensures JoinsQueue(Run(s, after), Next(Run(s, after), Push(t, message)), fd, message)
  {
    RunKeepsTicket(s, after, t, fd);
    RunKeepsMapInv(s, after);
    SessionOnFd(s, after, fd);
  }

  // What becomes of a CloseFD of fd.
  ghost predicate ClosesActive(u: System, w: System, fd: Fd)
  {
    && (fd !in u.maps.activeConns ==> w.maps == u.maps && w.closing == u.closing)
    && (fd in u.maps.activeConns ==> w.maps == DropActive(u.maps, fd) && w.closing == u.closing[fd := LostActive])
  }

  lemma CloseFoundErases(u: System, t: Ticket)
    requires Core(u) && t in u.closers
    ensures ClosesActive(u, Next(u, CloseFound(t)), u.closers[t])
  {
  }

  lemma CloseFinds(s: System, after: seq<Step>, t: Ticket, fd: Fd)
    requires MapInv(s) && Closes(s, t, fd) && CanRun(s, after) && t in Run(s, after).closers
    ensures var u := Run(s, after);
            ClosesActive(u, Next(u, CloseFound(t)), fd)
            && (fd in u.maps.activeConns ==> fd in u.conn && u.maps.activeConns[fd] == u.conn[fd])
  {
    RunKeepsTicket(s, after, t, fd);
    RunKeepsMapInv(s, after);
    CloseFoundErases(Run(s, after), t);
  }

  // SendMessage in every interleaving: the message joins the queue that the descriptor found
  // has by then, if any. The session that uses this queue is with the peer if and only if the
  // last activation on the descriptor since the lookup was, or none ran and the session looked
  // up was; this it was when connections were inserted in time.
  lemma SentMessageIff(before: seq<Step>, peer: PeerId, after: seq<Step>, message: Message)
    requires CanRun(START, before) && Route(Run(START, before).maps, peer).Some?
    requires CanRun(Run(START, before), [LookUp(peer)] + after)
    requires Run(START, before).asked in Run(Run(START, before), [LookUp(peer)] + after).senders
    ensures var s := Run(START, before);
            var u, fd := Run(s, [LookUp(peer)] + after), Route(s.maps, peer).value;
            var last := LastActivated(after, fd);
            fd in s.conn && JoinsQueue(u, Next(u, Push(s.asked, message)), fd, message)
            && (InUse(u, fd) ==> (u.conn[fd].peer == peer <==> (if last.Some? then last.value else s.conn[fd]).peer == peer))
            && (ConnsTimely(START, before) ==> s.conn[fd].peer == peer)
  {
    var s := Run(START, before);
    var fd, s1 := Route(s.maps, peer).value, Next(s, LookUp(peer));
    RouteFinds(before, peer);
    assert ([LookUp(peer)] + after)[1..] == after;
    MessageStepKeepsMapInv(s, LookUp(peer));
    SessionOnFd(s1, after, fd);
    PushJoins(s1, after, s.asked, fd, message);
  }

  // CloseConn in every interleaving: it closes the session that the descriptor found has by
  // then, if any. This is the session looked up if and only if no activation ran on the
  // descriptor since, and one of that connection if and only if the last activation was, or
  // none ran and the session looked up was; this it was when connections were inserted in time.
  lemma ClosedSessionIff(before: seq<Step>, c: Conn, after: seq<Step>)
    requires CanRun(START, before) && c in Run(START, before).maps.connToFd
    requires CanRun(Run(START, before), [LookUpConn(c)] + after)
    requires Run(START, before).asked in Run(Run(START, before), [LookUpConn(c)] + after).closers
    ensures var s := Run(START, before);
            var u, fd := Run(s, [LookUpConn(c)] + after), s.maps.connToFd[c];
            var last := LastActivated(after, fd);
            fd in s.conn && ClosesActive(u, Next(u, CloseFound(s.asked)), fd)
            && (fd in u.maps.activeConns ==>
                  (SessionOf(u.maps, fd) == SessionOf(s.maps, fd) <==> last.None?)
                  && (u.maps.activeConns[fd] == c <==> (if last.Some? then last.value else s.conn[fd]) == c))
            && (ConnsTimely(START, before) ==> s.conn[fd] == c)
  {
    var s := Run(START, before);
    var fd, s1 := s.maps.connToFd[c], Next(s, LookUpConn(c));
    RunKeepsMapInv(START, before);
    MappedIff(START, before);
    assert ConnsTimely(START, before) ==> Mapped(s, c);
    assert ([LookUpConn(c)] + after)[1..] == after;
    MessageStepKeepsMapInv(s, LookUpConn(c));
    SessionOnFd(s1, after, fd);
    CloseFinds(s1, after, s.asked, fd);
  }

  /* A descriptor used again between lookup and use. */

  // The steps lead from s to u, and CloseFD finds no session that is not in connToFd yet.
  ghost predicate Leads(s: System, steps: seq<Step>, u: System)
  {
    CanRun(s, steps) && Found(s, steps) && Run(s, steps) == u
  }

  lemma {:induction false} LeadsOn(s: System, first: seq<Step>, t: System, second: seq<Step>, u: System)
    requires Leads(s, first, t) && Leads(t, second, u)
    ensures Leads(s, first + second, u)
    decreases |first|
  {
    if first == [] {
      assert first + second == second;
    } else {
      assert (first + second)[1..] == first[1..] + second;
      LeadsOn(Next(s, first[0]), first[1..], t, second, u);
    }
  }

  lemma {:induction false} NoneClosedFound(s: System, steps: seq<Step>)
    requires CanRun(s, steps) && forall i :: 0 <= i < |steps| ==> !steps[i].CloseFound?
    ensures Found(s, steps)
    decreases |steps|
  {
    if steps == [] {
    } else {
      NoneClosedFound(Next(s, steps[0]), steps[1..]);
    }
  }

  lemma OneLeads(s: System, step: Step)
    requires Enabled(s, step) && !FindsSession(s, step)
    ensures Leads(s, [step], Next(s, step))
  {
  }

  lemma ActivationLeads(s: System, fd: Fd, c: Conn)
    requires Enabled(s, ActivateSection(fd, c))
    ensures Leads(s, OperationSteps(fd, c), Activated(s, fd, c))
  {
    SectionsMakeOperations(s, fd, c);
    NoneClosedFound(s, OperationSteps(fd, c));
  }

  lemma ClosingLeads(s: System, fd: Fd)
    requires Core(s) && ReaderRuns(s, fd)
    ensures Leads(s, CloseSteps(fd, s.asked), Deactivated(s, fd))
  {
    var erase := [ReadFails(fd), CloseFound(s.asked)];
    SectionsMakeCloseFD(s, fd);
    ReaderErases(s, fd);
    Finishes(Erased(s, fd), fd);
    assert Found(s, erase) by {
      assert erase[1..] == [CloseFound(s.asked)] && erase[1..][1..] == [];
    }
    NoneClosedFound(Erased(s, fd), FinishSteps(fd));
    LeadsOn(s, erase, Erased(s, fd), FinishSteps(fd), Finished(Erased(s, fd), fd));
  }

  const FIRST := Conn(1, OUTGOING)
  const SECOND := Conn(2, OUTGOING)

  // Descriptor 5 is looked up while its session is with peer 1, closed by the reader of that
  // session, and used again for peer 2.
  function ReusedSteps(look: Step): seq<Step>
  {
    OperationSteps(5, FIRST) + ([look] + (CloseSteps(5, 1) + OperationSteps(5, SECOND)))
  }

  // With these lookups pending: after the first session was set up, after it was closed, and
  // after the second one was set up.
  function Opened1(senders: map<Ticket, Fd>, closers: map<Ticket, Fd>, asked: Ticket): System
  {
    System(Maps(map[5 := FIRST], map[FIRST := 5], map[5 := []], map[5 := 0], 1, [Opened(0, FIRST)]),
           map[5 := FIRST], map[5 := Announced], map[], {}, senders, closers, asked)
  }

  function Closed1(senders: map<Ticket, Fd>, closers: map<Ticket, Fd>, asked: Ticket): System
  {
    System(Maps(map[], map[], map[], map[5 := 0], 1, [Opened(0, FIRST), Closed(0, FIRST)]),
           map[5 := FIRST], map[5 := Announced], map[5 := Told], {}, senders, closers, asked)
  }

  function Opened2(senders: map<Ticket, Fd>, closers: map<Ticket, Fd>, asked: Ticket): System
  {
    System(Maps(map[5 := SECOND], map[SECOND := 5], map[5 := []], map[5 := 1], 2,
                [Opened(0, FIRST), Closed(0, FIRST), Opened(1, SECOND)]),
           map[5 := SECOND], map[5 := Announced], map[], {}, senders, closers, asked)
  }

  lemma FirstOpens()
    ensures Leads(START, OperationSteps(5, FIRST), Opened1(map[], map[], 0))
  {
  }

  lemma FirstCloses(senders: map<Ticket, Fd>, closers: map<Ticket, Fd>)
    requires 1 !in closers
    ensures Leads(Opened1(senders, closers, 1), CloseSteps(5, 1), Closed1(senders, closers, 2))
  {
    var s := Opened1(senders, closers, 1);
    ClosingLeads(s, 5);
    assert s.maps.activeConns - {5} == map[] && s.maps.connToFd - {FIRST} == map[];
    assert s.maps.sendQueues - {5} == map[] && s.leaked - {5} == {} && closers - {1} == closers;
    assert Deactivated(s, 5) == Closed1(senders, closers, 2);
  }

  lemma SecondOpens(senders: map<Ticket, Fd>, closers: map<Ticket, Fd>, asked: Ticket)
    ensures Leads(Closed1(senders, closers, asked), OperationSteps(5, SECOND), Opened2(senders, closers, asked))
  {
    var s := Closed1(senders, closers, asked);
    ActivationLeads(s, 5, SECOND);
    assert s.closing - {5} == map[];
    assert Activated(s, 5, SECOND) == Opened2(senders, closers, asked);
  }

  lemma ReusedLeads(look: Step, senders: map<Ticket, Fd>, closers: map<Ticket, Fd>)
    requires 1 !in closers && Leads(Opened1(map[], map[], 0), [look], Opened1(senders, closers, 1))
    ensures Leads(START, ReusedSteps(look), Opened2(senders, closers, 2))
  {
    var r, s := Opened1(map[], map[], 0), Opened1(senders, closers, 1);
    var t, u := Closed1(senders, closers, 2), Opened2(senders, closers, 2);
    FirstOpens();
    FirstCloses(senders, closers);
    SecondOpens(senders, closers, 2);
    LeadsOn(s, CloseSteps(5, 1), t, OperationSteps(5, SECOND), u);
    LeadsOn(r, [look], s, CloseSteps(5, 1) + OperationSteps(5, SECOND), u);
    LeadsOn(START, OperationSteps(5, FIRST), r, [look] + (CloseSteps(5, 1) + OperationSteps(5, SECOND)), u);
  }

  // A message for peer 1 ends up in the queue of the session with peer 2, while no connection
  // with peer 1 is left.
  lemma MessageReachesOtherPeer(message: Message)
    ensures var steps := ReusedSteps(LookUp(1));
            CanRun(START, steps) && Found(START, steps) && Enabled(Run(START, steps), Push(0, message))
            && var u := Next(Run(START, steps), Push(0, message));
            Quiescent(u) && u.maps.activeConns == map[5 := SECOND] && u.maps.sendQueues == map[5 := [message]]
            && Route(u.maps, 1).None?
  {
    var s := Opened1(map[], map[], 0);
    assert Next(s, LookUp(1)) == Opened1(map[0 := 5], map[], 1);
    OneLeads(s, LookUp(1));
    ReusedLeads(LookUp(1), map[0 := 5], map[]);
    PushesToSecond(message);
  }

  lemma PushesToSecond(message: Message)
    ensures var s := Opened2(map[0 := 5], map[], 2);
            Enabled(s, Push(0, message))
            && var u := Next(s, Push(0, message));
            Quiescent(u) && u.maps == Opened2(map[], map[], 2).maps.(sendQueues := map[5 := [message]])
  {
    var s := Opened2(map[0 := 5], map[], 2);
    assert [] + [message] == [message];
    assert s.maps.sendQueues[5 := [message]] == map[5 := [message]];
  }

  // A CloseConn for peer 1 ends the session with peer 2.
  lemma CloseReachesOtherPeer()
    ensures var steps := ReusedSteps(LookUpConn(FIRST));
            CanRun(START, steps) && Found(START, steps) && Enabled(Run(START, steps), CloseFound(0))
            && Run(START, steps).maps.activeConns == map[5 := SECOND]
            && var u := Next(Run(START, steps), CloseFound(0));
            u.maps.activeConns == map[] && u.closing == map[5 := LostActive] && u.conn == map[5 := SECOND]
  {
    var s := Opened1(map[], map[], 0);
    assert Next(s, LookUpConn(FIRST)) == Opened1(map[], map[0 := 5], 1);
    OneLeads(s, LookUpConn(FIRST));
    ReusedLeads(LookUpConn(FIRST), map[], map[0 := 5]);
    assert map[5 := SECOND] - {5} == map[];
  }
}
