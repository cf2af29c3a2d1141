// The ConnectionManager object: the session maps, the send queues and the callbacks that
// work on them. Each method runs its critical sections without interruption; the
// interleavings are in Sessions, Routing and Delivery, whose step functions appear in the
// contracts.
module ConnectionManager {
  import opened Prelude
  import opened Framing
  import opened Sessions
  import R = Registry
  import E = EpollLoop
  import D = Delivery
  import A = AsyncFd

  datatype ReadResult = Received(message: Message) | ReadError

  class ConnectionManager {
    const loop: E.EpollLoop
    var activeConns: map<Fd, Conn>
    var connToFd: map<Conn, Fd>
    var sendQueues: map<Fd, seq<Message>>
    // What ipTransport_ was told, and the numbers of the sessions in it.
    ghost var notes: seq<Note>
    ghost var session: map<Fd, SessionId>
    ghost var begun: nat

    ghost function Model(): Maps
      reads this
    {
      Maps(activeConns, connToFd, sendQueues, session, begun, notes)
    }

    constructor (loop: E.EpollLoop)
      ensures this.loop == loop && Model() == NO_SESSIONS
    {
      this.loop := loop;
      activeConns, connToFd, sendQueues := map[], map[], map[];
      notes, session, begun := [], map[], 0;
    }

    // The end of a successful hello exchange, in either direction.
    method Established(fd: Fd, conn: Conn)
      modifies this
      ensures Model() == Activate(old(Model()), fd, conn)
      ensures activeConns == map[fd := conn] + old(activeConns) && connToFd == map[conn := fd] + old(connToFd)
      ensures sendQueues == map[fd := []] + old(sendQueues) && notes == old(notes) + [Opened(old(begun), conn)]
      ensures old(NamesActive(Model())) && fd !in old(activeConns) ==> NamesActive(Model())
      ensures old(NamesActive(Model()) && SameKeys(Model())) && fd !in old(activeConns) ==> SameKeys(Model())
    {
      ghost var was := Model();
      ActivateInserts(was, fd, conn);
      InsertSession(fd, conn);
      if NamesActive(was) && fd !in was.activeConns {
        ActivateKeeps(was, fd, conn);
      }
    }

    // The sections that insert the session.
    method InsertSession(fd: Fd, conn: Conn)
      modifies this
      ensures Model() == Activate(old(Model()), fd, conn)
    {
      if fd !in activeConns {
        activeConns := activeConns[fd := conn];
      }
      session, begun := session[fd := begun], begun + 1;
      if conn !in connToFd {
        connToFd := connToFd[conn := fd];
      }
      if fd !in sendQueues {
        sendQueues := sendQueues[fd := []];
      }
      notes := notes + [Opened(begun - 1, conn)];
    }

    method CloseFD(fd: Fd)
      modifies this, loop
      ensures Model() == Sessions.CloseFD(old(Model()), fd)
      ensures fd !in old(activeConns) ==> Model() == old(Model())
      ensures fd in old(activeConns) ==>
        activeConns == old(activeConns) - {fd} && connToFd == old(connToFd) - {old(activeConns)[fd]}
        && sendQueues == old(sendQueues) - {fd}
        && notes == old(notes) + [Closed(SessionOf(old(Model()), fd), old(activeConns)[fd])]
      ensures loop.Model() == R.Apply(R.DeregisterFd(old(loop.Model()), fd), R.CloseFd(fd))
      ensures old(R.Inv(loop.Model())) ==> R.Inv(loop.Model())
      ensures old(NamesActive(Model())) ==> NamesActive(Model())
    {
      ghost var was := Model();
      CloseSocket(fd);
      EraseSession(fd);
      if NamesActive(was) {
        CloseFDKeeps(was, fd);
      }
    }

    // DeregisterFd and close.
    method CloseSocket(fd: Fd)
      modifies loop
      ensures loop.Model() == R.Apply(R.DeregisterFd(old(loop.Model()), fd), R.CloseFd(fd))
      ensures old(R.Inv(loop.Model())) ==> R.Inv(loop.Model())
    {
      ghost var tables := loop.Model();
      loop.DeregisterFd(fd);
      loop.open, loop.interest := loop.open - {fd}, loop.interest - {fd};
      if R.Inv(tables) {
        R.DeregisterFdEffect(tables, fd);
        R.DeregisterFdKeepsInv(tables, fd);
        R.CloseKeepsInvIff(R.DeregisterFd(tables, fd), fd);
      }
    }

    // The sections that erase the session.
    method EraseSession(fd: Fd)
      modifies this
      ensures Model() == Sessions.CloseFD(old(Model()), fd)
    {
      if fd in activeConns {
        var conn := activeConns[fd];
        activeConns := activeConns - {fd};
        connToFd := connToFd - {conn};
        sendQueues := sendQueues - {fd};
        notes := notes + [Closed(SessionOf(old(Model()), fd), conn)];
      }
    }

    method CloseConn(peer: PeerId, which: Which)
      modifies this, loop
      ensures Model() == Sessions.CloseConn(old(Model()), peer, which)
      ensures old(R.Inv(loop.Model())) ==> R.Inv(loop.Model())
      ensures old(NamesActive(Model())) ==> NamesActive(Model())
      ensures old(NamesActive(Model())) && which == All ==> Route(Model(), peer).None?
      ensures old(NamesActive(Model())) ==> forall c :: c in connToFd <==> c in old(connToFd) && !AskedConn(peer, which, c)
      ensures old(NamesActive(Model())) ==>
                forall fd :: fd in activeConns <==> fd in old(activeConns) && !AskedFd(old(Model()), peer, which, fd)
      ensures old(NamesActive(Model())) ==>
                forall fd :: fd in sendQueues <==> fd in old(sendQueues) && !AskedFd(old(Model()), peer, which, fd)
      ensures old(NamesActive(Model())) ==>
                notes == old(notes)
                         + (if Asks(which, INCOMING) then ClosingOf(old(Model()), Conn(peer, INCOMING)) else [])
                         + (if Asks(which, OUTGOING) then ClosingOf(old(Model()), Conn(peer, OUTGOING)) else [])
      ensures old(NamesActive(Model())) ==>
                forall fd :: fd in loop.open <==> fd in old(loop.open) && !AskedFd(old(Model()), peer, which, fd)
      ensures old(NamesActive(Model())) ==>
                forall key :: key in loop.fdToCallback <==>
                  key in old(loop.fdToCallback) && !AskedFd(old(Model()), peer, which, key.fd)
    {
      ghost var was, kernel := Model(), loop.Model();
      if NamesActive(was) {
        CloseConnExactly(was, peer, which);
      }
      if which == All || which == OnlyIncoming {
        CloseNamed(Conn(peer, INCOMING));
      }
      ghost var half := Model();
      if NamesActive(was) && Asks(which, INCOMING) {
        CloseOneExactly(was, Conn(peer, INCOMING));
        assert forall fd :: Names(half, Conn(peer, OUTGOING), fd) <==> Names(was, Conn(peer, OUTGOING), fd);
      }
      if which == All || which == OnlyOutgoing {
        CloseNamed(Conn(peer, OUTGOING));
      }
    }

    // CloseConn for one direction.
    method CloseNamed(conn: Conn)
      modifies this, loop
      ensures Model() == CloseOne(old(Model()), conn)
      ensures forall fd :: fd in loop.open <==> fd in old(loop.open) && !Names(old(Model()), conn, fd)
      ensures forall key :: key in loop.fdToCallback <==> key in old(loop.fdToCallback) && !Names(old(Model()), conn, key.fd)
      ensures old(R.Inv(loop.Model())) ==> R.Inv(loop.Model())
      ensures old(NamesActive(Model())) ==> NamesActive(Model())
    {
      var fd := FindConn(conn);
      if fd.Some? {
        R.DeregisterFdDrops(loop.Model(), fd.value);
        CloseFD(fd.value);
      }
    }

    // CloseConn's section on connToFd. What CloseFD finds at fd later is in Routing.
    method FindConn(conn: Conn) returns (fd: Option<Fd>)
      ensures fd.Some? <==> conn in connToFd
      ensures fd.Some? ==> connToFd[conn] == fd.value
      ensures NamesActive(Model()) && fd.Some? ==> fd.value in activeConns && activeConns[fd.value] == conn
    {
      fd := if conn in connToFd then Some(connToFd[conn]) else None;
    }

    // SendMessage's section on connToFd. Whose session fd has later is in Routing.
    method FindRoute(peer: PeerId) returns (fd: Option<Fd>)
      ensures fd == Route(Model(), peer)
      ensures fd.None? <==> Conn(peer, OUTGOING) !in connToFd && Conn(peer, INCOMING) !in connToFd
      ensures Conn(peer, OUTGOING) in connToFd ==> fd == Some(connToFd[Conn(peer, OUTGOING)])
      ensures fd.Some? && Conn(peer, OUTGOING) !in connToFd ==> fd == Some(connToFd[Conn(peer, INCOMING)])
      ensures NamesActive(Model()) && fd.Some? ==> fd.value in activeConns && activeConns[fd.value].peer == peer
    {
      fd := None;
      if Conn(peer, OUTGOING) in connToFd {
        fd := Some(connToFd[Conn(peer, OUTGOING)]);
      } else if Conn(peer, INCOMING) in connToFd {
        fd := Some(connToFd[Conn(peer, INCOMING)]);
      }
    }

    // SendMessage's section on the queues, for whatever descriptor it found before. kick: the
    // caller goes on to SendMessageFd.
    method Enqueue(fd: Fd, message: Message) returns (kick: bool)
      modifies this`sendQueues
      ensures Model() == Pushed(old(Model()), fd, message)
      ensures kick <==> fd in old(sendQueues) && old(sendQueues)[fd] == []
      ensures fd in old(sendQueues) ==> forall l: D.Link :: l.queue == old(sendQueues)[fd] ==>
        D.DoAccept(l, message).queue == sendQueues[fd]
        && D.DoAccept(l, message).kicks == l.kicks + if kick then 1 else 0
    {
      if fd !in sendQueues {
        return false;
      }
      sendQueues := sendQueues[fd := sendQueues[fd] + [message]];
      kick := !(|sendQueues[fd]| > 1);
    }

    // Both sections with nothing in between. next: the descriptor SendMessageFd follows on.
    method SendMessage(peer: PeerId, message: Message) returns (next: Option<Fd>)
      modifies this`sendQueues
      ensures var fd := Route(old(Model()), peer);
              if fd.None? then next.None? && Model() == old(Model())
              else Model() == Pushed(old(Model()), fd.value, message)
                   && next == (if fd.value in old(sendQueues) && old(sendQueues)[fd.value] == [] then fd else None)
      ensures old(NamesActive(Model()) && SameKeys(Model())) && Route(old(Model()), peer).Some? ==>
                var fd := Route(old(Model()), peer).value;
                fd in activeConns && activeConns[fd].peer == peer
                && fd in old(sendQueues) && sendQueues[fd] == old(sendQueues)[fd] + [message]
    {
      var fd := FindRoute(peer);
      if fd.None? {
        return None;
      }
      var kick := Enqueue(fd.value, message);
      next := if kick then fd else None;
    }

    // The front message is moved out and handed to a new AsyncFd, whose callback is OnSent.
    // failed: the registration was refused, and OnSent runs at once with an error. aborted: the
    // front was moved out before, and assert(msg_len > 0) fired.
    method SendMessageFd(fd: Fd, id: R.ObjectId) returns (sender: Option<A.AsyncFd>, failed: bool, aborted: bool)
      requires loop.nextToken > 0
      modifies this, loop
      ensures sender.Some? <==> fd in old(sendQueues) && old(sendQueues)[fd] != []
      ensures sender.None? ==> !failed && !aborted && Model() == old(Model()) && loop.Model() == old(loop.Model())
      ensures sender.Some? ==>
        Model() == old(Model()).(sendQueues := old(sendQueues)[fd := old(sendQueues)[fd][0 := []]])
        && fresh(sender.value) && sender.value.Valid() && sender.value.fd == fd
        && aborted == (|old(sendQueues)[fd][0]| % U32_RANGE == 0)
      ensures aborted ==> !failed && loop.Model() == old(loop.Model())
      ensures sender.Some? && !aborted ==>
        var (tables, ok) := R.Register(old(loop.Model()), fd, R.OUTPUT, Some(id), Some(id));
        loop.Model() == tables && failed == !ok
        && (ok ==> sender.value.Sending() && sender.value.Sent() == 0 && sender.value.message == old(sendQueues)[fd][0])
      ensures fd in old(sendQueues) ==> forall l: D.Link :: l.queue == old(sendQueues)[fd] && l.kicks > 0 ==>
        D.DoKick(l).queue == sendQueues[fd]
        && (D.DoKick(l).aborted <==> l.aborted || aborted)
        && (sender.Some? && !failed && D.DoKick(l).pipe != l.pipe ==>
              sender.value.message == D.DoKick(l).pipe.started[|l.pipe.started|])
      ensures old(R.Inv(loop.Model())) ==> R.Inv(loop.Model())
    {
      if fd !in sendQueues || sendQueues[fd] == [] {
        return None, false, false;
      }
      var message := sendQueues[fd][0];
      sendQueues := sendQueues[fd := sendQueues[fd][0 := []]];
      var afd := new A.AsyncFd(id, fd, loop);
      var _, resolved, stopped := afd.SendMessage(message);
      return Some(afd), resolved.Some?, stopped;
    }

    // The callback of a finished send. A failed send is handled like a successful one.
    // next: SendMessageFd follows.
    method OnSent(fd: Fd) returns (next: bool)
      requires fd in activeConns && fd in sendQueues ==> sendQueues[fd] != []
      modifies this
      ensures fd in old(activeConns) && fd in old(sendQueues) ==>
        Model() == Popped(old(Model()), fd) && sendQueues == old(sendQueues)[fd := old(sendQueues)[fd][1..]]
        && (forall l: D.Link :: l.queue == old(sendQueues)[fd] && l.finishing > 0 ==>
              D.DoFinish(l).queue == sendQueues[fd] && D.DoFinish(l).kicks == l.kicks + if next then 1 else 0)
      ensures !(fd in old(activeConns) && fd in old(sendQueues)) ==> !next && Model() == old(Model())
    {
      if fd !in activeConns || fd !in sendQueues {
        return false;
      }
      sendQueues := sendQueues[fd := sendQueues[fd][1..]];
      next := sendQueues[fd] != [];
    }

    // The callback of ReadMessage. passedOn: what OnMessageReceived gets. again: a new
    // ReadMessage follows.
    method OnRead(fd: Fd, result: ReadResult) returns (passedOn: Option<(PeerId, Message)>, again: bool)
      modifies this, loop
      ensures fd !in old(activeConns) ==>
        passedOn.None? && !again && Model() == old(Model()) && loop.Model() == old(loop.Model())
      ensures fd in old(activeConns) && result.Received? ==>
        passedOn == Some((old(activeConns)[fd].peer, result.message)) && again
        && Model() == old(Model()) && loop.Model() == old(loop.Model())
      ensures fd in old(activeConns) && result.ReadError? ==>
        passedOn.None? && !again && Model() == Sessions.CloseFD(old(Model()), fd)
        && notes == old(notes) + [Closed(SessionOf(old(Model()), fd), old(activeConns)[fd])]
      ensures old(NamesActive(Model())) ==> NamesActive(Model())
    {
      if fd !in activeConns {
        return None, false;
      }
      var conn := activeConns[fd];
      if result.ReadError? {
        CloseFD(fd);
        return None, false;
      }
      return Some((conn.peer, result.message)), true;
    }
  }
}
