// The BroadcastManager object. ProcessHello and the timer callback run on the epoll thread,
// so each is one step; their contracts are the functions of Discovery.
module BroadcastManager {
  import opened Prelude
  import opened Discovery
  import R = Registry
  import E = EpollLoop

  // Creating a timer descriptor (-1 when that fails) and registering its callback.
  function TimerCreated(loop: R.Tables, tfd: Fd): TimerOutcome
  {
    if tfd == -1 then NoTimer
    else if R.Register(loop, tfd, R.INPUT, None, None).1 then Timer(tfd, loop.nextToken)
    else NotRegistered
  }

  // The timer is registered, under the token stored with its peer.
  predicate TimerRegistered(t: Tables, loop: R.Tables, fd: Fd)
    requires fd in t.fdToPeer
  {
    var token, key := t.fdToPeer[fd].1, R.FdDirection(fd, R.INPUT);
    token in loop.cancelMap && loop.cancelMap[token] == key && key in loop.fdToCallback
  }

  // The manager and the loop agree about all timers.
  ghost predicate TimersRegistered(t: Tables, loop: R.Tables)
  {
    forall fd :: fd in t.fdToPeer ==> TimerRegistered(t, loop, fd)
  }

  lemma HelloKeepsTimers(t: Tables, loop: R.Tables, sender: Address, peer: PeerId, needNotify: bool, tfd: Fd, ifname: string)
    requires TimersRegistered(t, loop) && R.TokensCover(loop)
    ensures var u := Hello(t, sender, peer, needNotify, TimerCreated(loop, tfd), ifname);
            TimersRegistered(u, R.Register(loop, tfd, R.INPUT, None, None).0)
            && (tfd == -1 || !StartsTracking(t, peer, TimerCreated(loop, tfd)) ==> TimersRegistered(u, loop))
  {
    assert R.FdDirection(tfd, R.INPUT) !in loop.fdToCallback ==> tfd !in t.fdToPeer;
  }

  // Losing a peer deregisters its timer and no other action.
  lemma PeerLostKeepsTimers(t: Tables, loop: R.Tables, fd: Fd)
    requires TimersRegistered(t, loop) && fd in t.fdToPeer
    ensures var after := R.DeregisterAction(loop, t.fdToPeer[fd].1).0;
            TimersRegistered(PeerLost(t, fd), after)
            && (forall key :: key in after.fdToCallback <==> key in loop.fdToCallback && key != R.FdDirection(fd, R.INPUT))
  {
    R.TokenForgotten(loop, t.fdToPeer[fd].1);
  }

  function AllGone(t: Tables, ifnames: seq<string>): Tables
  {
    if ifnames == [] then t
    else InterfaceGone(AllGone(t, ifnames[..|ifnames| - 1]), ifnames[|ifnames| - 1])
  }

  predicate Distinct(ifnames: seq<string>)
  {
    forall i, j :: 0 <= i < j < |ifnames| ==> ifnames[i] != ifnames[j]
  }

  function Names(ifnames: seq<string>): set<string>
    ensures forall name :: name in Names(ifnames) <==> name in ifnames
  {
    if ifnames == [] then {}
    else
      assert ifnames == ifnames[..|ifnames| - 1] + [ifnames[|ifnames| - 1]];
      Names(ifnames[..|ifnames| - 1]) + {ifnames[|ifnames| - 1]}
  }

  function LostNotes(ifToPeer: map<string, PeerId>, ifnames: seq<string>): (notes: seq<Note>)
    requires forall name :: name in ifnames ==> name in ifToPeer
    ensures |notes| == |ifnames| && forall i :: 0 <= i < |ifnames| ==> notes[i] == Lost(ifToPeer[ifnames[i]])
  {
    if ifnames == [] then []
    else LostNotes(ifToPeer, ifnames[..|ifnames| - 1]) + [Lost(ifToPeer[ifnames[|ifnames| - 1]])]
  }

  lemma LostNotesSnoc(ifToPeer: map<string, PeerId>, ifnames: seq<string>, name: string)
    requires name in ifToPeer && forall other :: other in ifnames ==> other in ifToPeer
    ensures LostNotes(ifToPeer, ifnames + [name]) == LostNotes(ifToPeer, ifnames) + [Lost(ifToPeer[name])]
  {
  }

  class BroadcastManager {
    const self: PeerId
    const loop: E.EpollLoop
    var peerToFd: map<PeerId, Fd>
    var fdToPeer: map<Fd, (PeerId, Token)>
    var peerToAddr: map<PeerId, Address>
    var addrToPeer: map<Address, PeerId>
    var ifToPeer: map<string, PeerId>
    var notes: seq<Note>

    function Model(): Tables
      reads this
    {
      Tables(self, peerToFd, fdToPeer, peerToAddr, addrToPeer, ifToPeer, notes)
    }

    constructor (self: PeerId, loop: E.EpollLoop)
      ensures this.self == self && this.loop == loop && Model() == NoNeighbours(self)
    {
      this.self, this.loop := self, loop;
      peerToFd, fdToPeer, peerToAddr, addrToPeer, ifToPeer := map[], map[], map[], map[], map[];
      notes := [];
    }

    // tfd: the descriptor timerfd_create would return. rearmed: the timer set again.
    method ProcessHello(sender: Address, peer: PeerId, needNotify: bool, tfd: Fd, ifname: string)
      returns (rearmed: Option<Fd>)
      modifies this, loop
      ensures Model() == Hello(old(Model()), sender, peer, needNotify, TimerCreated(old(loop.Model()), tfd), ifname)
      ensures rearmed == (if peer != self && Tracked(old(Model()), peer) then Some(TimerOf(old(Model()), peer)) else None)
      ensures loop.Model() == if peer != self && !Tracked(old(Model()), peer) && tfd != -1
                              then R.Register(old(loop.Model()), tfd, R.INPUT, None, None).0
                              else old(loop.Model())
      ensures old(Inv(Model())) && tfd != 0 && tfd !in old(fdToPeer) ==> Inv(Model())
      ensures old(R.Inv(loop.Model())) ==> R.Inv(loop.Model())
      ensures old(TimersRegistered(Model(), loop.Model()) && R.TokensCover(loop.Model())) ==>
                TimersRegistered(Model(), loop.Model())
      ensures old(StartsTracking(Model(), peer, TimerCreated(loop.Model(), tfd))) && tfd !in old(fdToPeer) ==>
                TimerOf(Model(), peer) == tfd && Discovery.GetAddress(Model(), peer) == Some(sender)
                && Discovery.GetPeer(Model(), sender) == Some(peer) && ifname in ifToPeer && ifToPeer[ifname] == peer
                && notes == old(notes) + if needNotify then [Found(peer)] else []
    {
      ghost var was, outcome := Model(), TimerCreated(loop.Model(), tfd);
      ghost var tables := loop.Model();
      rearmed := HandleHello(sender, peer, needNotify, tfd, ifname);
      if Inv(was) && tfd != 0 && tfd !in was.fdToPeer {
        HelloKeepsInv(was, sender, peer, needNotify, outcome, ifname);
      }
      if TimersRegistered(was, tables) && R.TokensCover(tables) {
        HelloKeepsTimers(was, tables, sender, peer, needNotify, tfd, ifname);
      }
      if tfd !in was.fdToPeer {
        HelloEffect(was, sender, peer, needNotify, outcome, ifname);
      }
    }

    method HandleHello(sender: Address, peer: PeerId, needNotify: bool, tfd: Fd, ifname: string)
      returns (rearmed: Option<Fd>)
      modifies this, loop
      ensures Model() == Hello(old(Model()), sender, peer, needNotify, TimerCreated(old(loop.Model()), tfd), ifname)
      ensures rearmed == (if peer != self && Tracked(old(Model()), peer) then Some(TimerOf(old(Model()), peer)) else None)
      ensures loop.Model() == if peer != self && !Tracked(old(Model()), peer) && tfd != -1
                              then R.Register(old(loop.Model()), tfd, R.INPUT, None, None).0
                              else old(loop.Model())
      ensures old(R.Inv(loop.Model())) ==> R.Inv(loop.Model())
    {
      rearmed := None;
      if peer == self {
        return;
      }
      var timer := Lookup(peer);
      if timer != 0 {
        return Some(timer);
      }
      if tfd == -1 {
        return;
      }
      var ok, token := loop.RegisterAction(tfd, R.INPUT, None, None);
      if ok {
        Insert(sender, peer, needNotify, tfd, token, ifname);
      }
    }

    // The first critical section: peerToFd_[msg.id].
    method Lookup(peer: PeerId) returns (timer: Fd)
      modifies this`peerToFd
      ensures timer == TimerOf(old(Model()), peer)
      ensures Model() == old(Model()).(peerToFd := old(peerToFd)[peer := timer])
    {
      if peer !in peerToFd {
        peerToFd := peerToFd[peer := 0];
      }
      timer := peerToFd[peer];
    }

    // The second critical section and the notification.
    method Insert(sender: Address, peer: PeerId, needNotify: bool, tfd: Fd, token: Token, ifname: string)
      modifies this
      ensures Model() == Track(old(Model()), sender, peer, needNotify, tfd, token, ifname)
    {
      peerToFd := peerToFd[peer := tfd];
      if tfd !in fdToPeer {
        fdToPeer := fdToPeer[tfd := (peer, token)];
      }
      peerToAddr := peerToAddr[peer := sender];
      addrToPeer := addrToPeer[sender := peer];
      ifToPeer := ifToPeer[ifname := peer];
      if needNotify {
        notes := notes + [Found(peer)];
      }
    }

    method ProcessPeerLost(fd: Fd)
      modifies this, loop
      ensures Model() == PeerLost(old(Model()), fd)
      ensures loop.Model() == if fd in old(fdToPeer) then R.DeregisterAction(old(loop.Model()), old(fdToPeer)[fd].1).0
                              else old(loop.Model())
      ensures old(Inv(Model())) ==> Inv(Model())
      ensures old(R.Inv(loop.Model())) ==> R.Inv(loop.Model())
      ensures old(TimersRegistered(Model(), loop.Model())) ==> TimersRegistered(Model(), loop.Model())
      ensures old(TimersRegistered(Model(), loop.Model())) && fd in old(fdToPeer) ==>
                forall key :: key in loop.fdToCallback <==> key in old(loop.fdToCallback) && key != R.FdDirection(fd, R.INPUT)
    {
      ghost var was, tables := Model(), loop.Model();
      HandlePeerLost(fd);
      if Inv(was) {
        PeerLostKeepsInv(was, fd);
      }
      if TimersRegistered(was, tables) && fd in was.fdToPeer {
        PeerLostKeepsTimers(was, tables, fd);
      }
    }

    method HandlePeerLost(fd: Fd)
      modifies this, loop
      ensures Model() == PeerLost(old(Model()), fd)
      ensures loop.Model() == if fd in old(fdToPeer) then R.DeregisterAction(old(loop.Model()), old(fdToPeer)[fd].1).0
                              else old(loop.Model())
      ensures old(R.Inv(loop.Model())) ==> R.Inv(loop.Model())
    {
      if fd !in fdToPeer {
        return;
      }
      var (peer, token) := fdToPeer[fd];
      var addr := if peer in peerToAddr then peerToAddr[peer] else 0;
      var _ := loop.DeregisterAction(token);
      peerToFd := peerToFd - {peer};
      fdToPeer := fdToPeer - {fd};
      peerToAddr := peerToAddr - {peer};
      addrToPeer := addrToPeer - {addr};
      notes := notes + [Lost(peer)];
    }

    // present: the interfaces that are up. removed: the others a neighbour was heard on.
    // closed: the peers CloseSession is called for, in both directions. sent: the hellos, by
    // the id they carry, that go to the broadcast addresses of the interfaces.
    method ProcessNetworkUpdate(present: set<string>, addrs: seq<Address>)
      returns (removed: seq<string>, closed: seq<PeerId>, sent: seq<(Address, PeerId)>)
      modifies this`ifToPeer, this`notes
      ensures Distinct(removed) && |closed| == |removed|
      ensures forall name :: name in removed <==> name in old(ifToPeer) && name !in present
      ensures forall i :: 0 <= i < |removed| ==> closed[i] == old(ifToPeer)[removed[i]]
      ensures |sent| == |addrs| && forall i :: 0 <= i < |addrs| ==> sent[i] == (addrs[i], self)
      ensures forall name :: name in ifToPeer <==> name in old(ifToPeer) && name in present
      ensures forall name :: name in ifToPeer ==> ifToPeer[name] == old(ifToPeer)[name]
      ensures |notes| == |old(notes)| + |removed| && notes[..|old(notes)|] == old(notes)
      ensures forall i :: 0 <= i < |removed| ==> notes[|old(notes)| + i] == Lost(closed[i])
      ensures Model() == AllGone(old(Model()), removed)
      ensures old(Inv(Model())) ==> Inv(Model())
    {
      removed, closed := NotifyVanished(present);
      EraseAll(removed);
      sent := SendBroadcastHello(addrs);
      AllGoneEffect(old(Model()), removed);
      if old(Inv(Model())) {
        AllGoneKeepsInv(old(Model()), removed);
      }
    }

    // A hello to every broadcast address, whether the ones before it could be sent or not.
    method SendBroadcastHello(addrs: seq<Address>) returns (sent: seq<(Address, PeerId)>)
      ensures |sent| == |addrs| && forall i :: 0 <= i < |addrs| ==> sent[i] == (addrs[i], self)
    {
      sent := [];
      for i := 0 to |addrs|
        invariant |sent| == i && forall k :: 0 <= k < i ==> sent[k] == (addrs[k], self)
      {
        sent := sent + [(addrs[i], self)];
      }
    }

    method NotifyVanished(present: set<string>) returns (removed: seq<string>, closed: seq<PeerId>)
      modifies this`notes
      ensures Distinct(removed) && |closed| == |removed|
      ensures forall name :: name in removed <==> name in ifToPeer && name !in present
      ensures forall i :: 0 <= i < |removed| ==> closed[i] == ifToPeer[removed[i]]
      ensures notes == old(notes) + LostNotes(ifToPeer, removed)
    {
      removed, closed := [], [];
      var todo := ifToPeer.Keys;
      while todo != {}
        invariant todo <= ifToPeer.Keys
        invariant Distinct(removed) && |closed| == |removed|
        invariant forall name :: name in removed <==> name in ifToPeer && name !in todo && name !in present
        invariant forall i :: 0 <= i < |removed| ==> closed[i] == ifToPeer[removed[i]]
        invariant notes == old(notes) + LostNotes(ifToPeer, removed)
        decreases |todo|
      {
        var name :| name in todo;
        todo := todo - {name};
        if name !in present {
          LostNotesSnoc(ifToPeer, removed, name);
          removed, closed := removed + [name], closed + [ifToPeer[name]];
          notes := notes + [Lost(ifToPeer[name])];
        }
      }
    }

    method EraseAll(removed: seq<string>)
      modifies this`ifToPeer
      ensures ifToPeer == old(ifToPeer) - Names(removed)
    {
      for i := 0 to |removed|
        invariant ifToPeer == old(ifToPeer) - Names(removed[..i])
      {
        assert removed[..i + 1][..i] == removed[..i];
        ifToPeer := ifToPeer - {removed[i]};
      }
      assert removed[..|removed|] == removed;
    }

    method GetAddress(peer: PeerId) returns (addr: Option<Address>)
      ensures addr == Discovery.GetAddress(Model(), peer)
      ensures Inv(Model()) ==> (addr.Some? <==> Tracked(Model(), peer))
    {
      addr := if peer in peerToAddr then Some(peerToAddr[peer]) else None;
    }

    method GetPeer(addr: Address) returns (peer: Option<PeerId>)
      ensures peer == Discovery.GetPeer(Model(), addr)
      ensures Inv(Model()) && peer.Some? ==> Discovery.GetAddress(Model(), peer.value) == Some(addr)
      ensures Inv(Model()) && Reversible(Model()) ==>
        forall p: PeerId :: Discovery.GetAddress(Model(), p) == Some(addr) <==> peer == Some(p)
    {
      peer := if addr in addrToPeer then Some(addrToPeer[addr]) else None;
    }
  }

  lemma {:induction false} AllGoneKeepsInv(t: Tables, ifnames: seq<string>)
    requires Inv(t)
    ensures Inv(AllGone(t, ifnames))
  {
    if ifnames == [] {
    } else {
      AllGoneKeepsInv(t, ifnames[..|ifnames| - 1]);
      InterfaceGoneKeepsInv(AllGone(t, ifnames[..|ifnames| - 1]), ifnames[|ifnames| - 1]);
    }
  }

  // Notifying about all vanished interfaces and then erasing them is handling each in turn.
  lemma {:induction false} AllGoneEffect(t: Tables, ifnames: seq<string>)
    requires Distinct(ifnames) && forall name :: name in ifnames ==> name in t.ifToPeer
    ensures AllGone(t, ifnames)
            == t.(ifToPeer := t.ifToPeer - Names(ifnames), notes := t.notes + LostNotes(t.ifToPeer, ifnames))
  {
    if ifnames == [] {
    } else {
      var front, last := ifnames[..|ifnames| - 1], ifnames[|ifnames| - 1];
      AllGoneEffect(t, front);
      assert last !in front;
      assert t.ifToPeer - Names(front) - {last} == t.ifToPeer - Names(ifnames);
    }
  }
}
