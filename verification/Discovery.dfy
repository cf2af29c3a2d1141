// The tables of BroadcastManager: which neighbours are tracked, under which timer and at
// which address, and the notifications about them.
module Discovery {
  import opened Prelude

  type PeerId = nat
  type Fd = int
  type Token = nat
  type Address = int

  const LOST_PEER_DELAY: nat := 10

  // OnNeighborFound and OnNeighborLost.
  datatype Note = Found(peer: PeerId) | Lost(peer: PeerId)

  datatype Tables = Tables(
    self: PeerId,
    peerToFd: map<PeerId, Fd>,
    fdToPeer: map<Fd, (PeerId, Token)>,
    peerToAddr: map<PeerId, Address>,
    addrToPeer: map<Address, PeerId>,
    ifToPeer: map<string, PeerId>,
    notes: seq<Note>)

  function NoNeighbours(self: PeerId): Tables
  {
    Tables(self, map[], map[], map[], map[], map[], [])
  }

  // What creating and registering a neighbour timer came to.
  datatype TimerOutcome = NoTimer | NotRegistered | Timer(fd: Fd, token: Token)

  // peerToFd_[peer], which adds a zero entry for an unknown peer.
  function TimerOf(t: Tables, peer: PeerId): Fd
  {
    if peer in t.peerToFd then t.peerToFd[peer] else 0
  }

  function Hello(t: Tables, sender: Address, peer: PeerId, needNotify: bool, timer: TimerOutcome, ifname: string): Tables
  {
    if peer == t.self then t
    else
      var seen := t.(peerToFd := t.peerToFd[peer := TimerOf(t, peer)]);
      if TimerOf(t, peer) != 0 || !timer.Timer? then seen
      else Track(seen, sender, peer, needNotify, timer.fd, timer.token, ifname)
  }

  function Track(t: Tables, sender: Address, peer: PeerId, needNotify: bool, fd: Fd, token: Token, ifname: string): Tables
  {
    t.(peerToFd := t.peerToFd[peer := fd],
       fdToPeer := if fd in t.fdToPeer then t.fdToPeer else t.fdToPeer[fd := (peer, token)],
       peerToAddr := t.peerToAddr[peer := sender],
       addrToPeer := t.addrToPeer[sender := peer],
       ifToPeer := t.ifToPeer[ifname := peer],
       notes := if needNotify then t.notes + [Found(peer)] else t.notes)
  }

  function PeerLost(t: Tables, fd: Fd): Tables
  {
    if fd !in t.fdToPeer then t
    else
      var peer := t.fdToPeer[fd].0;
      var addr := if peer in t.peerToAddr then t.peerToAddr[peer] else 0;
      t.(peerToFd := t.peerToFd - {peer}, fdToPeer := t.fdToPeer - {fd},
         peerToAddr := t.peerToAddr - {peer}, addrToPeer := t.addrToPeer - {addr},
         notes := t.notes + [Lost(peer)])
  }

  // ProcessNetworkUpdate for one interface that is no longer there.
  function InterfaceGone(t: Tables, ifname: string): Tables
  {
    if ifname !in t.ifToPeer then t
    else t.(ifToPeer := t.ifToPeer - {ifname}, notes := t.notes + [Lost(t.ifToPeer[ifname])])
  }

  function GetAddress(t: Tables, peer: PeerId): Option<Address>
  {
    if peer in t.peerToAddr then Some(t.peerToAddr[peer]) else None
  }

  function GetPeer(t: Tables, addr: Address): Option<PeerId>
  {
    if addr in t.addrToPeer then Some(t.addrToPeer[addr]) else None
  }

  predicate Tracked(t: Tables, peer: PeerId)
  {
    TimerOf(t, peer) != 0
  }

  /* Runs, with a logical clock in seconds. */

  // deadline: when each timer next expires. heard: when each peer's last hello came.
  datatype System = System(tables: Tables, now: nat, deadline: map<Fd, nat>, heard: map<PeerId, nat>)

  datatype Step =
    | Tick
    | HelloFrom(sender: Address, peer: PeerId, needNotify: bool, timer: TimerOutcome, ifname: string)
    | TimerEvent(fd: Fd)
    | Interface(ifname: string)

  function Start(self: PeerId): System
  {
    System(NoNeighbours(self), 0, map[], map[])
  }

  // The kernel gives out descriptors that are not in use; 0 is standard input.
  predicate Enabled(s: System, step: Step)
  {
    step.HelloFrom? && step.timer.Timer? ==> step.timer.fd > 0 && step.timer.fd !in s.tables.fdToPeer
  }

  function Next(s: System, step: Step): System
    requires Enabled(s, step)
  {
    match step
    case Tick => s.(now := s.now + 1)
    case HelloFrom(sender, peer, needNotify, timer, ifname) =>
      var t := Hello(s.tables, sender, peer, needNotify, timer, ifname);
      if peer == s.tables.self then s
      else s.(tables := t, heard := s.heard[peer := s.now],
              deadline := if TimerOf(t, peer) != 0 then s.deadline[TimerOf(t, peer) := s.now + LOST_PEER_DELAY] else s.deadline)
    case TimerEvent(fd) => s.(tables := PeerLost(s.tables, fd))
    case Interface(ifname) => s.(tables := InterfaceGone(s.tables, ifname))
  }

  predicate CanRun(s: System, steps: seq<Step>)
    decreases |steps|
  {
    steps == [] || (Enabled(s, steps[0]) && CanRun(Next(s, steps[0]), steps[1..]))
  }

  function Run(s: System, steps: seq<Step>): System
    requires CanRun(s, steps)
    decreases |steps|
  {
    if steps == [] then s else Run(Next(s, steps[0]), steps[1..])
  }

  /* The tables agree. */

  ghost predicate Inv(t: Tables)
  {
    && (forall p :: p in t.peerToFd && t.peerToFd[p] != 0 ==> t.peerToFd[p] in t.fdToPeer && t.fdToPeer[t.peerToFd[p]].0 == p)
    && (forall fd :: fd in t.fdToPeer ==> fd != 0 && TimerOf(t, t.fdToPeer[fd].0) == fd)
    && (forall p :: p in t.peerToAddr <==> Tracked(t, p))
    && (forall a :: a in t.addrToPeer ==> GetAddress(t, t.addrToPeer[a]) == Some(a))
    && !Tracked(t, t.self)
  }

  // The zero entry that looking a peer up leaves behind changes nothing.
  lemma LookupKeepsInv(t: Tables, peer: PeerId)
    requires Inv(t)
    ensures Inv(t.(peerToFd := t.peerToFd[peer := TimerOf(t, peer)]))
  {
  }

  lemma TrackKeepsInv(t: Tables, sender: Address, peer: PeerId, needNotify: bool, fd: Fd, token: Token, ifname: string)
    requires Inv(t) && peer != t.self && !Tracked(t, peer) && fd != 0 && fd !in t.fdToPeer
    ensures Inv(Track(t, sender, peer, needNotify, fd, token, ifname))
  {
  }

  lemma HelloKeepsInv(t: Tables, sender: Address, peer: PeerId, needNotify: bool, timer: TimerOutcome, ifname: string)
    requires Inv(t) && (timer.Timer? ==> timer.fd != 0 && timer.fd !in t.fdToPeer)
    ensures Inv(Hello(t, sender, peer, needNotify, timer, ifname))
    ensures Hello(t, sender, peer, needNotify, timer, ifname).self == t.self
  {
    LookupKeepsInv(t, peer);
    var seen := t.(peerToFd := t.peerToFd[peer := TimerOf(t, peer)]);
    if peer != t.self && TimerOf(t, peer) == 0 && timer.Timer? {
      TrackKeepsInv(seen, sender, peer, needNotify, timer.fd, timer.token, ifname);
    }
  }

  lemma PeerLostKeepsInv(t: Tables, fd: Fd)
    requires Inv(t)
    ensures Inv(PeerLost(t, fd)) && PeerLost(t, fd).self == t.self
    ensures fd in t.fdToPeer ==> Tracked(t, t.fdToPeer[fd].0) && !Tracked(PeerLost(t, fd), t.fdToPeer[fd].0)
    ensures forall p :: Tracked(PeerLost(t, fd), p) <==> Tracked(t, p) && !(fd in t.fdToPeer && t.fdToPeer[fd].0 == p)
  {
  }

  lemma InterfaceGoneKeepsInv(t: Tables, ifname: string)
    requires Inv(t)
    ensures Inv(InterfaceGone(t, ifname)) && InterfaceGone(t, ifname).self == t.self
  {
  }

  lemma StepKeepsInv(s: System, step: Step)
    requires Inv(s.tables) && Enabled(s, step)
    ensures Inv(Next(s, step).tables) && Next(s, step).tables.self == s.tables.self
  {
    match step
    case Tick =>
    case HelloFrom(sender, peer, needNotify, timer, ifname) =>
      HelloKeepsInv(s.tables, sender, peer, needNotify, timer, ifname);
    case TimerEvent(fd) => PeerLostKeepsInv(s.tables, fd);
    case Interface(ifname) => InterfaceGoneKeepsInv(s.tables, ifname);
  }

  lemma {:induction false} RunKeepsInv(s: System, steps: seq<Step>)
    requires Inv(s.tables) && CanRun(s, steps)
    ensures Inv(Run(s, steps).tables) && Run(s, steps).tables.self == s.tables.self
    decreases |steps|
  {
    if steps == [] {
    } else {
      StepKeepsInv(s, steps[0]);
      RunKeepsInv(Next(s, steps[0]), steps[1..]);
    }
  }

  // In every reachable state: timers and tracked peers name each other, an address is known
  // exactly for tracked peers, a peer looked up by address has that address (also when
  // peers share it), and the node itself is never tracked.
  lemma DiscoveryTablesAgree(self: PeerId, steps: seq<Step>)
    requires CanRun(Start(self), steps)
    ensures var t := Run(Start(self), steps).tables;
            (forall p, fd :: fd != 0 ==> (TimerOf(t, p) == fd <==> fd in t.fdToPeer && t.fdToPeer[fd].0 == p))
            && (forall p :: GetAddress(t, p).Some? <==> Tracked(t, p))
            && (forall a :: GetPeer(t, a).Some? ==> GetAddress(t, GetPeer(t, a).value) == Some(a))
            && !Tracked(t, self) && GetAddress(t, self).None?
            && (forall a :: GetPeer(t, a) != Some(self))
  {
    RunKeepsInv(Start(self), steps);
    var t := Run(Start(self), steps).tables;
    forall p, fd | fd != 0 ensures TimerOf(t, p) == fd <==> fd in t.fdToPeer && t.fdToPeer[fd].0 == p {
    }
    forall a ensures GetPeer(t, a) != Some(self) {
      if a in t.addrToPeer {
        assert GetAddress(t, t.addrToPeer[a]) == Some(a);
      }
    }
  }

  // Looking up every tracked peer's address leads back to it.
  ghost predicate Reversible(t: Tables)
  {
    forall p :: p in t.peerToAddr ==> GetPeer(t, t.peerToAddr[p]) == Some(p)
  }

  predicate StartsTracking(t: Tables, peer: PeerId, timer: TimerOutcome)
  {
    peer != t.self && !Tracked(t, peer) && timer.Timer?
  }

  // A hello keeps the reverse lookup exact unless it starts tracking a peer at an address
  // that a tracked peer already has.
  lemma ReversibleKeptIff(t: Tables, sender: Address, peer: PeerId, needNotify: bool, timer: TimerOutcome, ifname: string)
    requires Inv(t) && Reversible(t)
    ensures Reversible(Hello(t, sender, peer, needNotify, timer, ifname))
            <==> !(StartsTracking(t, peer, timer) && GetPeer(t, sender).Some?)
  {
  }

  // Two peers heard from one address: looking up the first one's address finds the second, and
  // once the first is lost, nobody.
  lemma SharedAddress()
    ensures var t := Hello(NoNeighbours(0), 7, 1, true, Timer(3, 1), "if");
            var u := Hello(t, 7, 2, true, Timer(4, 2), "if");
            Reversible(t) && !Reversible(u) && GetPeer(u, 7) == Some(2)
            && GetPeer(PeerLost(u, 3), 7).None? && GetAddress(PeerLost(u, 3), 2) == Some(7)
  {
  }

  lemma PeerLostKeepsReversible(t: Tables, fd: Fd)
    requires Inv(t) && Reversible(t)
    ensures Reversible(PeerLost(t, fd))
  {
  }

  /* What a hello and an expired timer change. */

  // The other peers, addresses and interfaces keep what is known about them.
  ghost predicate SameBut(t: Tables, u: Tables, peer: PeerId, addr: Address)
  {
    && (forall p :: p != peer ==> TimerOf(u, p) == TimerOf(t, p) && GetAddress(u, p) == GetAddress(t, p))
    && (forall a :: a != addr ==> GetPeer(u, a) == GetPeer(t, a))
  }

  // A hello that starts tracking its sender makes it known under its timer, its address and its
  // interface; any other hello changes nothing that can be asked for.
  lemma HelloEffect(t: Tables, sender: Address, peer: PeerId, needNotify: bool, timer: TimerOutcome, ifname: string)
    requires timer.Timer? ==> timer.fd !in t.fdToPeer
    ensures var u := Hello(t, sender, peer, needNotify, timer, ifname);
            SameBut(t, u, peer, sender)
            && if StartsTracking(t, peer, timer) then
                 TimerOf(u, peer) == timer.fd && u.fdToPeer == t.fdToPeer[timer.fd := (peer, timer.token)]
                 && GetAddress(u, peer) == Some(sender) && GetPeer(u, sender) == Some(peer)
                 && u.ifToPeer == t.ifToPeer[ifname := peer]
                 && u.notes == t.notes + if needNotify then [Found(peer)] else []
               else
                 TimerOf(u, peer) == TimerOf(t, peer) && u.fdToPeer == t.fdToPeer
                 && GetAddress(u, peer) == GetAddress(t, peer) && GetPeer(u, sender) == GetPeer(t, sender)
                 && u.ifToPeer == t.ifToPeer && u.notes == t.notes
  {
  }

  // An expired timer makes its peer unknown, and its address too, whoever else is there; the
  // interface keeps its peer.
  lemma PeerLostEffect(t: Tables, fd: Fd)
    requires Inv(t)
    ensures var u := PeerLost(t, fd);
            if fd in t.fdToPeer then
              var peer := t.fdToPeer[fd].0;
              GetAddress(t, peer).Some? && SameBut(t, u, peer, GetAddress(t, peer).value)
              && TimerOf(u, peer) == 0 && u.fdToPeer == t.fdToPeer - {fd}
              && GetAddress(u, peer).None? && GetPeer(u, GetAddress(t, peer).value).None?
              && u.ifToPeer == t.ifToPeer && u.notes == t.notes + [Lost(peer)]
            else u == t
  {
  }

  // The last peer that started being tracked on the interface since it was last removed.
  ghost function LastOn(self: PeerId, steps: seq<Step>, ifname: string): Option<PeerId>
    requires CanRun(Start(self), steps)
  {
    if steps == [] then None
    else
      var front, last := steps[..|steps| - 1], steps[|steps| - 1];
      assert steps == front + [last];
      RunSnoc(Start(self), front, last);
      match last
      case HelloFrom(_, peer, _, timer, name) =>
        if name == ifname && StartsTracking(Run(Start(self), front).tables, peer, timer) then Some(peer)
        else LastOn(self, front, ifname)
      case Interface(name) => if name == ifname then None else LastOn(self, front, ifname)
      case _ => LastOn(self, front, ifname)
  }

  function PeerOn(t: Tables, ifname: string): Option<PeerId>
  {
    if ifname in t.ifToPeer then Some(t.ifToPeer[ifname]) else None
  }

  lemma StepInterface(s: System, step: Step, ifname: string)
    requires Enabled(s, step)
    ensures PeerOn(Next(s, step).tables, ifname) ==
            if step.HelloFrom? && step.ifname == ifname && StartsTracking(s.tables, step.peer, step.timer) then Some(step.peer)
            else if step == Interface(ifname) then None
            else PeerOn(s.tables, ifname)
  {
  }

  // In every run the peer of an interface, whom its vanishing reports lost, is that one.
  lemma {:induction false} InterfacePeerIsLast(self: PeerId, steps: seq<Step>, ifname: string)
    requires CanRun(Start(self), steps)
    ensures PeerOn(Run(Start(self), steps).tables, ifname) == LastOn(self, steps, ifname)
    decreases |steps|
  {
    if steps == [] {
    } else {
      var front, last := steps[..|steps| - 1], steps[|steps| - 1];
      assert steps == front + [last];
      RunSnoc(Start(self), front, last);
      InterfacePeerIsLast(self, front, ifname);
      StepInterface(Run(Start(self), front), last, ifname);
    }
  }

  /* Found and lost notifications. */

  predicate LastIsFound(notes: seq<Note>, peer: PeerId)
  {
    notes != [] &&
    var last := notes[|notes| - 1];
    if last.peer == peer then last.Found? else LastIsFound(notes[..|notes| - 1], peer)
  }

  // The notes about peer are Found, Lost, Found, ...
  predicate Alternates(notes: seq<Note>, peer: PeerId)
  {
    notes == [] ||
    var before, last := notes[..|notes| - 1], notes[|notes| - 1];
    Alternates(before, peer) && (last.peer == peer ==> (last.Found? <==> !LastIsFound(before, peer)))
  }

  ghost predicate Disciplined(t: Tables)
  {
    forall p :: Alternates(t.notes, p) && (Tracked(t, p) <==> LastIsFound(t.notes, p))
  }

  // Not a hello that starts tracking without notification, not a vanished interface.
  predicate Polite(t: Tables, step: Step)
  {
    match step
    case HelloFrom(sender, peer, needNotify, timer, ifname) => needNotify || !StartsTracking(t, peer, timer)
    case Interface(ifname) => ifname !in t.ifToPeer
    case _ => true
  }

  lemma NoteEffect(notes: seq<Note>, n: Note, p: PeerId)
    ensures LastIsFound(notes + [n], p) <==> if n.peer == p then n.Found? else LastIsFound(notes, p)
    ensures Alternates(notes + [n], p)
            <==> Alternates(notes, p) && (n.peer == p ==> (n.Found? <==> !LastIsFound(notes, p)))
  {
  }

  lemma HelloDisciplinedIff(t: Tables, sender: Address, peer: PeerId, needNotify: bool, timer: TimerOutcome, ifname: string)
    requires Inv(t) && Disciplined(t) && (timer.Timer? ==> timer.fd != 0 && timer.fd !in t.fdToPeer)
    ensures Disciplined(Hello(t, sender, peer, needNotify, timer, ifname))
            <==> needNotify || !StartsTracking(t, peer, timer)
  {
    var u := Hello(t, sender, peer, needNotify, timer, ifname);
    if StartsTracking(t, peer, timer) {
      assert forall p :: Tracked(u, p) <==> p == peer || Tracked(t, p);
      forall p {
        NoteEffect(t.notes, Found(peer), p);
      }
      assert Tracked(u, peer) && !LastIsFound(t.notes, peer);
    } else {
      assert forall p :: Tracked(u, p) <==> Tracked(t, p);
    }
  }

  lemma InterfaceGoneDisciplinedIff(t: Tables, ifname: string)
    requires Disciplined(t)
    ensures Disciplined(InterfaceGone(t, ifname)) <==> ifname !in t.ifToPeer
  {
    if ifname in t.ifToPeer {
      var u, peer := InterfaceGone(t, ifname), t.ifToPeer[ifname];
      NoteEffect(t.notes, Lost(peer), peer);
      assert Tracked(u, peer) <==> Tracked(t, peer);
    }
  }

  lemma StepDisciplinedIff(s: System, step: Step)
    requires Inv(s.tables) && Disciplined(s.tables) && Enabled(s, step)
    ensures Disciplined(Next(s, step).tables) <==> Polite(s.tables, step)
  {
    match step
    case Tick =>
    case HelloFrom(sender, peer, needNotify, timer, ifname) =>
      HelloDisciplinedIff(s.tables, sender, peer, needNotify, timer, ifname);
    case TimerEvent(fd) =>
      PeerLostKeepsInv(s.tables, fd);
      if fd in s.tables.fdToPeer {
        forall p {
          NoteEffect(s.tables.notes, Lost(s.tables.fdToPeer[fd].0), p);
        }
      }
    case Interface(ifname) => InterfaceGoneDisciplinedIff(s.tables, ifname);
  }

  ghost predicate AlwaysDisciplined(s: System, steps: seq<Step>)
    requires CanRun(s, steps)
    decreases |steps|
  {
    Disciplined(s.tables) && (steps == [] || AlwaysDisciplined(Next(s, steps[0]), steps[1..]))
  }

  predicate AllPolite(s: System, steps: seq<Step>)
    requires CanRun(s, steps)
    decreases |steps|
  {
    steps == [] || (Polite(s.tables, steps[0]) && AllPolite(Next(s, steps[0]), steps[1..]))
  }

  lemma {:induction false} DisciplinedIffPolite(s: System, steps: seq<Step>)
    requires Inv(s.tables) && Disciplined(s.tables) && CanRun(s, steps)
    ensures AlwaysDisciplined(s, steps) <==> AllPolite(s, steps)
    decreases |steps|
  {
    if steps == [] {
    } else {
      StepKeepsInv(s, steps[0]);
      StepDisciplinedIff(s, steps[0]);
      if Polite(s.tables, steps[0]) {
        DisciplinedIffPolite(Next(s, steps[0]), steps[1..]);
      }
    }
  }

  // Throughout a run, found and lost alternate for every peer, starting with found, and the
  // tracked peers are those last found, if and only if no peer starts being tracked by a
  // hello without notification and no interface with a neighbour vanishes.
  lemma NeighbourEventsAlternateIff(self: PeerId, steps: seq<Step>)
    requires CanRun(Start(self), steps)
    ensures AlwaysDisciplined(Start(self), steps) <==> AllPolite(Start(self), steps)
  {
    assert Disciplined(NoNeighbours(self));
    DisciplinedIffPolite(Start(self), steps);
  }

  /* Alternation alone, whoever is tracked. */

  ghost predicate AllAlternate(notes: seq<Note>)
  {
    forall p :: Alternates(notes, p)
  }

  // The peer a step reports lost.
  function LossOf(t: Tables, step: Step): Option<PeerId>
  {
    match step
    case TimerEvent(fd) => if fd in t.fdToPeer then Some(t.fdToPeer[fd].0) else None
    case Interface(ifname) => if ifname in t.ifToPeer then Some(t.ifToPeer[ifname]) else None
    case _ => None
  }

  // The peer a step reports found.
  function FindOf(t: Tables, step: Step): Option<PeerId>
  {
    if step.HelloFrom? && step.needNotify && StartsTracking(t, step.peer, step.timer) then Some(step.peer) else None
  }

  // Who is announced after a step: tracked since a hello with notification, and not reported
  // lost since, by its timer or its interface.
  function AnnouncedAfter(t: Tables, step: Step, announced: set<PeerId>): set<PeerId>
  {
    if FindOf(t, step).Some? then announced + {FindOf(t, step).value}
    else if LossOf(t, step).Some? then announced - {LossOf(t, step).value}
    else announced
  }

  // Only announced peers are reported lost.
  predicate LossesAnnounced(s: System, steps: seq<Step>, announced: set<PeerId>)
    requires CanRun(s, steps)
    decreases |steps|
  {
    steps == []
    || ((LossOf(s.tables, steps[0]).Some? ==> LossOf(s.tables, steps[0]).value in announced)
        && LossesAnnounced(Next(s, steps[0]), steps[1..], AnnouncedAfter(s.tables, steps[0], announced)))
  }

  lemma StepNotes(s: System, step: Step)
    requires Enabled(s, step)
    ensures Next(s, step).tables.notes ==
            if FindOf(s.tables, step).Some? then s.tables.notes + [Found(FindOf(s.tables, step).value)]
            else if LossOf(s.tables, step).Some? then s.tables.notes + [Lost(LossOf(s.tables, step).value)]
            else s.tables.notes
  {
  }

  // The announced peers are those last found, and they are tracked.
  ghost predicate Announcing(t: Tables, announced: set<PeerId>)
  {
    Inv(t) && forall p :: (p in announced <==> LastIsFound(t.notes, p)) && (p in announced ==> Tracked(t, p))
  }

  lemma StepTracks(s: System, step: Step, p: PeerId)
    requires Inv(s.tables) && Enabled(s, step)
    ensures FindOf(s.tables, step) == Some(p) ==> Tracked(Next(s, step).tables, p)
    ensures Tracked(s.tables, p) && LossOf(s.tables, step) != Some(p) ==> Tracked(Next(s, step).tables, p)
  {
  }

  lemma StepAnnounces(s: System, step: Step, announced: set<PeerId>)
    requires Announcing(s.tables, announced) && Enabled(s, step)
    ensures Announcing(Next(s, step).tables, AnnouncedAfter(s.tables, step, announced))
  {
    StepKeepsInv(s, step);
    StepNotes(s, step);
    var find, loss, u := FindOf(s.tables, step), LossOf(s.tables, step), Next(s, step).tables;
    forall p ensures (p in AnnouncedAfter(s.tables, step, announced) <==> LastIsFound(u.notes, p))
                     && (p in AnnouncedAfter(s.tables, step, announced) ==> Tracked(u, p))
    {
      StepTracks(s, step, p);
      if find.Some? {
        NoteEffect(s.tables.notes, Found(find.value), p);
      } else if loss.Some? {
        NoteEffect(s.tables.notes, Lost(loss.value), p);
      }
    }
  }

  lemma StepAlternatesIff(s: System, step: Step, announced: set<PeerId>)
    requires Announcing(s.tables, announced) && Enabled(s, step)
    ensures AllAlternate(Next(s, step).tables.notes)
            <==> AllAlternate(s.tables.notes) && (LossOf(s.tables, step).Some? ==> LossOf(s.tables, step).value in announced)
  {
    StepNotes(s, step);
    var find, loss, notes := FindOf(s.tables, step), LossOf(s.tables, step), s.tables.notes;
    if find.Some? {
      assert find.value !in announced;
      AlternatesOn(notes, Found(find.value));
    } else if loss.Some? {
      AlternatesOn(notes, Lost(loss.value));
    }
  }

  lemma AlternatesOn(notes: seq<Note>, n: Note)
    ensures AllAlternate(notes + [n]) <==> AllAlternate(notes) && (n.Found? <==> !LastIsFound(notes, n.peer))
  {
    forall p {
      NoteEffect(notes, n, p);
    }
    if AllAlternate(notes + [n]) {
      forall p ensures Alternates(notes, p) {
        assert Alternates(notes + [n], p);
      }
      assert Alternates(notes + [n], n.peer);
    }
  }

  lemma {:induction false} AlternatesIff(s: System, steps: seq<Step>, announced: set<PeerId>)
    requires Announcing(s.tables, announced) && CanRun(s, steps)
    ensures AllAlternate(Run(s, steps).tables.notes) <==> AllAlternate(s.tables.notes) && LossesAnnounced(s, steps, announced)
    decreases |steps|
  {
    if steps == [] {
    } else {
      StepAnnounces(s, steps[0], announced);
      StepAlternatesIff(s, steps[0], announced);
      AlternatesIff(Next(s, steps[0]), steps[1..], AnnouncedAfter(s.tables, steps[0], announced));
    }
  }

  // Found notifications never break the alternation, because a peer last found is tracked and a
  // hello reports only untracked peers: the notifications of a run alternate for every peer,
  // starting with found, if and only if every peer that a timer or a vanished interface reports
  // lost was last reported found, by a hello with notification.
  lemma FoundLostAlternateIff(self: PeerId, steps: seq<Step>)
    requires CanRun(Start(self), steps)
    ensures AllAlternate(Run(Start(self), steps).tables.notes) <==> LossesAnnounced(Start(self), steps, {})
  {
    AlternatesIff(Start(self), steps, {});
  }

  // A peer first heard of through its TCP hello is reported lost without having been found.
  lemma LostWithoutFound()
    ensures var steps := [HelloFrom(7, 1, false, Timer(3, 1), "if"), TimerEvent(3)];
            CanRun(Start(0), steps) && Run(Start(0), steps).tables.notes == [Lost(1)]
            && !Alternates(Run(Start(0), steps).tables.notes, 1)
  {
  }

  lemma RunOne(s: System, step: Step, rest: seq<Step>)
    requires Enabled(s, step) && CanRun(Next(s, step), rest)
    ensures CanRun(s, [step] + rest) && Run(s, [step] + rest) == Run(Next(s, step), rest)
  {
  }

  // A peer whose interface vanishes and whose timer then expires is reported lost twice.
  lemma LostTwice()
    ensures var steps := [HelloFrom(7, 1, true, Timer(3, 1), "if"), Interface("if"), TimerEvent(3)];
            CanRun(Start(0), steps) && Run(Start(0), steps).tables.notes == [Found(1), Lost(1), Lost(1)]
            && !Alternates([Found(1), Lost(1), Lost(1)], 1)
  {
  }

  /* Timing. */

  ghost predicate TimerInv(s: System)
  {
    && Inv(s.tables)
    && (forall fd :: fd in s.tables.fdToPeer ==>
          fd in s.deadline && s.tables.fdToPeer[fd].0 in s.heard
          && s.deadline[fd] == s.heard[s.tables.fdToPeer[fd].0] + LOST_PEER_DELAY)
    && (forall p :: p in s.heard ==> s.heard[p] <= s.now)
  }

  lemma StepKeepsTimers(s: System, step: Step)
    requires TimerInv(s) && Enabled(s, step)
    ensures TimerInv(Next(s, step))
  {
    StepKeepsInv(s, step);
    var u := Next(s, step);
    if step.HelloFrom? && step.peer != s.tables.self {
      forall fd | fd in u.tables.fdToPeer
        ensures fd in u.deadline && u.tables.fdToPeer[fd].0 in u.heard
                && u.deadline[fd] == u.heard[u.tables.fdToPeer[fd].0] + LOST_PEER_DELAY
      {
        assert TimerOf(u.tables, u.tables.fdToPeer[fd].0) == fd;
        if u.tables.fdToPeer[fd].0 != step.peer {
          assert fd in s.tables.fdToPeer && s.tables.fdToPeer[fd] == u.tables.fdToPeer[fd];
          assert fd != TimerOf(u.tables, step.peer);
        }
      }
    }
  }

  lemma {:induction false} RunKeepsTimers(s: System, steps: seq<Step>)
    requires TimerInv(s) && CanRun(s, steps)
    ensures TimerInv(Run(s, steps))
    decreases |steps|
  {
    if steps == [] {
    } else {
      StepKeepsTimers(s, steps[0]);
      RunKeepsTimers(Next(s, steps[0]), steps[1..]);
    }
  }

  // Seconds that pass in a run.
  function Ticks(steps: seq<Step>): nat
  {
    if steps == [] then 0
    else Ticks(steps[..|steps| - 1]) + if steps[|steps| - 1].Tick? then 1 else 0
  }

  predicate IsHello(step: Step, peer: PeerId)
  {
    step.HelloFrom? && step.peer == peer
  }

  // The i-th step is a hello from the peer, and fewer than d seconds passed since.
  predicate HeardAt(steps: seq<Step>, peer: PeerId, i: int, d: nat)
  {
    0 <= i < |steps| && IsHello(steps[i], peer) && Ticks(steps[i..]) < d
  }

  // A hello from the peer came in the last d seconds of the run.
  predicate HeardWithin(steps: seq<Step>, peer: PeerId, d: nat)
  {
    exists i :: 0 <= i < |steps| && HeardAt(steps, peer, i, d)
  }

  lemma TicksSnoc(steps: seq<Step>, last: Step)
    ensures Ticks(steps + [last]) == Ticks(steps) + if last.Tick? then 1 else 0
  {
  }

  lemma HeardAtSnoc(front: seq<Step>, last: Step, peer: PeerId, i: nat, d: nat)
    requires i < |front|
    ensures HeardAt(front + [last], peer, i, d)
            <==> if last.Tick? then d > 0 && HeardAt(front, peer, i, d - 1) else HeardAt(front, peer, i, d)
  {
    assert (front + [last])[i..] == front[i..] + [last];
    TicksSnoc(front[i..], last);
  }

  lemma HeardLast(front: seq<Step>, last: Step, peer: PeerId, d: nat)
    ensures HeardAt(front + [last], peer, |front|, d) <==> IsHello(last, peer) && d > 0
  {
    assert (front + [last])[|front|..] == [] + [last];
    TicksSnoc([], last);
  }

  lemma HeardSnoc(front: seq<Step>, last: Step, peer: PeerId, d: nat)
    ensures HeardWithin(front + [last], peer, d)
            <==> (IsHello(last, peer) && d > 0)
                 || (if last.Tick? then d > 0 && HeardWithin(front, peer, d - 1) else HeardWithin(front, peer, d))
  {
    HeardLast(front, last, peer, d);
    if last.Tick? && d == 0 {
      assert forall i :: !HeardAt(front + [last], peer, i, 0);
    } else {
      var earlier := if last.Tick? then d - 1 else d;
      if i :| 0 <= i < |front + [last]| && HeardAt(front + [last], peer, i, d) {
        if i < |front| {
          HeardAtSnoc(front, last, peer, i, d);
          assert HeardAt(front, peer, i, earlier);
        }
      }
      if i :| 0 <= i < |front| && HeardAt(front, peer, i, earlier) {
        HeardAtSnoc(front, last, peer, i, d);
      }
    }
  }

  lemma {:induction false} RunSnoc(s: System, steps: seq<Step>, last: Step)
    requires CanRun(s, steps + [last])
    ensures CanRun(s, steps) && Enabled(Run(s, steps), last) && Run(s, steps + [last]) == Next(Run(s, steps), last)
    decreases |steps|
  {
    if steps == [] {
      assert ([] + [last])[1..] == [];
    } else {
      assert (steps + [last])[1..] == steps[1..] + [last];
      RunSnoc(Next(s, steps[0]), steps[1..], last);
    }
  }

  // heard is when the last hello of the run came.
  lemma {:induction false} HeardIsLastHello(self: PeerId, steps: seq<Step>, peer: PeerId, d: nat)
    requires CanRun(Start(self), steps) && peer != self
    ensures var s := Run(Start(self), steps);
            HeardWithin(steps, peer, d) <==> peer in s.heard && s.now < s.heard[peer] + d
    decreases |steps|
  {
    if steps == [] {
    } else {
      var front, last := steps[..|steps| - 1], steps[|steps| - 1];
      assert steps == front + [last];
      RunSnoc(Start(self), front, last);
      RunKeepsTimers(Start(self), front);
      RunKeepsInv(Start(self), front);
      HeardSnoc(front, last, peer, d);
      HeardIsLastHello(self, front, peer, if last.Tick? && d > 0 then d - 1 else d);
      if last.Tick? && d == 0 {
        assert !HeardWithin(steps, peer, 0);
      }
    }
  }

  // The i-th step of the run reports a peer lost because of its timer.
  predicate LosesAt(self: PeerId, steps: seq<Step>, i: nat)
  {
    && i < |steps| && steps[i].TimerEvent? && CanRun(Start(self), steps[..i])
    && steps[i].fd in Run(Start(self), steps[..i]).tables.fdToPeer
  }

  function PeerLostAt(self: PeerId, steps: seq<Step>, i: nat): PeerId
    requires LosesAt(self, steps, i)
  {
    Run(Start(self), steps[..i]).tables.fdToPeer[steps[i].fd].0
  }

  // The kernel has let the timer expire before that step.
  predicate ExpiredAt(self: PeerId, steps: seq<Step>, i: nat)
    requires LosesAt(self, steps, i)
  {
    var s := Run(Start(self), steps[..i]);
    steps[i].fd in s.deadline && s.now >= s.deadline[steps[i].fd]
  }

  lemma LostAtIff(self: PeerId, steps: seq<Step>, i: nat)
    requires LosesAt(self, steps, i)
    ensures ExpiredAt(self, steps, i) <==> !HeardWithin(steps[..i], PeerLostAt(self, steps, i), LOST_PEER_DELAY)
    ensures var s := Run(Start(self), steps[..i]);
            Next(s, steps[i]).tables.notes == s.tables.notes + [Lost(PeerLostAt(self, steps, i))]
  {
    RunKeepsTimers(Start(self), steps[..i]);
    RunKeepsInv(Start(self), steps[..i]);
    var peer := PeerLostAt(self, steps, i);
    assert Tracked(Run(Start(self), steps[..i]).tables, peer);
    HeardIsLastHello(self, steps[..i], peer, LOST_PEER_DELAY);
  }

  // Over whole runs: every peer a timer reports lost sent no hello in the last
  // LOST_PEER_DELAY seconds of the run before that, if and only if timer events are handled
  // only while their timer is expired; an event taken from the same batch as a hello handled
  // before it is not.
  lemma LostOnlyAfterSilenceIff(self: PeerId, steps: seq<Step>)
    requires CanRun(Start(self), steps)
    ensures (forall i: nat :: LosesAt(self, steps, i) ==> !HeardWithin(steps[..i], PeerLostAt(self, steps, i), LOST_PEER_DELAY))
            <==> (forall i: nat :: LosesAt(self, steps, i) ==> ExpiredAt(self, steps, i))
  {
    forall i: nat | LosesAt(self, steps, i)
      ensures ExpiredAt(self, steps, i) <==> !HeardWithin(steps[..i], PeerLostAt(self, steps, i), LOST_PEER_DELAY)
    {
      LostAtIff(self, steps, i);
    }
  }
}
