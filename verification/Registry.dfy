// The tables of EpollLoop and what each of its four locked operations does to them and to
// the kernel's interest set.
module Registry {
  import opened Prelude

  type Fd = int
  type Token = nat
  type ObjectId = nat

  datatype IoDirection = INPUT | OUTPUT

  function Opposite(dir: IoDirection): IoDirection
  {
    if dir.INPUT? then OUTPUT else INPUT
  }

  datatype FdDirection = FdDirection(fd: Fd, dir: IoDirection)

  // A heap-allocated DescriptorCallback: its address and the AsyncFd its closure keeps alive.
  datatype Callback = Callback(address: nat, self: Option<ObjectId>)

  datatype CallbackKeeper = CallbackKeeper(callback: Callback, keepLink: Option<ObjectId>)

  // wakeups: the counter of removeEvent_. created: number of callbacks allocated so far.
  // open, interest: the kernel's open descriptors and its epoll interest set.
  datatype Tables = Tables(
    fdToCallback: map<FdDirection, CallbackKeeper>,
    cancelMap: map<Token, FdDirection>,
    removeQueue: seq<Callback>,
    nextToken: Token,
    wakeups: nat,
    created: nat,
    open: set<Fd>,
    interest: map<Fd, set<IoDirection>>)

  function NewTables(open: set<Fd>): Tables
  {
    Tables(map[], map[], [], 1, 0, 0, open, map[])
  }

  datatype CtlCommand = Add | Mod | Del

  // epoll_ctl: ADD of a present descriptor, MOD or DEL of an absent one and any command on
  // a closed one fail. EPOLLHUP and EPOLLERR are always reported and are not tracked.
  predicate CtlSucceeds(t: Tables, fd: Fd, cmd: CtlCommand)
  {
    fd in t.open && (cmd.Add? <==> fd !in t.interest)
  }

  function Ctl(t: Tables, fd: Fd, cmd: CtlCommand, mask: set<IoDirection>): Tables
  {
    if !CtlSucceeds(t, fd, cmd) then t
    else if cmd.Del? then t.(interest := t.interest - {fd})
    else t.(interest := t.interest[fd := mask])
  }

  function Utilize(t: Tables, callback: Callback): Tables
  {
    t.(removeQueue := t.removeQueue + [callback], wakeups := t.wakeups + 1)
  }

  /* The four operations; the flag is what the C++ method returns. */

  function Register(t: Tables, fd: Fd, dir: IoDirection, self: Option<ObjectId>, keepLink: Option<ObjectId>)
    : (r: (Tables, bool))
  {
    var key := FdDirection(fd, dir);
    if key in t.fdToCallback then (t, false)
    else
      var other := FdDirection(fd, Opposite(dir)) in t.fdToCallback;
      var cmd := if other then Mod else Add;
      if !CtlSucceeds(t, fd, cmd) then (t, false)
      else
        var u := Ctl(t, fd, cmd, if other then {INPUT, OUTPUT} else {dir});
        (u.(fdToCallback := u.fdToCallback[key := CallbackKeeper(Callback(t.created, self), keepLink)],
            cancelMap := u.cancelMap[t.nextToken := key],
            nextToken := t.nextToken + 1,
            created := t.created + 1), true)
  }

  function Replace(t: Tables, token: Token, self: Option<ObjectId>): (r: (Tables, bool))
  {
    if token !in t.cancelMap then (t, false)
    else
      var key := t.cancelMap[token];
      if key !in t.fdToCallback then (t, false)
      else
        var keeper := t.fdToCallback[key];
        var u := Utilize(t, keeper.callback);
        (u.(fdToCallback := u.fdToCallback[key := CallbackKeeper(Callback(t.created, self), keeper.keepLink)],
            created := t.created + 1), true)
  }

  function DeregisterAction(t: Tables, token: Token): (r: (Tables, bool))
  {
    if token !in t.cancelMap then (t, false)
    else
      var key := t.cancelMap[token];
      if key !in t.fdToCallback then (t.(cancelMap := t.cancelMap - {token}), false)
      else
        var u := Utilize(t, t.fdToCallback[key].callback)
                 .(fdToCallback := t.fdToCallback - {key}, cancelMap := t.cancelMap - {token});
        var other := FdDirection(key.fd, Opposite(key.dir)) in u.fdToCallback;
        var cmd := if other then Mod else Del;
        (Ctl(u, key.fd, cmd, {Opposite(key.dir)}), CtlSucceeds(u, key.fd, cmd))
  }

  // The part of DeregisterFd for one direction.
  function DropDirection(t: Tables, key: FdDirection): Tables
  {
    if key !in t.fdToCallback then t
    else Utilize(t.(fdToCallback := t.fdToCallback - {key}), t.fdToCallback[key].callback)
  }

  predicate HasAction(t: Tables, fd: Fd)
  {
    FdDirection(fd, INPUT) in t.fdToCallback || FdDirection(fd, OUTPUT) in t.fdToCallback
  }

  function DeregisterFd(t: Tables, fd: Fd): Tables
  {
    var u := DropDirection(DropDirection(t, FdDirection(fd, INPUT)), FdDirection(fd, OUTPUT));
    if HasAction(t, fd) then Ctl(u, fd, Del, {}) else u
  }

  /* Runs of calls. Open and Close are the kernel opening and closing a descriptor. */

  datatype Call =
    | RegisterCall(fd: Fd, dir: IoDirection, self: Option<ObjectId>, keepLink: Option<ObjectId>)
    | ReplaceCall(token: Token, self: Option<ObjectId>)
    | DeregisterActionCall(token: Token)
    | DeregisterFdCall(fd: Fd)
    | OpenFd(fd: Fd)
    | CloseFd(fd: Fd)

  // A descriptor stays open while an action on it is registered.
  predicate Allowed(t: Tables, c: Call)
  {
    c.CloseFd? ==> !HasAction(t, c.fd)
  }

  function Apply(t: Tables, c: Call): Tables
  {
    match c
    case RegisterCall(fd, dir, self, keepLink) => Register(t, fd, dir, self, keepLink).0
    case ReplaceCall(token, self) => Replace(t, token, self).0
    case DeregisterActionCall(token) => DeregisterAction(t, token).0
    case DeregisterFdCall(fd) => DeregisterFd(t, fd)
    case OpenFd(fd) => t.(open := t.open + {fd})
    case CloseFd(fd) => t.(open := t.open - {fd}, interest := t.interest - {fd})
  }

  function ApplyAll(t: Tables, calls: seq<Call>): Tables
    decreases |calls|
  {
    if calls == [] then t else ApplyAll(Apply(t, calls[0]), calls[1..])
  }

  // Tokens given out by the successful registrations of a run.
  function Issued(t: Tables, calls: seq<Call>): seq<Token>
    decreases |calls|
  {
    if calls == [] then []
    else
      var c := calls[0];
      (if c.RegisterCall? && Register(t, c.fd, c.dir, c.self, c.keepLink).1 then [t.nextToken] else [])
      + Issued(Apply(t, c), calls[1..])
  }

  /* Registry and kernel agree. */

  predicate Watched(t: Tables, key: FdDirection)
  {
    key.fd in t.interest && key.dir in t.interest[key.fd]
  }

  // For one descriptor: it is in the interest set only while open and with an action, and the
  // kernel watches exactly the directions that have a callback.
  predicate Agrees(t: Tables, fd: Fd)
  {
    && (fd in t.interest ==> fd in t.open && HasAction(t, fd))
    && (forall dir :: FdDirection(fd, dir) in t.fdToCallback <==> Watched(t, FdDirection(fd, dir)))
  }

  ghost predicate HasToken(t: Tables, key: FdDirection)
  {
    exists token :: token in t.cancelMap && t.cancelMap[token] == key
  }

  ghost predicate TokensCover(t: Tables)
  {
    && (forall key :: key in t.fdToCallback ==> HasToken(t, key))
    && (forall token :: token in t.cancelMap ==> 1 <= token < t.nextToken)
    && t.nextToken >= 1
  }

  ghost predicate Inv(t: Tables)
  {
    TokensCover(t) && forall fd :: Agrees(t, fd)
  }

  /* Tokens, whatever happens. */

  lemma RegisterKeepsTokens(t: Tables, fd: Fd, dir: IoDirection, self: Option<ObjectId>, keepLink: Option<ObjectId>)
    requires TokensCover(t)
    ensures TokensCover(Register(t, fd, dir, self, keepLink).0)
  {
    var u := Register(t, fd, dir, self, keepLink).0;
    if Register(t, fd, dir, self, keepLink).1 {
      forall k | k in u.fdToCallback ensures HasToken(u, k) {
        if k == FdDirection(fd, dir) {
          assert u.cancelMap[t.nextToken] == k;
        } else {
          var token :| token in t.cancelMap && t.cancelMap[token] == k;
          assert u.cancelMap[token] == k;
        }
      }
    }
  }

  lemma DeregisterActionKeepsTokens(t: Tables, token: Token)
    requires TokensCover(t)
    ensures TokensCover(DeregisterAction(t, token).0)
  {
    var u := DeregisterAction(t, token).0;
    forall k | k in u.fdToCallback ensures HasToken(u, k) {
      var other :| other in t.cancelMap && t.cancelMap[other] == k;
      if token in t.cancelMap && t.cancelMap[token] !in t.fdToCallback {
        assert other != token;
      }
      assert u.cancelMap[other] == k;
    }
  }

  lemma ApplyKeepsTokens(t: Tables, c: Call)
    requires TokensCover(t)
    ensures TokensCover(Apply(t, c))
  {
    if c.RegisterCall? {
      RegisterKeepsTokens(t, c.fd, c.dir, c.self, c.keepLink);
    } else if c.DeregisterActionCall? {
      DeregisterActionKeepsTokens(t, c.token);
    } else {
      assert Apply(t, c).fdToCallback.Keys <= t.fdToCallback.Keys && Apply(t, c).cancelMap == t.cancelMap;
      assert forall key :: HasToken(t, key) ==> HasToken(Apply(t, c), key);
    }
  }

  /* Agreement, one descriptor at a time. */

  lemma RegisterKeepsAgreement(t: Tables, fd: Fd, dir: IoDirection, self: Option<ObjectId>, keepLink: Option<ObjectId>, of: Fd)
    requires Agrees(t, of)
    ensures Agrees(Register(t, fd, dir, self, keepLink).0, of)
  {
    var u := Register(t, fd, dir, self, keepLink).0;
    assert Opposite(dir) != dir;
    forall d ensures FdDirection(of, d) in u.fdToCallback <==> Watched(u, FdDirection(of, d)) {
      assert d == dir || d == Opposite(dir);
      assert FdDirection(of, dir) in t.fdToCallback <==> Watched(t, FdDirection(of, dir));
      assert FdDirection(of, Opposite(dir)) in t.fdToCallback <==> Watched(t, FdDirection(of, Opposite(dir)));
    }
  }

  // A registration is refused only for a taken direction or a closed descriptor.
  lemma RegisterSucceedsIff(t: Tables, fd: Fd, dir: IoDirection, self: Option<ObjectId>, keepLink: Option<ObjectId>)
    requires Agrees(t, fd)
    ensures Register(t, fd, dir, self, keepLink).1 <==> FdDirection(fd, dir) !in t.fdToCallback && fd in t.open
  {
  }

  lemma ReplaceKeepsAgreement(t: Tables, token: Token, self: Option<ObjectId>, of: Fd)
    requires Agrees(t, of)
    ensures Agrees(Replace(t, token, self).0, of)
  {
  }

  lemma DeregisterActionKeepsAgreement(t: Tables, token: Token, of: Fd)
    requires Agrees(t, of)
    ensures Agrees(DeregisterAction(t, token).0, of)
  {
    if token in t.cancelMap && t.cancelMap[token] in t.fdToCallback {
      var u, key := DeregisterAction(t, token).0, t.cancelMap[token];
      assert key.dir != Opposite(key.dir);
      forall d ensures FdDirection(of, d) in u.fdToCallback <==> Watched(u, FdDirection(of, d)) {
        assert d == key.dir || d == Opposite(key.dir);
        assert FdDirection(of, key.dir) in t.fdToCallback <==> Watched(t, FdDirection(of, key.dir));
        assert FdDirection(of, Opposite(key.dir)) in t.fdToCallback <==> Watched(t, FdDirection(of, Opposite(key.dir)));
      }
    }
  }

  lemma DeregisterSucceedsIff(t: Tables, token: Token)
    requires token in t.cancelMap ==> Agrees(t, t.cancelMap[token].fd)
    ensures DeregisterAction(t, token).1 <==> token in t.cancelMap && t.cancelMap[token] in t.fdToCallback
  {
  }

  function BothDirections(fd: Fd): set<FdDirection>
  {
    {FdDirection(fd, INPUT), FdDirection(fd, OUTPUT)}
  }

  // DeregisterAction by a token: it is forgotten whatever comes of the call, all others name
  // what they named, and only the action it named is gone.
  lemma TokenForgotten(t: Tables, token: Token)
    ensures var u := DeregisterAction(t, token).0;
            token !in u.cancelMap
            && (forall o :: o != token ==> (o in u.cancelMap <==> o in t.cancelMap))
            && (forall o :: o in u.cancelMap ==> u.cancelMap[o] == t.cancelMap[o])
            && (forall key :: key in u.fdToCallback <==>
                       key in t.fdToCallback && !(token in t.cancelMap && t.cancelMap[token] == key))
            && (forall key :: key in u.fdToCallback ==> u.fdToCallback[key] == t.fdToCallback[key])
  {
  }

  // DeregisterFd removes the actions of its descriptor and no others, and no token.
  lemma DeregisterFdDrops(t: Tables, fd: Fd)
    ensures var u := DeregisterFd(t, fd);
            u.cancelMap == t.cancelMap
            && (forall key :: key in u.fdToCallback <==> key in t.fdToCallback && key.fd != fd)
            && (forall key :: key in u.fdToCallback ==> u.fdToCallback[key] == t.fdToCallback[key])
  {
    forall key: FdDirection | key.fd == fd ensures key == FdDirection(fd, INPUT) || key == FdDirection(fd, OUTPUT) {
      assert key == FdDirection(fd, key.dir) && (key.dir == INPUT || key.dir == OUTPUT);
    }
  }

  lemma DeregisterFdEffect(t: Tables, fd: Fd)
    requires Agrees(t, fd)
    ensures var u := DeregisterFd(t, fd);
            u == t.(fdToCallback := t.fdToCallback - BothDirections(fd), interest := t.interest - {fd},
                    removeQueue := u.removeQueue, wakeups := u.wakeups)
  {
  }

  lemma DeregisterFdKeepsAgreement(t: Tables, fd: Fd, of: Fd)
    requires Agrees(t, of)
    ensures Agrees(DeregisterFd(t, fd), of)
  {
    if fd == of {
      DeregisterFdEffect(t, fd);
      var u := DeregisterFd(t, fd);
      forall d ensures FdDirection(of, d) !in u.fdToCallback {
        assert d == INPUT || d == OUTPUT;
      }
    } else {
      DropsOther(t, fd, of);
    }
  }

  // What a descriptor has is not touched by the deregistration of another.
  lemma DropsOther(t: Tables, fd: Fd, of: Fd)
    requires fd != of
    ensures var u := DeregisterFd(t, fd);
            u.open == t.open && (of in u.interest <==> of in t.interest)
            && (of in t.interest ==> u.interest[of] == t.interest[of])
            && (forall d :: FdDirection(of, d) in u.fdToCallback <==> FdDirection(of, d) in t.fdToCallback)
  {
  }

  // Closing a descriptor keeps its agreement exactly when no action on it is registered.
  lemma CloseKeepsAgreementIff(t: Tables, fd: Fd)
    requires Agrees(t, fd)
    ensures Agrees(Apply(t, CloseFd(fd)), fd) <==> !HasAction(t, fd)
  {
  }

  // Only closing the descriptor itself can end its agreement.
  lemma ApplyKeepsAgreementIff(t: Tables, c: Call, of: Fd)
    requires Agrees(t, of)
    ensures Agrees(Apply(t, c), of) <==> !(c == CloseFd(of) && HasAction(t, of))
  {
    if c.RegisterCall? {
      RegisterKeepsAgreement(t, c.fd, c.dir, c.self, c.keepLink, of);
    } else if c.ReplaceCall? {
      ReplaceKeepsAgreement(t, c.token, c.self, of);
    } else if c.DeregisterActionCall? {
      DeregisterActionKeepsAgreement(t, c.token, of);
    } else if c.DeregisterFdCall? {
      DeregisterFdKeepsAgreement(t, c.fd, of);
    } else if c == CloseFd(of) {
      CloseKeepsAgreementIff(t, of);
    } else {
      assert forall d :: Watched(Apply(t, c), FdDirection(of, d)) <==> Watched(t, FdDirection(of, d));
    }
  }

  /* The whole loop. */

  lemma ApplyKeepsInv(t: Tables, c: Call)
    requires Inv(t) && Allowed(t, c)
    ensures Inv(Apply(t, c))
  {
    ApplyKeepsTokens(t, c);
    forall fd ensures Agrees(Apply(t, c), fd) {
      ApplyKeepsAgreementIff(t, c, fd);
    }
  }

  lemma RegisterKeepsInv(t: Tables, fd: Fd, dir: IoDirection, self: Option<ObjectId>, keepLink: Option<ObjectId>)
    requires Inv(t)
    ensures Inv(Register(t, fd, dir, self, keepLink).0)
    ensures Register(t, fd, dir, self, keepLink).1 <==> FdDirection(fd, dir) !in t.fdToCallback && fd in t.open
  {
    ApplyKeepsInv(t, RegisterCall(fd, dir, self, keepLink));
    RegisterSucceedsIff(t, fd, dir, self, keepLink);
  }

  lemma ReplaceKeepsInv(t: Tables, token: Token, self: Option<ObjectId>)
    requires Inv(t)
    ensures Inv(Replace(t, token, self).0)
    ensures Replace(t, token, self).1 <==> token in t.cancelMap && t.cancelMap[token] in t.fdToCallback
  {
    ApplyKeepsInv(t, ReplaceCall(token, self));
  }

  lemma DeregisterActionKeepsInv(t: Tables, token: Token)
    requires Inv(t)
    ensures Inv(DeregisterAction(t, token).0)
    ensures DeregisterAction(t, token).1 <==> token in t.cancelMap && t.cancelMap[token] in t.fdToCallback
  {
    ApplyKeepsInv(t, DeregisterActionCall(token));
    DeregisterSucceedsIff(t, token);
  }

  lemma DeregisterFdKeepsInv(t: Tables, fd: Fd)
    requires Inv(t)
    ensures Inv(DeregisterFd(t, fd))
  {
    ApplyKeepsInv(t, DeregisterFdCall(fd));
  }

  lemma CloseKeepsInvIff(t: Tables, fd: Fd)
    requires Inv(t)
    ensures Inv(Apply(t, CloseFd(fd))) <==> !HasAction(t, fd)
  {
    CloseKeepsAgreementIff(t, fd);
    if !HasAction(t, fd) {
      ApplyKeepsInv(t, CloseFd(fd));
    }
  }

  /* Main results. */

  // The descriptor is never closed while an action on it is registered.
  predicate ClosedIdle(t: Tables, calls: seq<Call>, fd: Fd)
    decreases |calls|
  {
    calls == [] || ((calls[0] == CloseFd(fd) ==> !HasAction(t, fd)) && ClosedIdle(Apply(t, calls[0]), calls[1..], fd))
  }

  ghost predicate AlwaysAgrees(t: Tables, calls: seq<Call>, fd: Fd)
    decreases |calls|
  {
    Agrees(t, fd) && (calls == [] || AlwaysAgrees(Apply(t, calls[0]), calls[1..], fd))
  }

  // Tables and kernel agree about a descriptor throughout a run, whatever is done with the
  // others, exactly when it is never closed while an action on it is registered.
  lemma {:induction false} AgreementKeptIff(t: Tables, calls: seq<Call>, fd: Fd)
    requires Agrees(t, fd)
    ensures AlwaysAgrees(t, calls, fd) <==> ClosedIdle(t, calls, fd)
    decreases |calls|
  {
    if calls == [] {
    } else {
      ApplyKeepsAgreementIff(t, calls[0], fd);
      if Agrees(Apply(t, calls[0]), fd) {
        AgreementKeptIff(Apply(t, calls[0]), calls[1..], fd);
      } else {
        assert !AlwaysAgrees(Apply(t, calls[0]), calls[1..], fd);
      }
    }
  }

  lemma {:induction false} ClosedIdleAgrees(t: Tables, calls: seq<Call>, fd: Fd)
    requires Agrees(t, fd) && ClosedIdle(t, calls, fd)
    ensures Agrees(ApplyAll(t, calls), fd)
    decreases |calls|
  {
    if calls == [] {
    } else {
      ApplyKeepsAgreementIff(t, calls[0], fd);
      ClosedIdleAgrees(Apply(t, calls[0]), calls[1..], fd);
    }
  }

  lemma {:induction false} RunKeepsTokens(t: Tables, calls: seq<Call>)
    requires TokensCover(t)
    ensures TokensCover(ApplyAll(t, calls))
    decreases |calls|
  {
    if calls == [] {
    } else {
      ApplyKeepsTokens(t, calls[0]);
      RunKeepsTokens(Apply(t, calls[0]), calls[1..]);
    }
  }

  // After any run from an empty loop every action has a token below nextToken_. For each
  // descriptor that was never closed while an action on it was registered: the kernel watches
  // exactly its directions that have a callback, and the epoll_ctl command the next call about
  // it would issue is accepted (a registration can only be refused for a taken direction or a
  // closed descriptor).
  lemma {:induction false} RegistryMatchesKernel(open: set<Fd>, calls: seq<Call>, fd: Fd)
    ensures TokensCover(ApplyAll(NewTables(open), calls))
    ensures ClosedIdle(NewTables(open), calls, fd) ==>
      var t := ApplyAll(NewTables(open), calls);
      Agrees(t, fd)
      && (if fd in t.interest then t.interest[fd] else {}) == (set dir: IoDirection | FdDirection(fd, dir) in t.fdToCallback)
      && (forall dir, self, keepLink :: Register(t, fd, dir, self, keepLink).1
                       <==> FdDirection(fd, dir) !in t.fdToCallback && fd in t.open)
      && (forall token :: token in t.cancelMap && t.cancelMap[token].fd == fd ==>
                       (DeregisterAction(t, token).1 <==> t.cancelMap[token] in t.fdToCallback))
  {
    RunKeepsTokens(NewTables(open), calls);
    if ClosedIdle(NewTables(open), calls, fd) {
      ClosedIdleAgrees(NewTables(open), calls, fd);
      var t := ApplyAll(NewTables(open), calls);
      assert forall dir :: FdDirection(fd, dir) in t.fdToCallback <==> Watched(t, FdDirection(fd, dir));
      forall dir, self, keepLink
        ensures Register(t, fd, dir, self, keepLink).1 <==> FdDirection(fd, dir) !in t.fdToCallback && fd in t.open
      {
        RegisterSucceedsIff(t, fd, dir, self, keepLink);
      }
      forall token | token in t.cancelMap && t.cancelMap[token].fd == fd
        ensures DeregisterAction(t, token).1 <==> t.cancelMap[token] in t.fdToCallback
      {
        DeregisterSucceedsIff(t, token);
      }
    }
  }

  predicate Increasing(s: seq<int>)
  {
    forall i, j :: 0 <= i < j < |s| ==> s[i] < s[j]
  }

  // Tokens are never reissued: the tokens of a run grow strictly, starting from nextToken_.
  lemma {:induction false} TokensNeverReissued(t: Tables, calls: seq<Call>)
    ensures Increasing(Issued(t, calls))
    ensures forall i :: 0 <= i < |Issued(t, calls)| ==> t.nextToken <= Issued(t, calls)[i]
    decreases |calls|
  {
    if calls == [] {
    } else {
      var u := Apply(t, calls[0]);
      TokensNeverReissued(u, calls[1..]);
    }
  }

  /* When tokens and actions correspond one to one. */

  ghost predicate OneToOne(t: Tables)
  {
    && (forall token :: token in t.cancelMap ==> t.cancelMap[token] in t.fdToCallback)
    && (forall a, b :: a in t.cancelMap && b in t.cancelMap && t.cancelMap[a] == t.cancelMap[b] ==> a == b)
  }

  lemma OneToOneKept(t: Tables, c: Call)
    requires TokensCover(t) && OneToOne(t) && !c.DeregisterFdCall?
    ensures OneToOne(Apply(t, c))
  {
  }

  // DeregisterFd leaves the tokens of what it removes in cancelMap, so it keeps the
  // correspondence exactly when it had nothing to remove.
  lemma DeregisterFdKeepsOneToOneIff(t: Tables, fd: Fd)
    requires TokensCover(t) && OneToOne(t)
    ensures OneToOne(DeregisterFd(t, fd)) <==> !HasAction(t, fd)
  {
  }

  // One registered action, deregistered by its descriptor, leaves a token without an action.
  lemma TokenLeftBehind()
    ensures var t := Register(NewTables({5}), 5, INPUT, None, None).0;
            Inv(t) && OneToOne(t) && !OneToOne(DeregisterFd(t, 5))
  {
    RegisterKeepsInv(NewTables({5}), 5, INPUT, None, None);
    DeregisterFdKeepsOneToOneIff(Register(NewTables({5}), 5, INPUT, None, None).0, 5);
  }
}
