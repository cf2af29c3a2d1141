// Lifetime of the AsyncFd objects that keepers and callbacks hold: which steps under
// globalLock_ destroy one.
module Lifetime {
  import opened Prelude
  import opened Registry
  import opened Reclamation

  /* Objects. */

  // A step that runs under globalLock_.
  predicate Locked(step: Step)
  {
    step.Do? || step.Dispatch? || step.DrainSection?
  }

  // Some shared_ptr to the object exists outside the keepers.
  ghost predicate HeldElsewhere(s: System, o: ObjectId)
  {
    || (exists c: Callback :: Owned(s.tables, c) && c.self == Some(o))
    || (s.epoll.Destroying? && s.epoll.callback.self == Some(o))
    || o in s.onStack
  }

  predicate Links(t: Tables, key: FdDirection, o: ObjectId)
  {
    key in t.fdToCallback && t.fdToCallback[key].keepLink == Some(o)
  }

  // Some shared_ptr to the object exists.
  ghost predicate Referenced(s: System, o: ObjectId)
  {
    HeldElsewhere(s, o) || exists key :: Links(s.tables, key, o)
  }

  // The directions whose keepers a call erases.
  function ErasedBy(t: Tables, call: Call): set<FdDirection>
  {
    match call
    case DeregisterActionCall(token) => if token in t.cancelMap then {t.cancelMap[token]} else {}
    case DeregisterFdCall(fd) => BothDirections(fd)
    case _ => {}
  }

  // A caller passes on only objects it holds itself.
  predicate CallerHolds(s: System, call: Call)
  {
    match call
    case RegisterCall(fd, dir, self, keepLink) =>
      (self.Some? ==> self.value in s.onStack) && (keepLink.Some? ==> keepLink.value in s.onStack)
    case ReplaceCall(token, self) => self.Some? ==> self.value in s.onStack
    case _ => true
  }

  lemma CallKeepsHeld(s: System, call: Call, o: ObjectId)
    requires Reclamation.Inv(s) && HeldElsewhere(s, o)
    ensures HeldElsewhere(Called(s, call), o)
  {
    ApplyGrows(s.tables, call);
    if exists c: Callback :: Owned(s.tables, c) && c.self == Some(o) {
      var c: Callback :| Owned(s.tables, c) && c.self == Some(o);
      assert Owned(Called(s, call).tables, c);
    }
  }

  lemma DrainKeepsHeld(s: System, o: ObjectId)
    requires s.epoll.Draining? && HeldElsewhere(s, o)
    ensures HeldElsewhere(Next(s, DrainSection), o)
  {
  }

  lemma DispatchKeepsHeld(s: System, key: FdDirection, o: ObjectId)
    requires s.epoll.Waiting? && HeldElsewhere(s, o)
    ensures HeldElsewhere(Next(s, Dispatch(key)), o)
  {
  }

  // Keepers disappear only by being erased, and appear only by registration.
  lemma CallLinks(t: Tables, call: Call, key: FdDirection, o: ObjectId)
    ensures Links(t, key, o) ==> (Links(Apply(t, call), key, o) <==> key !in ErasedBy(t, call))
    ensures Links(Apply(t, call), key, o) && !Links(t, key, o) ==> call.RegisterCall? && call.keepLink == Some(o)
  {
  }

  // A keeper is an old one or has a callback with what the call passed.
  lemma KeeperOrigin(t: Tables, call: Call, key: FdDirection)
    requires key in Apply(t, call).fdToCallback
    ensures var c := Apply(t, call).fdToCallback[key].callback;
            (key in t.fdToCallback && t.fdToCallback[key].callback == c)
            || ((call.RegisterCall? || call.ReplaceCall?) && c.self == call.self)
  {
  }

  lemma NewCallback(t: Tables, call: Call, c: Callback)
    requires Owned(Apply(t, call), c) && !Owned(t, c)
    ensures (call.RegisterCall? || call.ReplaceCall?) && c.self == call.self
  {
    var u := Apply(t, call);
    if c in u.removeQueue {
      QueueGrowth(t, call, c);
    } else {
      var key :| key in u.fdToCallback && u.fdToCallback[key].callback == c;
      KeeperOrigin(t, call, key);
    }
  }

  // Only callbacks of keepers are queued.
  lemma QueueGrowth(t: Tables, call: Call, c: Callback)
    requires c in Apply(t, call).removeQueue
    ensures Owned(t, c)
  {
  }

  lemma CallDropsIff(s: System, call: Call, o: ObjectId)
    requires Reclamation.Inv(s) && CallerHolds(s, call) && Referenced(s, o)
    ensures !Referenced(Called(s, call), o)
            <==> !HeldElsewhere(s, o) && forall key :: Links(s.tables, key, o) ==> key in ErasedBy(s.tables, call)
  {
    var u := Called(s, call);
    forall key
      ensures Links(s.tables, key, o) ==> (Links(u.tables, key, o) <==> key !in ErasedBy(s.tables, call))
      ensures Links(u.tables, key, o) && !Links(s.tables, key, o) ==> call.RegisterCall? && call.keepLink == Some(o)
    {
      CallLinks(s.tables, call, key, o);
    }
    if HeldElsewhere(s, o) {
      CallKeepsHeld(s, call, o);
    } else {
      forall c: Callback | Owned(u.tables, c) ensures c.self != Some(o) {
        if !Owned(s.tables, c) {
          NewCallback(s.tables, call, c);
        }
      }
    }
  }

  /* When no destructor runs under the lock. */

  // Every keeper's callback holds the object the keeper links to.
  ghost predicate KeepersHold(t: Tables)
  {
    forall key | key in t.fdToCallback && t.fdToCallback[key].keepLink.Some? ::
      t.fdToCallback[key].callback.self == t.fdToCallback[key].keepLink
  }

  // A successful registration with a keepLink passes a callback that holds the same object, a
  // successful replacement one that holds the object of the action its token names.
  predicate PassesHolder(t: Tables, call: Call)
  {
    match call
    case RegisterCall(fd, dir, self, keepLink) =>
      Register(t, fd, dir, self, keepLink).1 && keepLink.Some? ==> self == keepLink
    case ReplaceCall(token, self) =>
      token in t.cancelMap && t.cancelMap[token] in t.fdToCallback && t.fdToCallback[t.cancelMap[token]].keepLink.Some? ==>
        self == t.fdToCallback[t.cancelMap[token]].keepLink
    case _ => true
  }

  lemma RegisterHoldsIff(t: Tables, fd: Fd, dir: IoDirection, self: Option<ObjectId>, keepLink: Option<ObjectId>)
    requires KeepersHold(t)
    ensures KeepersHold(Register(t, fd, dir, self, keepLink).0) <==> PassesHolder(t, RegisterCall(fd, dir, self, keepLink))
  {
    var u, key := Register(t, fd, dir, self, keepLink).0, FdDirection(fd, dir);
    if Register(t, fd, dir, self, keepLink).1 {
      assert u.fdToCallback[key] == CallbackKeeper(Callback(t.created, self), keepLink);
    }
  }

  lemma ReplaceHoldsIff(t: Tables, token: Token, self: Option<ObjectId>)
    requires KeepersHold(t)
    ensures KeepersHold(Replace(t, token, self).0) <==> PassesHolder(t, ReplaceCall(token, self))
  {
    if Replace(t, token, self).1 {
      var u, key := Replace(t, token, self).0, t.cancelMap[token];
      assert u.fdToCallback[key] == CallbackKeeper(Callback(t.created, self), t.fdToCallback[key].keepLink);
    }
  }

  // A call keeps all keepers holding exactly when it passes a holder.
  lemma CallHoldsIff(t: Tables, call: Call)
    requires KeepersHold(t)
    ensures KeepersHold(Apply(t, call)) <==> PassesHolder(t, call)
  {
    if call.RegisterCall? {
      RegisterHoldsIff(t, call.fd, call.dir, call.self, call.keepLink);
    } else if call.ReplaceCall? {
      ReplaceHoldsIff(t, call.token, call.self);
    }
  }

  predicate PassesHolders(s: System, steps: seq<Step>)
    requires CanRun(s, steps)
    decreases |steps|
  {
    steps == []
    || ((steps[0].Do? ==> PassesHolder(s.tables, steps[0].call)) && PassesHolders(Next(s, steps[0]), steps[1..]))
  }

  lemma {:induction false} RunKeepsHolding(s: System, steps: seq<Step>)
    requires KeepersHold(s.tables) && CanRun(s, steps) && PassesHolders(s, steps)
    ensures KeepersHold(Run(s, steps).tables)
    decreases |steps|
  {
    if steps == [] {
    } else {
      if steps[0].Do? {
        CallHoldsIff(s.tables, steps[0].call);
      }
      RunKeepsHolding(Next(s, steps[0]), steps[1..]);
    }
  }

  // While all keepers hold, no locked step drops a last reference: the keeper it erases held an
  // object that its callback, now queued, holds.
  lemma HoldingKeepsReferences(s: System, step: Step, o: ObjectId)
    requires Reclamation.Inv(s) && KeepersHold(s.tables) && Enabled(s, step) && Locked(step) && Referenced(s, o)
    ensures Referenced(Next(s, step), o)
  {
    if exists key :: Links(s.tables, key, o) {
      var key :| Links(s.tables, key, o);
      assert Owned(s.tables, s.tables.fdToCallback[key].callback);
    }
    if step.Do? {
      CallKeepsHeld(s, step.call, o);
    } else if step.DrainSection? {
      DrainKeepsHeld(s, o);
    } else {
      DispatchKeepsHeld(s, step.key, o);
    }
  }

  // In every run in which registrations and replacements pass holders, no AsyncFd is destroyed
  // under globalLock_.
  lemma NoDestructorUnderLock(open: set<Fd>, steps: seq<Step>, step: Step, o: ObjectId)
    requires CanRun(Start(open), steps) && PassesHolders(Start(open), steps)
    requires Enabled(Run(Start(open), steps), step) && Locked(step) && Referenced(Run(Start(open), steps), o)
    ensures Referenced(Next(Run(Start(open), steps), step), o)
  {
    RunKeepsInv(Start(open), steps);
    RunKeepsHolding(Start(open), steps);
    HoldingKeepsReferences(Run(Start(open), steps), step, o);
  }

  /* AsyncFds that use their own tokens. */

  // A registration passes an AsyncFd as self and keepLink or has no keepLink, and no token left
  // over names its direction. A token issued to an AsyncFd is used by that AsyncFd only.
  ghost predicate OwnToken(t: Tables, call: Call, issued: map<Token, ObjectId>)
  {
    match call
    case RegisterCall(fd, dir, self, keepLink) =>
      Register(t, fd, dir, self, keepLink).1 ==>
        (keepLink.Some? ==> self == keepLink) && !HasToken(t, FdDirection(fd, dir))
    case ReplaceCall(token, self) => token in issued ==> self == Some(issued[token])
    case _ => true
  }

  // To whom tokens are issued after a call.
  function IssuedAfter(t: Tables, call: Call, issued: map<Token, ObjectId>): map<Token, ObjectId>
  {
    if call.RegisterCall? && call.keepLink.Some? && Register(t, call.fd, call.dir, call.self, call.keepLink).1
    then issued[t.nextToken := call.keepLink.value]
    else issued
  }

  ghost predicate OwnTokens(s: System, steps: seq<Step>, issued: map<Token, ObjectId>)
    requires CanRun(s, steps)
    decreases |steps|
  {
    steps == []
    || ((steps[0].Do? ==> OwnToken(s.tables, steps[0].call, issued))
        && OwnTokens(Next(s, steps[0]), steps[1..],
                     if steps[0].Do? then IssuedAfter(s.tables, steps[0].call, issued) else issued))
  }

  // The action a token names links to the AsyncFd the token was issued to.
  ghost predicate IssuedLinks(t: Tables, issued: map<Token, ObjectId>)
  {
    && (forall token :: token in issued ==> token < t.nextToken)
    && forall token | token in t.cancelMap && t.cancelMap[token] in t.fdToCallback ::
      t.fdToCallback[t.cancelMap[token]].keepLink == if token in issued then Some(issued[token]) else None
  }

  lemma RegisterKeepsIssuedLinks(t: Tables, call: Call, issued: map<Token, ObjectId>)
    requires call.RegisterCall? && TokensCover(t) && IssuedLinks(t, issued) && OwnToken(t, call, issued)
    ensures IssuedLinks(Apply(t, call), IssuedAfter(t, call, issued)) && PassesHolder(t, call)
  {
  }

  lemma CallKeepsIssuedLinks(t: Tables, call: Call, issued: map<Token, ObjectId>)
    requires TokensCover(t) && IssuedLinks(t, issued) && OwnToken(t, call, issued)
    ensures IssuedLinks(Apply(t, call), IssuedAfter(t, call, issued)) && PassesHolder(t, call)
  {
    if call.RegisterCall? {
      RegisterKeepsIssuedLinks(t, call, issued);
    }
  }

  lemma QuietKeepsTokens(s: System, step: Step)
    requires TokensCover(s.tables) && Enabled(s, step) && !step.Do?
    ensures TokensCover(Next(s, step).tables)
  {
  }

  lemma {:induction false} RunOfOwnersPasses(s: System, steps: seq<Step>, issued: map<Token, ObjectId>)
    requires TokensCover(s.tables) && IssuedLinks(s.tables, issued) && CanRun(s, steps) && OwnTokens(s, steps, issued)
    ensures PassesHolders(s, steps)
    decreases |steps|
  {
    if steps == [] {
    } else if steps[0].Do? {
      var call := steps[0].call;
      CallKeepsIssuedLinks(s.tables, call, issued);
      ApplyKeepsTokens(s.tables, call);
      RunOfOwnersPasses(Next(s, steps[0]), steps[1..], IssuedAfter(s.tables, call, issued));
    } else {
      QuietKeepsTokens(s, steps[0]);
      RunOfOwnersPasses(Next(s, steps[0]), steps[1..], issued);
    }
  }

  // In every run in which AsyncFds register themselves and replace under their own tokens, and
  // no direction is registered while a leftover token names it, no AsyncFd is destroyed under
  // globalLock_.
  lemma OwnersNotDestroyedUnderLock(open: set<Fd>, steps: seq<Step>, step: Step, o: ObjectId)
    requires CanRun(Start(open), steps) && OwnTokens(Start(open), steps, map[])
    requires Enabled(Run(Start(open), steps), step) && Locked(step) && Referenced(Run(Start(open), steps), o)
    ensures PassesHolders(Start(open), steps) && Referenced(Next(Run(Start(open), steps), step), o)
  {
    RunOfOwnersPasses(Start(open), steps, map[]);
    NoDestructorUnderLock(open, steps, step, o);
  }

  /* What a keeper that does not hold leads to. */

  predicate Quiet(steps: seq<Step>)
  {
    forall i :: 0 <= i < |steps| ==> !steps[i].Do?
  }

  predicate Deregisters(steps: seq<Step>)
  {
    forall i :: 0 <= i < |steps| ==> steps[i].Do? && steps[i].call.DeregisterActionCall?
  }

  lemma {:induction false} PassesWithoutInstalling(s: System, steps: seq<Step>)
    requires CanRun(s, steps)
    requires forall i :: 0 <= i < |steps| && steps[i].Do? ==> steps[i].call.DeregisterActionCall?
    ensures PassesHolders(s, steps)
    decreases |steps|
  {
    if steps == [] {
    } else {
      assert forall i :: 0 <= i < |steps| - 1 ==> steps[1..][i] == steps[i + 1];
      PassesWithoutInstalling(Next(s, steps[0]), steps[1..]);
    }
  }

  function EpollWork(s: System): nat
  {
    4 * |s.tables.removeQueue|
    + match s.epoll
      case Running(_) => 3
      case Waiting => 2
      case Draining => 1
      case Destroying(_) => 2
  }

  // Same registry, same references.
  predicate SameRegistry(s: System, u: System)
  {
    u.tables.fdToCallback == s.tables.fdToCallback && u.tables.cancelMap == s.tables.cancelMap && u.onStack == s.onStack
  }

  predicate Settled(s: System)
  {
    s.epoll.Waiting? && s.tables.removeQueue == []
  }

  // What the epoll thread does next when it is not settled.
  function EpollStep(s: System): Step
  {
    match s.epoll
    case Running(_) => Return
    case Waiting => ReadRemoveEvent
    case Draining => DrainSection
    case Destroying(_) => Destroy
  }

  // Left alone, the epoll thread returns and destroys all queued callbacks.
  lemma {:induction false} Settles(s: System) returns (steps: seq<Step>)
    requires Reclamation.Inv(s)
    ensures CanRun(s, steps) && Quiet(steps)
    ensures Reclamation.Inv(Run(s, steps)) && Settled(Run(s, steps)) && SameRegistry(s, Run(s, steps))
    decreases EpollWork(s)
  {
    if Settled(s) {
      steps := [];
    } else {
      var step := EpollStep(s);
      StepKeepsInv(s, step);
      var u := Next(s, step);
      var rest := [];
      if !Settled(u) {
        rest := Settles(u);
      }
      RunOne(s, step, rest);
      steps := [step] + rest;
    }
  }

  // Any action can be deregistered.
  lemma ErasesOne(s: System, key: FdDirection) returns (call: Call)
    requires Reclamation.Inv(s) && TokensCover(s.tables) && key in s.tables.fdToCallback
    ensures call.DeregisterActionCall?
    ensures var u := Called(s, call);
            Reclamation.Inv(u) && TokensCover(u.tables) && u.onStack == s.onStack
            && u.tables.fdToCallback == s.tables.fdToCallback - {key}
  {
    assert HasToken(s.tables, key);
    var token :| token in s.tables.cancelMap && s.tables.cancelMap[token] == key;
    call := DeregisterActionCall(token);
    CallKeepsInv(s, call);
    ApplyKeepsTokens(s.tables, call);
  }

  lemma ErasesOther(s: System, key: FdDirection, other: FdDirection, call: Call, rest: seq<Step>)
    requires key in s.tables.fdToCallback && other != key && call.DeregisterActionCall?
    requires Called(s, call).tables.fdToCallback == s.tables.fdToCallback - {other}
    requires CanRun(Called(s, call), rest) && Deregisters(rest)
    ensures CanRun(s, [Do(call)] + rest) && Deregisters([Do(call)] + rest)
    ensures Run(s, [Do(call)] + rest) == Run(Called(s, call), rest)
    ensures Called(s, call).tables.fdToCallback[key] == s.tables.fdToCallback[key]
  {
  }

  // All other actions can be deregistered.
  lemma {:induction false} Clears(s: System, key: FdDirection) returns (steps: seq<Step>)
    requires Reclamation.Inv(s) && TokensCover(s.tables) && key in s.tables.fdToCallback
    ensures CanRun(s, steps) && Deregisters(steps)
    ensures Only(Run(s, steps), s, key)
    decreases |s.tables.fdToCallback.Keys|
  {
    if other :| other in s.tables.fdToCallback && other != key {
      var call := ErasesOne(s, other);
      var u := Called(s, call);
      assert u.tables.fdToCallback.Keys == s.tables.fdToCallback.Keys - {other};
      var rest := Clears(u, key);
      ErasesOther(s, key, other, call, rest);
      steps := [Do(call)] + rest;
    } else {
      steps := [];
      assert s.tables.fdToCallback == map[key := s.tables.fdToCallback[key]];
    }
  }

  // u is a reachable state with the keeper of that key only.
  ghost predicate Only(u: System, s: System, key: FdDirection)
    requires key in s.tables.fdToCallback
  {
    Reclamation.Inv(u) && u.tables.fdToCallback == map[key := s.tables.fdToCallback[key]]
  }

  ghost predicate DropsUnderLock(s: System, step: Step, o: ObjectId)
  {
    Enabled(s, step) && Locked(step) && Referenced(s, o) && !Referenced(Next(s, step), o)
  }

  // However the run goes on with calls that pass holders, no locked step drops a last
  // reference.
  ghost predicate SafeForever(s: System)
  {
    forall more, step, o :: CanRun(s, more) && PassesHolders(s, more) ==> !DropsUnderLock(Run(s, more), step, o)
  }

  // Only the keeper of that key refers to o, and the next deregistration drops it.
  lemma LastLinkDrops(s: System, key: FdDirection, token: Token, o: ObjectId)
    requires Reclamation.Inv(s) && Settled(s) && o !in s.onStack
    requires s.tables.fdToCallback.Keys == {key} && Links(s.tables, key, o)
    requires s.tables.fdToCallback[key].callback.self != Some(o)
    requires token in s.tables.cancelMap && s.tables.cancelMap[token] == key
    ensures DropsUnderLock(s, Do(DeregisterActionCall(token)), o)
  {
  }

  lemma {:induction false} RunKeepsTokensCovered(s: System, steps: seq<Step>)
    requires TokensCover(s.tables) && CanRun(s, steps)
    ensures TokensCover(Run(s, steps).tables)
    decreases |steps|
  {
    if steps == [] {
    } else {
      if steps[0].Do? {
        ApplyKeepsTokens(s.tables, steps[0].call);
      } else {
        QuietKeepsTokens(s, steps[0]);
      }
      RunKeepsTokensCovered(Next(s, steps[0]), steps[1..]);
    }
  }

  lemma DropsOne(s: System, o: ObjectId) returns (drop: seq<Step>)
    requires Reclamation.Inv(s) && Settled(s)
    ensures CanRun(s, drop) && Quiet(drop)
    ensures var u := Run(s, drop); Reclamation.Inv(u) && Settled(u) && o !in u.onStack && u.tables == s.tables
  {
    if o in s.onStack {
      StepKeepsInv(s, DropReference(o));
      RunOne(s, DropReference(o), []);
      drop := [DropReference(o)] + [];
    } else {
      drop := [];
    }
  }

  lemma SettlesAndDrops(s: System, o: ObjectId) returns (steps: seq<Step>)
    requires Reclamation.Inv(s)
    ensures CanRun(s, steps) && Quiet(steps)
    ensures var u := Run(s, steps);
            Reclamation.Inv(u) && Settled(u) && o !in u.onStack && u.tables.fdToCallback == s.tables.fdToCallback
  {
    var settle := Settles(s);
    var drop := DropsOne(Run(s, settle), o);
    RunConcat(s, settle, drop);
    steps := settle + drop;
  }

  // From a keeper whose callback does not hold its object, deregistering the other actions,
  // draining and dropping the other reference leave an object that the next deregistration
  // destroys under the lock.
  lemma UnheldDrops(s: System, key: FdDirection) returns (steps: seq<Step>, step: Step, o: ObjectId)
    requires Reclamation.Inv(s) && TokensCover(s.tables) && key in s.tables.fdToCallback
    requires s.tables.fdToCallback[key].keepLink.Some?
    requires s.tables.fdToCallback[key].callback.self != s.tables.fdToCallback[key].keepLink
    ensures CanRun(s, steps) && PassesHolders(s, steps) && DropsUnderLock(Run(s, steps), step, o)
  {
    o := s.tables.fdToCallback[key].keepLink.value;
    var clear := Clears(s, key);
    var s1 := Run(s, clear);
    var rest := SettlesAndDrops(s1, o);
    var s3 := Run(s1, rest);
    RunConcat(s, clear, rest);
    steps := clear + rest;
    RunKeepsTokensCovered(s, steps);
    assert HasToken(s3.tables, key);
    var token :| token in s3.tables.cancelMap && s3.tables.cancelMap[token] == key;
    step := Do(DeregisterActionCall(token));
    LastLinkDrops(s3, key, token, o);
    PassesWithoutInstalling(s, steps);
  }

  // A reachable state stays free of destructors under the lock, in every continuation whose
  // calls pass holders, exactly when all its keepers hold.
  lemma SafeForeverIff(open: set<Fd>, steps: seq<Step>)
    requires CanRun(Start(open), steps)
    ensures SafeForever(Run(Start(open), steps)) <==> KeepersHold(Run(Start(open), steps).tables)
  {
    RunKeepsInv(Start(open), steps);
    RunKeepsTokensCovered(Start(open), steps);
    var s := Run(Start(open), steps);
    if KeepersHold(s.tables) {
      forall more, step, o | CanRun(s, more) && PassesHolders(s, more) ensures !DropsUnderLock(Run(s, more), step, o) {
        RunKeepsInv(s, more);
        RunKeepsHolding(s, more);
        if DropsUnderLock(Run(s, more), step, o) {
          HoldingKeepsReferences(Run(s, more), step, o);
        }
      }
    } else {
      var key :| key in s.tables.fdToCallback && s.tables.fdToCallback[key].keepLink.Some?
                 && s.tables.fdToCallback[key].callback.self != s.tables.fdToCallback[key].keepLink;
      var more, step, o := UnheldDrops(s, key);
    }
  }

  /* A leftover token. */

  const KEY := FdDirection(5, OUTPUT)

  // Object 1 is registered on descriptor 5 and its callback runs; meanwhile the descriptor is
  // deregistered and closed.
  const FIRST_USE: seq<Step> := [
    TakeReference(1), Do(RegisterCall(5, OUTPUT, Some(1), Some(1))), Dispatch(KEY),
    Do(DeregisterFdCall(5)), Do(CloseFd(5))]

  // Its number is used again, object 2 is registered on it, and the callback of object 1
  // replaces under its old token.
  const SECOND_USE: seq<Step> := [
    Do(OpenFd(5)), TakeReference(2), Do(RegisterCall(5, OUTPUT, Some(2), Some(2))),
    Do(ReplaceCall(1, Some(1))), Return]

  const TAKEOVER := FIRST_USE + SECOND_USE

  // The queued callbacks are destroyed and the caller's reference to object 2 goes.
  const DRAINED: seq<Step> := [
    ReadRemoveEvent, DrainSection, Destroy, DrainSection, Destroy, DrainSection, DropReference(2)]

  const CLOSED_RUNNING := System(
    Tables(map[], map[1 := KEY], [Callback(0, Some(1))], 2, 1, 1, {}, map[]),
    Running(Callback(0, Some(1))), {}, {1})

  const TAKEN_OVER := System(
    Tables(map[KEY := CallbackKeeper(Callback(2, Some(1)), Some(2))], map[1 := KEY, 2 := KEY],
           [Callback(0, Some(1)), Callback(1, Some(2))], 3, 2, 3, {5}, map[5 := {OUTPUT}]),
    Waiting, {}, {1, 2})

  lemma UsesFirst()
    ensures CanRun(Start({5}), FIRST_USE) && Run(Start({5}), FIRST_USE) == CLOSED_RUNNING
  {
    var s0, c0 := Start({5}), Callback(0, Some(1));
    var s1 := s0.(onStack := {1});
    var s2 := s1.(tables := Tables(map[KEY := CallbackKeeper(c0, Some(1))], map[1 := KEY], [], 2, 0, 1, {5},
                                   map[5 := {OUTPUT}]));
    var s3 := s2.(epoll := Running(c0));
    var s4 := s3.(tables := Tables(map[], map[1 := KEY], [c0], 2, 1, 1, {5}, map[]));
    assert Next(s0, FIRST_USE[0]) == s1;
    assert Next(s1, FIRST_USE[1]) == s2;
    assert Next(s2, FIRST_USE[2]) == s3;
    assert Next(s3, FIRST_USE[3]) == s4;
    assert Next(s4, FIRST_USE[4]) == CLOSED_RUNNING;
    RunOne(s4, FIRST_USE[4], []);
    RunOne(s3, FIRST_USE[3], [FIRST_USE[4]]);
    RunOne(s2, FIRST_USE[2], FIRST_USE[3..]);
    RunOne(s1, FIRST_USE[1], FIRST_USE[2..]);
    RunOne(s0, FIRST_USE[0], FIRST_USE[1..]);
  }

  lemma UsesAgain()
    ensures CanRun(CLOSED_RUNNING, SECOND_USE) && Run(CLOSED_RUNNING, SECOND_USE) == TAKEN_OVER
  {
    var s0, c0, c1 := CLOSED_RUNNING, Callback(0, Some(1)), Callback(1, Some(2));
    var s1 := s0.(tables := s0.tables.(open := {5}));
    var s2 := s1.(onStack := {1, 2});
    var s3 := s2.(tables := Tables(map[KEY := CallbackKeeper(c1, Some(2))], map[1 := KEY, 2 := KEY], [c0], 3, 1, 2, {5},
                                   map[5 := {OUTPUT}]));
    var s4 := TAKEN_OVER.(epoll := Running(c0));
    assert Next(s0, SECOND_USE[0]) == s1;
    assert Next(s1, SECOND_USE[1]) == s2;
    assert Next(s2, SECOND_USE[2]) == s3;
    assert Next(s3, SECOND_USE[3]) == s4;
    assert Next(s4, SECOND_USE[4]) == TAKEN_OVER;
    RunOne(s4, SECOND_USE[4], []);
    RunOne(s3, SECOND_USE[3], [SECOND_USE[4]]);
    RunOne(s2, SECOND_USE[2], SECOND_USE[3..]);
    RunOne(s1, SECOND_USE[1], SECOND_USE[2..]);
    RunOne(s0, SECOND_USE[0], SECOND_USE[1..]);
  }

  lemma TakesOver()
    ensures CanRun(Start({5}), TAKEOVER) && Run(Start({5}), TAKEOVER) == TAKEN_OVER
  {
    UsesFirst();
    UsesAgain();
    RunConcat(Start({5}), FIRST_USE, SECOND_USE);
  }

  const LINKED_ONLY := System(
    Tables(map[KEY := CallbackKeeper(Callback(2, Some(1)), Some(2))], map[1 := KEY, 2 := KEY], [], 3, 0, 3, {5},
           map[5 := {OUTPUT}]),
    Waiting, {0, 1}, {1})

  lemma Drains()
    ensures CanRun(TAKEN_OVER, DRAINED) && Run(TAKEN_OVER, DRAINED) == LINKED_ONLY
  {
    var s1 := TAKEN_OVER.(tables := TAKEN_OVER.tables.(wakeups := 0), epoll := Draining);
    var s2 := s1.(tables := s1.tables.(removeQueue := [Callback(1, Some(2))]), epoll := Destroying(Callback(0, Some(1))));
    var s3 := s2.(epoll := Draining, destroyed := {0});
    var s4 := s3.(tables := s3.tables.(removeQueue := []), epoll := Destroying(Callback(1, Some(2))));
    var s5 := s4.(epoll := Draining, destroyed := {0, 1});
    var s6 := s5.(epoll := Waiting);
    assert Next(TAKEN_OVER, DRAINED[0]) == s1;
    assert Next(s1, DRAINED[1]) == s2;
    assert Next(s2, DRAINED[2]) == s3;
    assert Next(s3, DRAINED[3]) == s4;
    assert Next(s4, DRAINED[4]) == s5;
    assert Next(s5, DRAINED[5]) == s6;
    assert {1, 2} - {2} == {1};
    RunOne(s6, DRAINED[6], []);
    RunOne(s5, DRAINED[5], [DRAINED[6]]);
    RunOne(s4, DRAINED[4], DRAINED[5..]);
    RunOne(s3, DRAINED[3], DRAINED[4..]);
    RunOne(s2, DRAINED[2], DRAINED[3..]);
    RunOne(s1, DRAINED[1], DRAINED[2..]);
    RunOne(TAKEN_OVER, DRAINED[0], DRAINED[1..]);
  }

  lemma LinkOnly()
    ensures Links(LINKED_ONLY.tables, KEY, 2) && !HeldElsewhere(LINKED_ONLY, 2)
    ensures forall key :: Links(LINKED_ONLY.tables, key, 2) ==> key == KEY
  {
  }

  lemma LinkErased()
    requires Reclamation.Inv(LINKED_ONLY)
    ensures Referenced(LINKED_ONLY, 2) && !Referenced(Next(LINKED_ONLY, Do(DeregisterFdCall(5))), 2)
  {
    LinkOnly();
    assert KEY in ErasedBy(LINKED_ONLY.tables, DeregisterFdCall(5));
    CallDropsIff(LINKED_ONLY, DeregisterFdCall(5), 2);
  }

  lemma TakesOverAndDrains()
    ensures CanRun(Start({5}), TAKEOVER + DRAINED) && Run(Start({5}), TAKEOVER + DRAINED) == LINKED_ONLY
  {
    TakesOver();
    Drains();
    RunConcat(Start({5}), TAKEOVER, DRAINED);
  }

  // After that, deregistering the descriptor destroys object 2 under globalLock_.
  lemma LeftoverTokenDestroysUnderLock()
    ensures var last := Do(DeregisterFdCall(5));
            CanRun(Start({5}), TAKEOVER + DRAINED)
            && Referenced(Run(Start({5}), TAKEOVER + DRAINED), 2)
            && !Referenced(Next(Run(Start({5}), TAKEOVER + DRAINED), last), 2)
  {
    TakesOverAndDrains();
    RunKeepsInv(Start({5}), TAKEOVER + DRAINED);
    LinkErased();
  }
}
