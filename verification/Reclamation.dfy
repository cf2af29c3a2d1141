// Lifetime of callbacks and of the AsyncFd objects they keep alive, over all interleavings
// of the epoll thread with any number of threads calling the four registry operations.
// A step is one globalLock_ section or one stretch of unlocked code of the epoll thread.
module Reclamation {
  import opened Prelude
  import opened Registry

  // Where the epoll thread is. Running: RunCallback calls the callback with no lock held.
  // Draining: in the removeEvent_ branch, before taking the lock. Destroying: the popped
  // callback is being destroyed, after the lock was released.
  datatype EpollThread =
    | Waiting
    | Running(callback: Callback)
    | Draining
    | Destroying(callback: Callback)

  // onStack: AsyncFd objects with a reference from some thread's stack or from user code.
  datatype System = System(
    tables: Tables,
    epoll: EpollThread,
    destroyed: set<nat>,
    onStack: set<ObjectId>)

  function Start(open: set<Fd>): System
  {
    System(NewTables(open), Waiting, {}, {})
  }

  datatype Step =
    | Do(call: Call)
    | Dispatch(key: FdDirection)
    | Return
    | ReadRemoveEvent
    | DrainSection
    | Destroy
    | TakeReference(object: ObjectId)
    | DropReference(object: ObjectId)

  predicate Enabled(s: System, step: Step)
  {
    match step
    case Do(call) => true
    case Dispatch(key) => s.epoll.Waiting?
    case Return => s.epoll.Running?
    case ReadRemoveEvent => s.epoll.Waiting? && s.tables.wakeups > 0
    case DrainSection => s.epoll.Draining?
    case Destroy => s.epoll.Destroying?
    case TakeReference(o) => true
    case DropReference(o) => o in s.onStack
  }

  function Next(s: System, step: Step): System
    requires Enabled(s, step)
  {
    match step
    case Do(call) => Called(s, call)
    case Dispatch(key) =>
      if key in s.tables.fdToCallback then s.(epoll := Running(s.tables.fdToCallback[key].callback)) else s
    case Return => s.(epoll := Waiting)
    case ReadRemoveEvent => s.(tables := s.tables.(wakeups := 0), epoll := Draining)
    case DrainSection =>
      if s.tables.removeQueue == [] then s.(epoll := Waiting)
      else s.(tables := s.tables.(removeQueue := s.tables.removeQueue[1..]),
              epoll := Destroying(s.tables.removeQueue[0]))
    case Destroy => s.(destroyed := s.destroyed + {s.epoll.callback.address}, epoll := Draining)
    case TakeReference(o) => s.(onStack := s.onStack + {o})
    case DropReference(o) => s.(onStack := s.onStack - {o})
  }

  function Called(s: System, call: Call): System
  {
    s.(tables := Apply(s.tables, call))
  }

  predicate CanRun(s: System, steps: seq<Step>)
    decreases |steps|
  {
    steps == [] || (Enabled(s, steps[0]) && CanRun(Next(s, steps[0]), steps[1..]))
  }

  function Run(s: System, steps: seq<Step>): System
    requires CanRun(s, steps)
    decreases |steps|
  {
    if steps == [] then s else Run(Next(s, steps[0]), steps[1..])
  }

  /* Every callback is in exactly one place. */

  ghost predicate IsLive(t: Tables, a: nat)
  {
    exists key :: key in t.fdToCallback && t.fdToCallback[key].callback.address == a
  }

  predicate IsQueued(t: Tables, a: nat)
  {
    exists i :: 0 <= i < |t.removeQueue| && t.removeQueue[i].address == a
  }

  predicate IsBeingDestroyed(s: System, a: nat)
  {
    s.epoll.Destroying? && s.epoll.callback.address == a
  }

  // The tables hold every callback at most once.
  ghost predicate Separate(t: Tables)
  {
    && (forall k, l | k in t.fdToCallback && l in t.fdToCallback ::
          t.fdToCallback[k].callback.address == t.fdToCallback[l].callback.address ==> k == l)
    && (forall i, j :: 0 <= i < j < |t.removeQueue| ==> t.removeQueue[i].address != t.removeQueue[j].address)
    && (forall k, i | k in t.fdToCallback && 0 <= i < |t.removeQueue| ::
          t.fdToCallback[k].callback.address != t.removeQueue[i].address)
    && (forall k :: k in t.fdToCallback ==> t.fdToCallback[k].callback.address < t.created)
    && (forall i :: 0 <= i < |t.removeQueue| ==> t.removeQueue[i].address < t.created)
  }

  ghost predicate Gone(s: System, a: nat)
  {
    a in s.destroyed || IsBeingDestroyed(s, a)
  }

  ghost predicate Partition(s: System)
  {
    && Separate(s.tables)
    && (forall a: nat :: Gone(s, a) ==> a < s.tables.created && !IsLive(s.tables, a) && !IsQueued(s.tables, a))
    && (s.epoll.Destroying? ==> s.epoll.callback.address !in s.destroyed)
    && (forall a: nat :: a < s.tables.created ==> IsLive(s.tables, a) || IsQueued(s.tables, a) || Gone(s, a))
  }

  // A callback object owned by fdToCallback_ or removeQueue_.
  ghost predicate Owned(t: Tables, c: Callback)
  {
    (exists key :: key in t.fdToCallback && t.fdToCallback[key].callback == c) || c in t.removeQueue
  }

  ghost predicate Inv(s: System)
  {
    && Partition(s)
    && (s.epoll.Running? ==> Owned(s.tables, s.epoll.callback))
    && (s.tables.removeQueue != [] ==> s.tables.wakeups > 0 || s.epoll.Draining? || s.epoll.Destroying?)
  }

  /* The two ways tables change: a callback moves to the queue, a new one is installed. */

  function MoveToQueue(t: Tables, key: FdDirection): Tables
    requires key in t.fdToCallback
  {
    t.(fdToCallback := t.fdToCallback - {key}, removeQueue := t.removeQueue + [t.fdToCallback[key].callback])
  }

  function Install(t: Tables, key: FdDirection, self: Option<ObjectId>, keepLink: Option<ObjectId>): Tables
  {
    t.(fdToCallback := t.fdToCallback[key := CallbackKeeper(Callback(t.created, self), keepLink)],
       created := t.created + 1)
  }

  // Same callbacks, queue and allocator.
  predicate SameCallbacks(t: Tables, u: Tables)
  {
    t.fdToCallback == u.fdToCallback && t.removeQueue == u.removeQueue && t.created == u.created
  }

  // No callback leaves the tables and only freshly allocated ones enter.
  ghost predicate Grows(t: Tables, u: Tables)
  {
    && Separate(u) && t.created <= u.created
    && (forall c :: Owned(t, c) ==> Owned(u, c))
    && (forall a :: IsLive(t, a) || IsQueued(t, a) ==> IsLive(u, a) || IsQueued(u, a))
    && (forall a :: IsLive(u, a) || IsQueued(u, a) ==> IsLive(t, a) || IsQueued(t, a) || t.created <= a)
    && (forall a :: t.created <= a < u.created ==> IsLive(u, a) || IsQueued(u, a))
  }

  lemma MoveGrows(t: Tables, key: FdDirection)
    requires Separate(t) && key in t.fdToCallback
    ensures Grows(t, MoveToQueue(t, key))
  {
    var u := MoveToQueue(t, key);
    var c := t.fdToCallback[key].callback;
    assert u.removeQueue[|t.removeQueue|] == c;
    forall d | Owned(t, d) ensures Owned(u, d) {
      if d !in t.removeQueue {
        var k :| k in t.fdToCallback && t.fdToCallback[k].callback == d;
        assert k != key ==> u.fdToCallback[k].callback == d;
      }
    }
    forall a | IsLive(t, a) || IsQueued(t, a) ensures IsLive(u, a) || IsQueued(u, a) {
      if IsLive(t, a) {
        var k :| k in t.fdToCallback && t.fdToCallback[k].callback.address == a;
        assert k != key ==> u.fdToCallback[k].callback.address == a;
      } else {
        var i :| 0 <= i < |t.removeQueue| && t.removeQueue[i].address == a;
        assert u.removeQueue[i].address == a;
      }
    }
    forall a | IsLive(u, a) || IsQueued(u, a) ensures IsLive(t, a) || IsQueued(t, a) {
      if IsLive(u, a) {
        var k :| k in u.fdToCallback && u.fdToCallback[k].callback.address == a;
        assert t.fdToCallback[k].callback.address == a;
      } else {
        var i :| 0 <= i < |u.removeQueue| && u.removeQueue[i].address == a;
        assert i < |t.removeQueue| ==> t.removeQueue[i].address == a;
      }
    }
  }

  lemma InstallSeparate(t: Tables, key: FdDirection, self: Option<ObjectId>, keepLink: Option<ObjectId>)
    requires Separate(t) && key !in t.fdToCallback
    ensures Separate(Install(t, key, self, keepLink))
  {
  }

  lemma InstallGrows(t: Tables, key: FdDirection, self: Option<ObjectId>, keepLink: Option<ObjectId>)
    requires Separate(t) && key !in t.fdToCallback
    ensures Grows(t, Install(t, key, self, keepLink))
  {
    InstallSeparate(t, key, self, keepLink);
    var u := Install(t, key, self, keepLink);
    assert u.fdToCallback[key].callback.address == t.created;
    assert forall k :: k in t.fdToCallback ==> u.fdToCallback[k] == t.fdToCallback[k];
  }

  lemma GrowsTransitive(t: Tables, u: Tables, v: Tables)
    requires Grows(t, u) && Grows(u, v)
    ensures Grows(t, v)
  {
  }

  lemma SameGrows(t: Tables, u: Tables, v: Tables)
    requires Grows(t, u) && SameCallbacks(u, v)
    ensures Grows(t, v)
  {
    assert forall c :: Owned(u, c) ==> Owned(v, c);
    assert forall a :: IsLive(u, a) <==> IsLive(v, a);
    assert forall a :: IsQueued(u, a) <==> IsQueued(v, a);
  }

  lemma DropGrows(t: Tables, key: FdDirection)
    requires Separate(t)
    ensures Grows(t, DropDirection(t, key))
  {
    if key in t.fdToCallback {
      MoveGrows(t, key);
      SameGrows(t, MoveToQueue(t, key), DropDirection(t, key));
    }
  }

  lemma ReplaceGrows(t: Tables, token: Token, self: Option<ObjectId>)
    requires Separate(t)
    ensures Grows(t, Replace(t, token, self).0)
  {
    if Replace(t, token, self).1 {
      var key := t.cancelMap[token];
      var moved := MoveToQueue(t, key);
      var installed := Install(moved, key, self, t.fdToCallback[key].keepLink);
      MoveGrows(t, key);
      InstallGrows(moved, key, self, t.fdToCallback[key].keepLink);
      GrowsTransitive(t, moved, installed);
      assert installed.fdToCallback == Replace(t, token, self).0.fdToCallback;
      SameGrows(t, installed, Replace(t, token, self).0);
    }
  }

  lemma DropBothGrows(t: Tables, input: FdDirection, output: FdDirection)
    requires Separate(t)
    ensures Grows(t, DropDirection(DropDirection(t, input), output))
  {
    var half := DropDirection(t, input);
    DropGrows(t, input);
    DropGrows(half, output);
    GrowsTransitive(t, half, DropDirection(half, output));
  }

  lemma DeregisterFdGrows(t: Tables, fd: Fd)
    requires Separate(t)
    ensures Grows(t, DeregisterFd(t, fd))
  {
    var input, output := FdDirection(fd, INPUT), FdDirection(fd, OUTPUT);
    DropBothGrows(t, input, output);
    SameGrows(t, DropDirection(DropDirection(t, input), output), DeregisterFd(t, fd));
  }

  lemma GrowsItself(t: Tables)
    requires Separate(t)
    ensures Grows(t, t)
  {
  }

  lemma RegisterGrows(t: Tables, fd: Fd, dir: IoDirection, self: Option<ObjectId>, keepLink: Option<ObjectId>)
    requires Separate(t)
    ensures Grows(t, Register(t, fd, dir, self, keepLink).0)
  {
    var u, key := Register(t, fd, dir, self, keepLink).0, FdDirection(fd, dir);
    if Register(t, fd, dir, self, keepLink).1 {
      InstallGrows(t, key, self, keepLink);
      SameGrows(t, Install(t, key, self, keepLink), u);
    } else {
      GrowsItself(t);
    }
  }

  lemma DeregisterActionGrows(t: Tables, token: Token)
    requires Separate(t)
    ensures Grows(t, DeregisterAction(t, token).0)
  {
    var u := DeregisterAction(t, token).0;
    if token in t.cancelMap && t.cancelMap[token] in t.fdToCallback {
      MoveGrows(t, t.cancelMap[token]);
      SameGrows(t, MoveToQueue(t, t.cancelMap[token]), u);
    } else {
      GrowsItself(t);
      SameGrows(t, t, u);
    }
  }

  lemma ApplyGrows(t: Tables, call: Call)
    requires Separate(t)
    ensures Grows(t, Apply(t, call))
  {
    if call.RegisterCall? {
      RegisterGrows(t, call.fd, call.dir, call.self, call.keepLink);
    } else if call.ReplaceCall? {
      ReplaceGrows(t, call.token, call.self);
    } else if call.DeregisterActionCall? {
      DeregisterActionGrows(t, call.token);
    } else if call.DeregisterFdCall? {
      DeregisterFdGrows(t, call.fd);
    } else {
      GrowsItself(t);
      SameGrows(t, t, Apply(t, call));
    }
  }

  /* Every step keeps the invariant. */

  lemma ApplyWakes(t: Tables, call: Call)
    ensures t.wakeups <= Apply(t, call).wakeups
    ensures Apply(t, call).removeQueue == t.removeQueue || Apply(t, call).wakeups > 0
  {
  }

  lemma CallKeepsPartition(s: System, call: Call)
    requires Partition(s)
    ensures Partition(Called(s, call))
  {
    ApplyGrows(s.tables, call);
    var u := Called(s, call);
    assert forall a: nat :: Gone(s, a) <==> Gone(u, a);
    forall a: nat | a < u.tables.created ensures IsLive(u.tables, a) || IsQueued(u.tables, a) || Gone(u, a) {
    }
  }

  lemma PopKeepsPartition(s: System)
    requires Partition(s) && s.epoll.Draining? && s.tables.removeQueue != []
    ensures Partition(Next(s, DrainSection))
  {
    var u := Next(s, DrainSection);
    var front := s.tables.removeQueue[0].address;
    assert IsQueued(s.tables, front);
    assert forall a :: IsLive(s.tables, a) <==> IsLive(u.tables, a);
    forall a: nat ensures IsQueued(u.tables, a) <==> IsQueued(s.tables, a) && a != front {
      if IsQueued(s.tables, a) && a != front {
        var i :| 0 <= i < |s.tables.removeQueue| && s.tables.removeQueue[i].address == a;
        assert u.tables.removeQueue[i - 1].address == a;
      }
      if IsQueued(u.tables, a) {
        var i :| 0 <= i < |u.tables.removeQueue| && u.tables.removeQueue[i].address == a;
        assert s.tables.removeQueue[i + 1].address == a;
      }
    }
    assert forall a: nat :: Gone(u, a) <==> Gone(s, a) || a == front;
  }

  lemma QuietKeepsPartition(s: System, u: System)
    requires Partition(s) && SameCallbacks(s.tables, u.tables)
    requires forall a: nat :: Gone(s, a) <==> Gone(u, a)
    requires u.epoll.Destroying? ==> u.epoll.callback.address !in u.destroyed
    ensures Partition(u)
  {
  }

  lemma StepKeepsPartition(s: System, step: Step)
    requires Inv(s) && Enabled(s, step)
    ensures Partition(Next(s, step))
  {
    if step.Do? {
      CallKeepsPartition(s, step.call);
    } else if step.DrainSection? && s.tables.removeQueue != [] {
      PopKeepsPartition(s);
    } else {
      QuietKeepsPartition(s, Next(s, step));
    }
  }

  lemma CallKeepsInv(s: System, call: Call)
    requires Inv(s)
    ensures Inv(Called(s, call))
  {
    CallKeepsPartition(s, call);
    ApplyGrows(s.tables, call);
    ApplyWakes(s.tables, call);
  }

  lemma StepKeepsInv(s: System, step: Step)
    requires Inv(s) && Enabled(s, step)
    ensures Inv(Next(s, step))
  {
    if step.Do? {
      CallKeepsInv(s, step.call);
    } else {
      StepKeepsPartition(s, step);
      assert Next(s, step).tables.fdToCallback == s.tables.fdToCallback;
    }
  }

  lemma {:induction false} RunKeepsInv(s: System, steps: seq<Step>)
    requires Inv(s) && CanRun(s, steps)
    ensures Inv(Run(s, steps))
    decreases |steps|
  {
    if steps == [] {
    } else {
      StepKeepsInv(s, steps[0]);
      RunKeepsInv(Next(s, steps[0]), steps[1..]);
    }
  }

  /* Main results. */

  // Deferred reclamation, in every interleaving: each callback ever created is in exactly
  // one of live, queued, being destroyed, destroyed; the one being executed unlocked is
  // owned by the tables and not destroyed; and a queued callback always has a pending
  // wake-up or a drain under way, so none is forgotten.
  lemma ReclamationTheorem(open: set<Fd>, steps: seq<Step>)
    requires CanRun(Start(open), steps)
    ensures var s := Run(Start(open), steps);
            (forall a: nat :: a < s.tables.created <==>
               IsLive(s.tables, a) || IsQueued(s.tables, a) || IsBeingDestroyed(s, a) || a in s.destroyed)
            && (forall a: nat :: !(IsLive(s.tables, a) && IsQueued(s.tables, a)))
            && (forall a: nat :: IsBeingDestroyed(s, a) ==> !IsLive(s.tables, a) && !IsQueued(s.tables, a) && a !in s.destroyed)
            && (forall a: nat :: a in s.destroyed ==> !IsLive(s.tables, a) && !IsQueued(s.tables, a))
            && (s.epoll.Running? ==> Owned(s.tables, s.epoll.callback) && s.epoll.callback.address !in s.destroyed)
            && (s.tables.removeQueue != [] ==> s.tables.wakeups > 0 || s.epoll.Draining? || s.epoll.Destroying?)
  {
    RunKeepsInv(Start(open), steps);
    var s := Run(Start(open), steps);
    forall a: nat | a in s.destroyed ensures !IsLive(s.tables, a) && !IsQueued(s.tables, a) && a < s.tables.created {
      assert Gone(s, a);
    }
    forall a: nat | IsBeingDestroyed(s, a) ensures !IsLive(s.tables, a) && !IsQueued(s.tables, a) && a < s.tables.created {
      assert Gone(s, a);
    }
    if s.epoll.Running? {
      assert IsLive(s.tables, s.epoll.callback.address) || IsQueued(s.tables, s.epoll.callback.address);
      assert !Gone(s, s.epoll.callback.address);
    }
  }

  // The callback a step takes off the queue.
  function TakenBy(s: System, step: Step): seq<Callback>
    requires Enabled(s, step)
  {
    if step.DrainSection? && Next(s, step).epoll.Destroying? then [Next(s, step).epoll.callback] else []
  }

  function Taken(s: System, steps: seq<Step>): seq<Callback>
    requires CanRun(s, steps)
    decreases |steps|
  {
    if steps == [] then [] else TakenBy(s, steps[0]) + Taken(Next(s, steps[0]), steps[1..])
  }

  function CallbackAt(t: Tables, key: FdDirection): seq<Callback>
  {
    if key in t.fdToCallback then [t.fdToCallback[key].callback] else []
  }

  // Replacing and deregistering retire the callbacks in place.
  function RetiredBy(t: Tables, step: Step): seq<Callback>
  {
    match step
    case Do(ReplaceCall(token, _)) => if token in t.cancelMap then CallbackAt(t, t.cancelMap[token]) else []
    case Do(DeregisterActionCall(token)) => if token in t.cancelMap then CallbackAt(t, t.cancelMap[token]) else []
    case Do(DeregisterFdCall(fd)) => CallbackAt(t, FdDirection(fd, INPUT)) + CallbackAt(t, FdDirection(fd, OUTPUT))
    case _ => []
  }

  function Retired(s: System, steps: seq<Step>): seq<Callback>
    requires CanRun(s, steps)
    decreases |steps|
  {
    if steps == [] then [] else RetiredBy(s.tables, steps[0]) + Retired(Next(s, steps[0]), steps[1..])
  }

  lemma ReplaceRetires(t: Tables, token: Token, self: Option<ObjectId>)
    ensures Replace(t, token, self).0.removeQueue == t.removeQueue + RetiredBy(t, Do(ReplaceCall(token, self)))
  {
  }

  lemma DeregisterActionRetires(t: Tables, token: Token)
    ensures DeregisterAction(t, token).0.removeQueue == t.removeQueue + RetiredBy(t, Do(DeregisterActionCall(token)))
  {
  }

  lemma DeregisterFdRetires(t: Tables, fd: Fd)
    ensures DeregisterFd(t, fd).removeQueue == t.removeQueue + RetiredBy(t, Do(DeregisterFdCall(fd)))
  {
  }

  lemma StepRetires(s: System, step: Step)
    requires Enabled(s, step)
    ensures TakenBy(s, step) + Next(s, step).tables.removeQueue == s.tables.removeQueue + RetiredBy(s.tables, step)
  {
    match step
    case Do(ReplaceCall(token, self)) => ReplaceRetires(s.tables, token, self);
    case Do(DeregisterActionCall(token)) => DeregisterActionRetires(s.tables, token);
    case Do(DeregisterFdCall(fd)) => DeregisterFdRetires(s.tables, fd);
    case _ =>
  }

  lemma Regroup(q: seq<Callback>, recent: seq<Callback>, newer: seq<Callback>,
                gone: seq<Callback>, taken: seq<Callback>, mid: seq<Callback>, rest: seq<Callback>)
    requires gone + mid == q + recent && taken + rest == mid + newer
    ensures (gone + taken) + rest == q + (recent + newer)
  {
    assert (gone + taken) + rest == gone + (taken + rest);
    assert gone + (mid + newer) == (gone + mid) + newer;
  }

  // Callbacks are destroyed in the order in which they were replaced or deregistered, and no
  // others are: in every run, those taken off the queue and those still there are together those
  // that were there and those retired since.
  lemma {:induction false} DestroyedInOrder(s: System, steps: seq<Step>)
    requires CanRun(s, steps)
    ensures Taken(s, steps) + Run(s, steps).tables.removeQueue == s.tables.removeQueue + Retired(s, steps)
    decreases |steps|
  {
    if steps == [] {
    } else {
      var next, rest := Next(s, steps[0]), steps[1..];
      StepRetires(s, steps[0]);
      DestroyedInOrder(next, rest);
      Regroup(s.tables.removeQueue, RetiredBy(s.tables, steps[0]), Retired(next, rest),
              TakenBy(s, steps[0]), Taken(next, rest), next.tables.removeQueue, Run(s, steps).tables.removeQueue);
    }
  }

  // Until the callback being executed returns, no step destroys it: it stays owned, and
  // nothing is destroyed at all while it runs.
  lemma {:induction false} RunningCallbackSurvives(s: System, steps: seq<Step>)
    requires Inv(s) && s.epoll.Running? && CanRun(s, steps)
    requires forall i :: 0 <= i < |steps| ==> !steps[i].Return?
    ensures var u := Run(s, steps);
            u.epoll == s.epoll && u.destroyed == s.destroyed && Owned(u.tables, s.epoll.callback)
    decreases |steps|
  {
    if steps == [] {
    } else {
      StepKeepsInv(s, steps[0]);
      RunningCallbackSurvives(Next(s, steps[0]), steps[1..]);
    }
  }

  lemma RunOne(s: System, step: Step, rest: seq<Step>)
    requires Enabled(s, step) && CanRun(Next(s, step), rest)
    ensures CanRun(s, [step] + rest) && Run(s, [step] + rest) == Run(Next(s, step), rest)
  {
    assert ([step] + rest)[1..] == rest;
  }

  lemma {:induction false} RunConcat(s: System, first: seq<Step>, second: seq<Step>)
    requires CanRun(s, first) && CanRun(Run(s, first), second)
    ensures CanRun(s, first + second) && Run(s, first + second) == Run(Run(s, first), second)
    decreases |first|
  {
    if first == [] {
      assert first + second == second;
    } else {
      assert (first + second)[1..] == first[1..] + second;
      RunConcat(Next(s, first[0]), first[1..], second);
    }
  }
}
