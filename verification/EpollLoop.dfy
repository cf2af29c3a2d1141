// The EpollLoop object. Each method is one globalLock_ section; its contract is the
// corresponding function on Registry.Tables.
module EpollLoop {
  import opened Prelude
  import opened Registry

  class EpollLoop {
    var fdToCallback: map<FdDirection, CallbackKeeper>
    var cancelMap: map<Token, FdDirection>
    var removeQueue: seq<Callback>
    var nextToken: Token
    // The kernel's side, and the allocator that names callbacks.
    var removeEvent: nat
    var created: nat
    var open: set<Fd>
    var interest: map<Fd, set<IoDirection>>

    function Model(): Tables
      reads this
    {
      Tables(fdToCallback, cancelMap, removeQueue, nextToken, removeEvent, created, open, interest)
    }

    // The callback registered for a direction, if there is one.
    function CallbackAt(key: FdDirection): seq<Callback>
      reads this
    {
      if key in fdToCallback then [fdToCallback[key].callback] else []
    }

    constructor (open: set<Fd>)
      ensures Model() == NewTables(open)
      ensures Inv(Model())
    {
      fdToCallback, cancelMap, removeQueue := map[], map[], [];
      nextToken, removeEvent, created := 1, 0, 0;
      this.open, interest := open, map[];
    }

    method RegisterAction(fd: Fd, dir: IoDirection, self: Option<ObjectId>, keepLink: Option<ObjectId>)
      returns (ok: bool, token: Token)
      modifies this
      ensures Model() == Register(old(Model()), fd, dir, self, keepLink).0
      ensures ok == Register(old(Model()), fd, dir, self, keepLink).1
      ensures token == if ok then old(nextToken) else 0
      ensures ok ==>
        var key, keeper := FdDirection(fd, dir), CallbackKeeper(Callback(old(created), self), keepLink);
        fdToCallback == old(fdToCallback)[key := keeper] && cancelMap == old(cancelMap)[token := key]
      ensures !ok ==> fdToCallback == old(fdToCallback) && cancelMap == old(cancelMap)
      ensures removeQueue == old(removeQueue)
      ensures old(Inv(Model())) ==> Inv(Model())
    {
      ghost var was := Model();
      ok, token := AddAction(fd, dir, self, keepLink);
      if Inv(was) {
        RegisterKeepsInv(was, fd, dir, self, keepLink);
      }
    }

    // The locked section of RegisterAction.
    method AddAction(fd: Fd, dir: IoDirection, self: Option<ObjectId>, keepLink: Option<ObjectId>)
      returns (ok: bool, token: Token)
      modifies this
      ensures Model() == Register(old(Model()), fd, dir, self, keepLink).0
      ensures ok == Register(old(Model()), fd, dir, self, keepLink).1
      ensures token == if ok then old(nextToken) else 0
    {
      if FdDirection(fd, dir) in fdToCallback {
        return false, 0;
      }
      var events, cmd := {}, Mod;
      if FdDirection(fd, Opposite(dir)) in fdToCallback {
        cmd := Mod;
        events := {INPUT, OUTPUT};
      } else {
        cmd := Add;
        events := {dir};
      }
      var done := EpollCtl(fd, cmd, events);
      if !done {
        return false, 0;
      }
      var callback := NewCallback(self);
      fdToCallback := fdToCallback[FdDirection(fd, dir) := CallbackKeeper(callback, keepLink)];
      cancelMap := cancelMap[nextToken := FdDirection(fd, dir)];
      token := nextToken;
      nextToken := nextToken + 1;
      ok := true;
    }

    method ReplaceAction(token: Token, self: Option<ObjectId>) returns (ok: bool)
      modifies this
      ensures Model() == Replace(old(Model()), token, self).0
      ensures ok == Replace(old(Model()), token, self).1
      ensures ok <==> token in old(cancelMap) && old(cancelMap)[token] in old(fdToCallback)
      ensures ok ==>
        var key := old(cancelMap)[token];
        var was := old(fdToCallback)[key];
        fdToCallback == old(fdToCallback)[key := was.(callback := Callback(old(created), self))]
        && removeQueue == old(removeQueue) + [was.callback]
      ensures !ok ==> fdToCallback == old(fdToCallback) && removeQueue == old(removeQueue)
      ensures cancelMap == old(cancelMap)
      ensures old(Inv(Model())) ==> Inv(Model())
    {
      ghost var was := Model();
      if Inv(was) {
        ReplaceKeepsInv(was, token, self);
      }
      if token !in cancelMap {
        return false;
      }
      var key := cancelMap[token];
      if key !in fdToCallback {
        return false;
      }
      UtilizeCallback(fdToCallback[key].callback);
      var callback := NewCallback(self);
      fdToCallback := fdToCallback[key := fdToCallback[key].(callback := callback)];
      return true;
    }

    method DeregisterAction(token: Token) returns (ok: bool)
      modifies this
      ensures Model() == Registry.DeregisterAction(old(Model()), token).0
      ensures ok == Registry.DeregisterAction(old(Model()), token).1
      ensures token !in cancelMap && forall o :: o != token ==> (o in cancelMap <==> o in old(cancelMap))
      ensures forall o :: o in cancelMap ==> cancelMap[o] == old(cancelMap)[o]
      ensures forall key :: key in fdToCallback <==>
                key in old(fdToCallback) && !(token in old(cancelMap) && old(cancelMap)[token] == key)
      ensures removeQueue == old(removeQueue)
                             + if token in old(cancelMap) then old(CallbackAt(cancelMap[token])) else []
      ensures old(Inv(Model())) ==> Inv(Model())
    {
      ghost var was := Model();
      TokenForgotten(was, token);
      if Inv(was) {
        DeregisterActionKeepsInv(was, token);
      }
      if token !in cancelMap {
        return false;
      }
      var key := cancelMap[token];
      if key !in fdToCallback {
        cancelMap := cancelMap - {token};
        return false;
      }
      UtilizeCallback(fdToCallback[key].callback);
      fdToCallback := fdToCallback - {key};
      cancelMap := cancelMap - {token};
      var cmd := if FdDirection(key.fd, Opposite(key.dir)) in fdToCallback then Mod else Del;
      ok := EpollCtl(key.fd, cmd, {Opposite(key.dir)});
    }

    method DeregisterFd(fd: Fd)
      modifies this
      ensures Model() == Registry.DeregisterFd(old(Model()), fd)
      ensures cancelMap == old(cancelMap)
      ensures forall key :: key in fdToCallback <==> key in old(fdToCallback) && key.fd != fd
      ensures removeQueue == old(removeQueue + CallbackAt(FdDirection(fd, INPUT)) + CallbackAt(FdDirection(fd, OUTPUT)))
      ensures old(Inv(Model())) ==> Inv(Model())
    {
      ghost var was := Model();
      DeregisterFdDrops(was, fd);
      if Inv(was) {
        DeregisterFdKeepsInv(was, fd);
      }
      var got := false;
      var key := FdDirection(fd, INPUT);
      if key in fdToCallback {
        var callback := fdToCallback[key].callback;
        fdToCallback := fdToCallback - {key};
        UtilizeCallback(callback);
        got := true;
      }
      key := FdDirection(fd, OUTPUT);
      if key in fdToCallback {
        var callback := fdToCallback[key].callback;
        fdToCallback := fdToCallback - {key};
        UtilizeCallback(callback);
        got := true;
      }
      if got {
        var _ := EpollCtl(fd, Del, {});
      }
    }

    // The removeEvent_ branch of Run when no other thread interferes: callbacks are
    // destroyed oldest first and the wake-up is consumed.
    method Drain() returns (destroyed: seq<Callback>)
      modifies this
      ensures destroyed == old(removeQueue)
      ensures Model() == old(Model()).(removeQueue := [], wakeups := 0)
    {
      removeEvent := 0;
      destroyed := [];
      while removeQueue != []
        invariant destroyed + removeQueue == old(removeQueue)
        invariant Model() == old(Model()).(removeQueue := removeQueue, wakeups := 0)
        decreases |removeQueue|
      {
        destroyed := destroyed + [removeQueue[0]];
        removeQueue := removeQueue[1..];
      }
    }

    method NewCallback(self: Option<ObjectId>) returns (callback: Callback)
      modifies this`created
      ensures callback == Callback(old(created), self) && created == old(created) + 1
    {
      callback := Callback(created, self);
      created := created + 1;
    }

    method UtilizeCallback(callback: Callback)
      modifies this`removeQueue, this`removeEvent
      ensures Model() == Utilize(old(Model()), callback)
    {
      removeQueue := removeQueue + [callback];
      removeEvent := removeEvent + 1;
    }

    method EpollCtl(fd: Fd, cmd: CtlCommand, events: set<IoDirection>) returns (ok: bool)
      modifies this`interest
      ensures ok == CtlSucceeds(old(Model()), fd, cmd)
      ensures Model() == Ctl(old(Model()), fd, cmd, events)
    {
      ok := CtlSucceeds(Model(), fd, cmd);
      interest := Ctl(Model(), fd, cmd, events).interest;
    }
  }
}
