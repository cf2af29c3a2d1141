// The AsyncFd object: one message read or written through the epoll loop, its buffers filled
// and drained in place. What the C++ passes to resolve is returned in an out-parameter.
module AsyncFd {
  import opened Prelude
  import opened Framing
  import opened Registry
  import E = EpollLoop

  datatype IoError = Timeout | Error
  datatype IoResult<+T> = Ok(value: T) | Err(error: IoError)

  // What the registered ProcData callback will continue with.
  datatype Operation = Idle | RecvLength | RecvBody | SendLength | SendBody

  // The outcome of one recv (or send) in the callback, or the error epoll reported instead.
  // WouldBlock is EAGAIN; send takes it for an error like any other.
  datatype Outcome = Moved(n: nat) | WouldBlock | EndOfStream | SocketError | Reported(error: IoError)

  // A connected socket: bytes that recv can return, bytes that send has accepted.
  class Socket {
    var rx: seq<byte>
    var tx: seq<byte>

    constructor ()
      ensures rx == [] && tx == []
    {
      rx, tx := [], [];
    }
  }

  class AsyncFd {
    const id: ObjectId
    const loop: E.EpollLoop
    var fd: Fd
    var token: Token
    var op: Operation
    var data: array<byte>
    var left: nat
    var message: Message

    constructor (id: ObjectId, fd: Fd, loop: E.EpollLoop)
      ensures this.id == id && this.fd == fd && this.loop == loop && token == 0 && Valid()
    {
      this.id, this.fd, this.loop, token, op := id, fd, loop, 0, Idle;
      data := new byte[0];
      left, message := 0, [];
    }

    ghost predicate Valid()
      reads this, data
    {
      && (token == 0 <==> op == Idle)
      && left <= data.Length
      && (op != Idle ==> left > 0)
      && (op == RecvLength ==> data.Length == HEADER_SIZE)
      && (op == RecvBody ==> data.Length < U32_RANGE)
      && (op == SendLength ==> data[..] == HostU32(|message|) && |message| % U32_RANGE > 0)
      && (op == SendBody ==> data[..] == message)
    }

    predicate Receiving()
      reads this
    {
      op == RecvLength || op == RecvBody
    }

    predicate Sending()
      reads this
    {
      op == SendLength || op == SendBody
    }

    // The reader this object is, as Framing.OnBytes sees it.
    ghost function AsReader(): (r: Reader)
      reads this, data
      requires Valid() && Receiving()
      ensures r.Valid() && r.Left() == left
    {
      var got := data[..data.Length - left];
      if op == RecvLength then ReadLength(got) else ReadBody(data.Length, got)
    }

    // Bytes of Frame(message) that send has accepted.
    function Sent(): nat
      reads this, data
      requires Sending() && left <= data.Length
    {
      (if op == SendLength then 0 else HEADER_SIZE) + (data.Length - left)
    }

    method RecvMessage() returns (started: bool, resolved: Option<IoResult<Message>>)
      requires Valid() && loop.nextToken > 0
      modifies this, loop
      ensures Valid() && fd == old(fd)
      ensures started == (old(token) == 0)
      ensures !started ==> unchanged(this) && unchanged(loop) && resolved.None?
      ensures started ==>
        var (tables, ok) := Register(old(loop.Model()), fd, INPUT, Some(id), Some(id));
        loop.Model() == tables
        && (ok ==> resolved.None? && token == old(loop.nextToken) && op == RecvLength && fresh(data) && AsReader() == FRESH)
        && (!ok ==> resolved == Some(Err(Error)) && token == 0)
      ensures old(Inv(loop.Model())) ==> Inv(loop.Model())
    {
      if token != 0 {
        return false, None;
      }
      var buffer := new byte[HEADER_SIZE];
      var done := ProcData(INPUT, RecvLength, buffer);
      resolved := if done then None else Some(Err(Error));
      started := true;
      assert done ==> data[..0] == [];
    }

    // aborted: the length field would be zero and assert(msg_len > 0) fired.
    method SendMessage(msg: Message) returns (started: bool, resolved: Option<IoResult<()>>, aborted: bool)
      requires Valid() && loop.nextToken > 0
      modifies this, loop
      ensures Valid() && fd == old(fd)
      ensures aborted == (old(token) == 0 && |msg| % U32_RANGE == 0)
      ensures started == (old(token) == 0 && !aborted)
      ensures !started ==> unchanged(this) && unchanged(loop) && resolved.None?
      ensures started ==>
        var (tables, ok) := Register(old(loop.Model()), fd, OUTPUT, Some(id), Some(id));
        loop.Model() == tables
        && (ok ==> resolved.None? && token == old(loop.nextToken) && op == SendLength && fresh(data)
                   && message == msg && Sent() == 0)
        && (!ok ==> resolved == Some(Err(Error)) && token == 0)
      ensures old(Inv(loop.Model())) ==> Inv(loop.Model())
    {
      if token != 0 {
        return false, None, false;
      }
      if |msg| % U32_RANGE == 0 {
        return false, None, true;
      }
      message := msg;
      var buffer := BufferOf(HostU32(|msg|));
      var done := ProcData(OUTPUT, SendLength, buffer);
      resolved := if done then None else Some(Err(Error));
      started, aborted := true, false;
    }

    // The INPUT callback. aborted: the length field was zero and assert(msg_len > 0) fired.
    method OnReadable(socket: Socket, outcome: Outcome)
      returns (resolved: Option<IoResult<Message>>, aborted: bool)
      requires Valid() && Receiving()
      requires outcome.Moved? ==> 0 < outcome.n <= left && outcome.n <= |socket.rx|
      modifies this, loop, data, socket
      ensures !aborted && !(outcome.WouldBlock? && old(left) == old(data.Length)) ==> Valid()
      ensures fd == old(fd) && socket.tx == old(socket.tx)
      ensures outcome.Moved? ==> socket.rx == old(socket.rx)[outcome.n..]
      ensures outcome.Moved? ==>
        var (next, out) := OnBytes(old(AsReader()), old(socket.rx)[..outcome.n]);
        aborted == (next == Aborted)
        && (out.Some? ==> resolved == Some(Ok(out.value)) && token == 0
                          && loop.Model() == Registry.DeregisterAction(old(loop.Model()), old(token)).0)
        && (out.None? && old(op) == RecvLength && next.ReadBody? ==>
              var (tables, ok) := Replace(old(loop.Model()), old(token), Some(id));
              (ok ==> resolved.None? && Receiving() && token == old(token) && loop.Model() == tables && AsReader() == next)
              && (!ok ==> resolved == Some(Err(Error)) && token == 0
                          && loop.Model() == Registry.DeregisterAction(tables, old(token)).0))
        && (out.None? && !aborted && !(old(op) == RecvLength && next.ReadBody?) ==>
              resolved.None? && Receiving() && token == old(token) && unchanged(loop) && AsReader() == next)
      ensures outcome.WouldBlock? ==>
        !aborted && resolved.None? && left == old(left) + 1 && token == old(token) && op == old(op)
        && data == old(data) && unchanged(data) && unchanged(socket) && unchanged(loop)
      ensures !outcome.Moved? && !outcome.WouldBlock? ==>
        !aborted && unchanged(socket) && token == 0 && resolved.Some? && resolved.value.Err?
        && loop.Model() == Registry.DeregisterAction(old(loop.Model()), old(token)).0
      ensures old(Inv(loop.Model())) ==> Inv(loop.Model())
    {
      aborted := false;
      if outcome.WouldBlock? {
        left := left + 1;
        return None, false;
      }
      if !outcome.Moved? {
        Deregister();
        return Some(Err(if outcome.Reported? then outcome.error else Error)), false;
      }
      ghost var got := AsReader().got;
      ghost var chunk := socket.rx[..outcome.n];
      Copy(socket, outcome.n);
      assert data[..data.Length - left] == got + chunk;
      if left > 0 {
        return None, false;
      }
      assert data[..] == data[..data.Length - left];
      if op == RecvBody {
        Deregister();
        return Some(Ok(data[..])), false;
      }
      var size := FromHostU32(data[..]);
      FromHostU32RoundTrip(data[..]);
      if size == 0 {
        return None, true;
      }
      var body := new byte[size];
      var done := ProcData(INPUT, RecvBody, body);
      if done {
        assert data[..0] == [];
        resolved := None;
      } else {
        Deregister();
        resolved := Some(Err(Error));
      }
    }

    // The OUTPUT callback.
    method OnWritable(socket: Socket, outcome: Outcome) returns (resolved: Option<IoResult<()>>)
      requires Valid() && Sending()
      requires outcome.Moved? ==> 0 < outcome.n <= left
      modifies this, loop, socket
      ensures Valid() && fd == old(fd) && socket.rx == old(socket.rx)
      ensures outcome.Moved? ==>
        var sent := old(Sent()) + outcome.n;
        sent <= |Frame(old(message))|
        && socket.tx == old(socket.tx) + Frame(old(message))[old(Sent())..sent]
        && (sent == |Frame(old(message))| ==>
              resolved == Some(Ok(())) && token == 0
              && loop.Model() == Registry.DeregisterAction(old(loop.Model()), old(token)).0)
        && (sent == HEADER_SIZE ==>
              var (tables, ok) := Replace(old(loop.Model()), old(token), Some(id));
              (ok ==> resolved.None? && Sending() && token == old(token) && message == old(message) && Sent() == sent
                      && loop.Model() == tables)
              && (!ok ==> resolved == Some(Err(Error)) && token == 0
                          && loop.Model() == Registry.DeregisterAction(tables, old(token)).0))
        && (sent != |Frame(old(message))| && sent != HEADER_SIZE ==>
              resolved.None? && Sending() && token == old(token) && message == old(message) && Sent() == sent && unchanged(loop))
      ensures !outcome.Moved? ==>
        socket.tx == old(socket.tx) && token == 0 && resolved.Some? && resolved.value.Err?
        && loop.Model() == Registry.DeregisterAction(old(loop.Model()), old(token)).0
      ensures old(Inv(loop.Model())) ==> Inv(loop.Model())
    {
      if !outcome.Moved? {
        Deregister();
        return Some(Err(if outcome.Reported? then outcome.error else Error));
      }
      Push(socket, outcome.n);
      if left > 0 {
        return None;
      }
      if op == SendBody {
        Deregister();
        return Some(Ok(()));
      }
      assert |message| > 0;
      var body := BufferOf(message);
      var replaced := ProcData(OUTPUT, SendBody, body);
      if replaced {
        resolved := None;
      } else {
        Deregister();
        resolved := Some(Err(Error));
      }
    }

    // send reading at data + (size - left_size), then left_size -= length.
    method Push(socket: Socket, n: nat)
      requires Valid() && Sending() && n <= left
      modifies this`left, socket`tx
      ensures left == old(left) - n
      ensures old(Sent()) + n <= |Frame(message)|
      ensures socket.tx == old(socket.tx) + Frame(message)[old(Sent())..old(Sent()) + n]
    {
      var at := data.Length - left;
      if op == SendLength {
        assert data[at..at + n] == data[..][at..at + n] == HostU32(|message|)[at..at + n] == Frame(message)[at..at + n];
      } else {
        assert data[at..at + n] == data[..][at..at + n] == message[at..at + n];
        assert message[at..at + n] == Frame(message)[HEADER_SIZE + at..HEADER_SIZE + at + n];
      }
      socket.tx := socket.tx + data[at..at + n];
      left := left - n;
    }

    method Release() returns (released: Fd)
      requires Valid()
      modifies this, loop
      ensures Valid() && released == old(fd) && fd == -1 && token == 0
      ensures loop.Model() == if old(token) == 0 then old(loop.Model())
                              else Registry.DeregisterAction(old(loop.Model()), old(token)).0
      ensures old(Inv(loop.Model())) ==> Inv(loop.Model())
    {
      if token != 0 {
        Deregister();
      }
      released := fd;
      fd := -1;
    }

    method Deregister()
      modifies this`token, this`op, loop
      ensures token == 0 && op == Idle
      ensures loop.Model() == if old(token) == 0 then old(loop.Model())
                              else Registry.DeregisterAction(old(loop.Model()), old(token)).0
      ensures old(Inv(loop.Model())) ==> Inv(loop.Model())
    {
      if token != 0 {
        var _ := loop.DeregisterAction(token);
        token := 0;
      }
      op := Idle;
    }

    // Registers the callback for a whole buffer, or replaces the one in place.
    method ProcData(dir: IoDirection, next: Operation, buffer: array<byte>) returns (ok: bool)
      requires next != Idle && (token == 0 ==> loop.nextToken > 0)
      modifies this`token, this`op, this`data, this`left, loop
      ensures ok ==> op == next && data == buffer && left == buffer.Length && token != 0
      ensures !ok ==> op == old(op) && data == old(data) && left == old(left) && token == old(token)
      ensures old(token) == 0 ==>
        var (tables, registered) := Register(old(loop.Model()), fd, dir, Some(id), Some(id));
        loop.Model() == tables && ok == registered && (ok ==> token == old(loop.nextToken))
      ensures old(token) != 0 ==>
        loop.Model() == Replace(old(loop.Model()), old(token), Some(id)).0
        && ok == Replace(old(loop.Model()), old(token), Some(id)).1 && token == old(token)
      ensures old(Inv(loop.Model())) ==> Inv(loop.Model())
    {
      if token == 0 {
        var issued: Token;
        ok, issued := loop.RegisterAction(fd, dir, Some(id), Some(id));
        if !ok {
          return;
        }
        token := issued;
      } else {
        ok := loop.ReplaceAction(token, Some(id));
        if !ok {
          return;
        }
      }
      op, data, left := next, buffer, buffer.Length;
    }

    // recv writing at data + (size - left_size), then left_size -= length.
    method Copy(socket: Socket, n: nat)
      requires n <= left <= data.Length && n <= |socket.rx|
      modifies this`left, data, socket`rx
      ensures left == old(left) - n && socket.rx == old(socket.rx)[n..]
      ensures data[..data.Length - left] == old(data[..data.Length - left]) + old(socket.rx)[..n]
    {
      var at := data.Length - left;
      for i := 0 to n
        modifies data
        invariant data[..at] == old(data[..data.Length - left])
        invariant data[at..at + i] == socket.rx[..i]
      {
        data[at + i] := socket.rx[i];
      }
      left := left - n;
      socket.rx := socket.rx[n..];
    }
  }

  method BufferOf(bytes: seq<byte>) returns (buffer: array<byte>)
    ensures fresh(buffer) && buffer[..] == bytes
  {
    buffer := new byte[|bytes|](i requires 0 <= i < |bytes| => bytes[i]);
  }
}
