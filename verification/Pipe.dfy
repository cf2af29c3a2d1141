// One direction of a TCP connection: the messages given to AsyncFd::SendMessage one after
// another, the bytes between the two sockets, and the RecvMessage loop at the other end.
module Pipe {
  import opened Prelude
  import opened Framing

  // started: every message passed to AsyncFd::SendMessage so far. out: the number of frame
  // bytes of the last one that send has accepted, None when its callback deregistered.
  // input: the registered INPUT callback. handing: messages of callbacks that deregistered and
  // are inside resolve. arming: RecvMessage calls that have yet to register. clash: one of
  // them found the INPUT direction taken.
  datatype Pipe = Pipe(
    started: seq<Message>,
    out: Option<nat>,
    channel: seq<byte>,
    input: Option<Reader>,
    handing: seq<Message>,
    arming: nat,
    delivered: seq<Message>,
    clash: bool)

  const EMPTY := Pipe([], None, [], None, [], 0, [], false)

  function Last(ms: seq<Message>): Message
    requires ms != []
  {
    ms[|ms| - 1]
  }

  // Bytes left in the phase (length, then body) the OUTPUT callback is in.
  function SendLeft(m: Message, sent: nat): int
  {
    if sent < HEADER_SIZE then HEADER_SIZE - sent else |Frame(m)| - sent
  }

  /* Steps. */

  predicate CanStart(p: Pipe, m: Message)
  {
    p.out == None && Sendable(m)
  }

  function Start(p: Pipe, m: Message): Pipe
    requires CanStart(p, m)
  {
    p.(started := p.started + [m], out := Some(0))
  }

  // The OUTPUT callback runs once and send accepts n bytes.
  predicate CanWrite(p: Pipe, n: nat)
  {
    p.out.Some? && p.started != [] && p.out.value < |Frame(Last(p.started))|
    && 0 < n <= SendLeft(Last(p.started), p.out.value)
  }

  function Write(p: Pipe, n: nat): Pipe
    requires CanWrite(p, n)
  {
    var frame, sent := Frame(Last(p.started)), p.out.value;
    p.(channel := p.channel + frame[sent..sent + n],
       out := if sent + n == |frame| then None else Some(sent + n))
  }

  // RecvMessage is called.
  function Listen(p: Pipe): Pipe
  {
    p.(arming := p.arming + 1)
  }

  // It registers its INPUT callback, which fails when there is one.
  function Arm(p: Pipe): Pipe
    requires p.arming > 0
  {
    if p.input.Some? then p.(arming := p.arming - 1, clash := true)
    else p.(arming := p.arming - 1, input := Some(FRESH))
  }

  // The INPUT callback runs once and recv returns n bytes.
  predicate CanRead(p: Pipe, n: nat)
  {
    p.input.Some? && p.input.value.Valid() && 0 < n <= p.input.value.Left() && n <= |p.channel|
  }

  function Read(p: Pipe, n: nat): Pipe
    requires CanRead(p, n)
  {
    var (next, out) := OnBytes(p.input.value, p.channel[..n]);
    p.(channel := p.channel[n..],
       input := if out.Some? then None else Some(next),
       handing := if out.Some? then p.handing + [out.value] else p.handing)
  }

  // resolve passes a message on.
  function Pass(p: Pipe): Pipe
    requires p.handing != []
  {
    p.(delivered := p.delivered + [p.handing[0]], handing := p.handing[1..])
  }

  /* Accounting. */

  function Written(p: Pipe): seq<byte>
    requires p.out.Some? ==> p.started != [] && p.out.value <= |Frame(Last(p.started))|
  {
    if p.out.None? then Frames(p.started)
    else Frames(p.started[..|p.started| - 1]) + Frame(Last(p.started))[..p.out.value]
  }

  function Unsent(p: Pipe): seq<byte>
    requires p.out.Some? ==> p.started != [] && p.out.value <= |Frame(Last(p.started))|
  {
    if p.out.None? then [] else Frame(Last(p.started))[p.out.value..]
  }

  // Messages that left the reader.
  function Taken(p: Pipe): seq<Message>
  {
    p.delivered + p.handing
  }

  function Partial(p: Pipe): seq<byte>
  {
    if p.input.Some? then p.input.value.Partial() else []
  }

  // RecvMessage calls, registered callbacks and callbacks inside resolve.
  function Readers(p: Pipe): nat
  {
    |p.handing| + p.arming + if p.input.Some? then 1 else 0
  }

  ghost predicate Inv(p: Pipe)
  {
    && AllSendable(p.started)
    && (p.out.Some? ==> p.started != [] && p.out.value < |Frame(Last(p.started))|)
    && (p.input.Some? ==> p.input.value.Valid())
    && !p.clash && Readers(p) <= 1
    && Taken(p) <= p.started
    && Written(p) == Frames(Taken(p)) + Partial(p) + p.channel
  }

  // Messages started but not yet out of the reader.
  function InTransit(p: Pipe): seq<Message>
    requires Taken(p) <= p.started
  {
    p.started[|Taken(p)|..]
  }

  lemma WrittenPlusUnsent(p: Pipe)
    requires p.out.Some? ==> p.started != [] && p.out.value <= |Frame(Last(p.started))|
    ensures Written(p) + Unsent(p) == Frames(p.started)
  {
    if p.out.Some? {
      var front := p.started[..|p.started| - 1];
      assert p.started == front + [Last(p.started)];
      FramesSnoc(front, Last(p.started));
      var frame := Frame(Last(p.started));
      assert frame[..p.out.value] + frame[p.out.value..] == frame;
    }
  }

  lemma StartKeepsInv(p: Pipe, m: Message)
    requires Inv(p) && CanStart(p, m)
    ensures Inv(Start(p, m))
  {
  }

  lemma Associate(a: seq<byte>, b: seq<byte>, c: seq<byte>)
    ensures a + b + c == a + (b + c)
  {
  }

  lemma Slices(frame: seq<byte>, sent: nat, n: nat)
    requires sent + n <= |frame|
    ensures frame[..sent + n] == frame[..sent] + frame[sent..sent + n]
    ensures sent + n == |frame| ==> frame[sent..sent + n] == frame[sent..]
  {
  }

  lemma WrittenGrows(p: Pipe, n: nat)
    requires Inv(p) && CanWrite(p, n)
    ensures Written(Write(p, n)) == Written(p) + Frame(Last(p.started))[p.out.value..p.out.value + n]
  {
    var frame, sent := Frame(Last(p.started)), p.out.value;
    Slices(frame, sent, n);
    if sent + n == |frame| {
      WrittenPlusUnsent(p);
    } else {
      Associate(Frames(p.started[..|p.started| - 1]), frame[..sent], frame[sent..sent + n]);
    }
  }

  lemma WriteKeepsInv(p: Pipe, n: nat)
    requires Inv(p) && CanWrite(p, n)
    ensures Inv(Write(p, n))
  {
    WrittenGrows(p, n);
    Associate(Frames(Taken(p)) + Partial(p), p.channel, Frame(Last(p.started))[p.out.value..p.out.value + n]);
    assert Taken(Write(p, n)) == Taken(p);
  }

  lemma Cancel(left: seq<byte>, a: seq<byte>, b: seq<byte>, c: seq<byte>, right: seq<byte>)
    requires left + a + b + c == left + right
    ensures a + b + c == right
  {
    assert left + a + b + c == left + (a + b + c);
    assert (left + (a + b + c))[|left|..] == a + b + c;
    assert (left + right)[|left|..] == right;
  }

  // What lies beyond the messages taken is a stream of the frames still in transit.
  lemma PendingBytes(p: Pipe)
    requires Inv(p)
    ensures Partial(p) + p.channel + Unsent(p) == Frames(InTransit(p))
  {
    WrittenPlusUnsent(p);
    assert p.started == Taken(p) + InTransit(p);
    FramesConcat(Taken(p), InTransit(p));
    Cancel(Frames(Taken(p)), Partial(p), p.channel, Unsent(p), Frames(InTransit(p)));
  }

  lemma PrefixOfSum(a: seq<byte>, chunk: seq<byte>, later: seq<byte>, rest: seq<byte>)
    ensures a + chunk <= a + (chunk + later) + rest
  {
  }

  lemma ReaderSeesPending(p: Pipe, n: nat)
    requires Inv(p) && CanRead(p, n)
    ensures Partial(p) + p.channel[..n] <= Frames(InTransit(p))
  {
    PendingBytes(p);
    var chunk, later := p.channel[..n], p.channel[n..];
    assert p.channel == chunk + later;
    PrefixOfSum(Partial(p), chunk, later, Unsent(p));
  }

  // Moving a chunk from the channel into the reader's partial frame loses no byte.
  lemma Regroup(done: seq<byte>, partial: seq<byte>, chunk: seq<byte>, later: seq<byte>)
    ensures done + partial + (chunk + later) == done + (partial + chunk) + later
  {
  }

  // The reader finished a message.
  lemma FinishedRead(p: Pipe, n: nat)
    requires Inv(p) && CanRead(p, n) && Read(p, n).input.None?
    ensures InTransit(p) != [] && Taken(Read(p, n)) == Taken(p) + [InTransit(p)[0]]
    ensures Partial(p) + p.channel[..n] == Frame(InTransit(p)[0])
  {
    ReaderSeesPending(p, n);
    ReaderFollows(InTransit(p), p.input.value, p.channel[..n]);
  }

  lemma UnfinishedRead(p: Pipe, n: nat)
    requires Inv(p) && CanRead(p, n) && Read(p, n).input.Some?
    ensures Taken(Read(p, n)) == Taken(p) && Read(p, n).input.value.Valid()
    ensures Partial(Read(p, n)) == Partial(p) + p.channel[..n]
  {
    ReaderSeesPending(p, n);
    ReaderFollows(InTransit(p), p.input.value, p.channel[..n]);
  }

  lemma FinishedAccount(p: Pipe, n: nat)
    requires Inv(p) && CanRead(p, n) && Read(p, n).input.None?
    ensures var q := Read(p, n); Written(p) == Frames(Taken(q)) + Partial(q) + q.channel && Taken(q) <= p.started
  {
    FinishedRead(p, n);
    var chunk, later, m := p.channel[..n], p.channel[n..], InTransit(p)[0];
    assert p.channel == chunk + later;
    Regroup(Frames(Taken(p)), Partial(p), chunk, later);
    FramesSnoc(Taken(p), m);
    assert Frames(Taken(p) + [m]) + [] == Frames(Taken(p) + [m]);
    assert m == p.started[|Taken(p)|];
  }

  lemma UnfinishedAccount(p: Pipe, n: nat)
    requires Inv(p) && CanRead(p, n) && Read(p, n).input.Some?
    ensures var q := Read(p, n); Written(p) == Frames(Taken(q)) + Partial(q) + q.channel && Taken(q) <= p.started
  {
    UnfinishedRead(p, n);
    var chunk, later := p.channel[..n], p.channel[n..];
    assert p.channel == chunk + later;
    Regroup(Frames(Taken(p)), Partial(p), chunk, later);
  }

  lemma ReadKeepsInv(p: Pipe, n: nat)
    requires Inv(p) && CanRead(p, n)
    ensures Inv(Read(p, n)) && Readers(Read(p, n)) == Readers(p)
    ensures Taken(p) <= Taken(Read(p, n))
  {
    if Read(p, n).input.Some? {
      UnfinishedRead(p, n);
      UnfinishedAccount(p, n);
    } else {
      FinishedRead(p, n);
      FinishedAccount(p, n);
    }
  }

  lemma PassKeepsInv(p: Pipe)
    requires Inv(p) && p.handing != []
    ensures Inv(Pass(p)) && Taken(Pass(p)) == Taken(p) && Readers(Pass(p)) == Readers(p) - 1
  {
    assert Taken(Pass(p)) == Taken(p);
  }

  lemma ListenKeepsInv(p: Pipe)
    requires Inv(p) && Readers(p) == 0
    ensures Inv(Listen(p)) && Readers(Listen(p)) == 1
  {
  }

  // A RecvMessage never finds the INPUT direction taken.
  lemma ArmKeepsInv(p: Pipe)
    requires Inv(p) && p.arming > 0
    ensures Inv(Arm(p)) && Readers(Arm(p)) == Readers(p) && Taken(Arm(p)) == Taken(p)
  {
  }

  // Nothing in the pipe and a reader waiting: everything started has been delivered.
  lemma QuietDelivered(p: Pipe)
    requires Inv(p) && p.out.None? && p.channel == [] && p.input == Some(FRESH)
    ensures p.delivered == p.started
  {
    PendingBytes(p);
    NoPartialIsWhole(InTransit(p), FRESH);
  }
}
