// Length-prefixed framing: the bytes SendMessage puts on a socket and the two-phase
// reader (length, then body) that RecvMessage builds out of ProcData callbacks.
module Framing {
  import opened Prelude

  type byte = x: int | 0 <= x < 256
  type Message = seq<byte>

  const U32_RANGE: int := 0x1_0000_0000
  const HEADER_SIZE: int := 4

  // memcpy of a uint32_t on a little-endian host; a larger size is cut to 32 bits first.
  function HostU32(n: nat): (b: seq<byte>)
  {
    LittleEndian(n, HEADER_SIZE)
  }

  function LittleEndian(n: nat, width: nat): (b: seq<byte>)
    ensures |b| == width
  {
    if width == 0 then [] else [n % 256] + LittleEndian(n / 256, width - 1)
  }

  function FromHostU32(b: seq<byte>): (n: nat)
    requires |b| == HEADER_SIZE
  {
    FromLittleEndian(b)
  }

  function FromLittleEndian(b: seq<byte>): nat
  {
    if b == [] then 0 else b[0] as int + 256 * FromLittleEndian(b[1..])
  }

  // The bytes one SendMessage call writes: the size cut to 32 bits, then the whole body.
  function Frame(m: Message): (bytes: seq<byte>)
  {
    HostU32(|m|) + m
  }

  function Frames(ms: seq<Message>): (bytes: seq<byte>)
  {
    if ms == [] then [] else Frame(ms[0]) + Frames(ms[1..])
  }

  // What assert(msg_len > 0) and the 32-bit length field demand of a message.
  predicate Sendable(m: Message)
  {
    0 < |m| < U32_RANGE
  }

  predicate AllSendable(ms: seq<Message>)
  {
    forall i :: 0 <= i < |ms| ==> Sendable(ms[i])
  }

  /* The reader. */

  // ReadLength/ReadBody: the registered callback and the bytes it has so far.
  // Aborted: assert(msg_len > 0) failed.
  datatype Reader = ReadLength(got: seq<byte>) | ReadBody(size: nat, got: seq<byte>) | Aborted
  {
    predicate Valid()
    {
      match this
      case ReadLength(got) => |got| < HEADER_SIZE
      case ReadBody(size, got) => 0 < size < U32_RANGE && |got| < size
      case Aborted => false
    }

    // left_size of the callback in place.
    function Left(): nat
      requires Valid()
    {
      if ReadLength? then HEADER_SIZE - |got| else size - |got|
    }

    // Bytes of the current frame already taken off the socket.
    function Partial(): seq<byte>
    {
      match this
      case ReadLength(got) => got
      case ReadBody(size, got) => HostU32(size) + got
      case Aborted => []
    }
  }

  const FRESH := ReadLength([])

  // One run of the INPUT callback whose recv returned chunk. A finished message is handed
  // to resolve and the next RecvMessage starts from FRESH.
  function OnBytes(r: Reader, chunk: seq<byte>): (res: (Reader, Option<Message>))
    requires r.Valid() && |chunk| <= r.Left()
  {
    var got := r.got + chunk;
    if r.ReadLength? then
      if |got| < HEADER_SIZE then (ReadLength(got), None)
      else if FromHostU32(got) == 0 then (Aborted, None)
      else (ReadBody(FromHostU32(got), []), None)
    else
      if |got| < r.size then (ReadBody(r.size, got), None)
      else (FRESH, Some(got))
  }

  /* Arithmetic of the length field. */

  function Range(width: nat): (n: nat)
    ensures n > 0
  {
    if width == 0 then 1 else 256 * Range(width - 1)
  }

  lemma RangeOfHeader()
    ensures Range(HEADER_SIZE) == U32_RANGE
  {
  }

  function High(n: nat, width: nat): nat
  {
    if width == 0 then n else High(n / 256, width - 1)
  }

  lemma {:induction false} LittleEndianSplit(n: nat, width: nat)
    ensures n == FromLittleEndian(LittleEndian(n, width)) + Range(width) * High(n, width)
  {
    if width == 0 {
    } else {
      LittleEndianSplit(n / 256, width - 1);
      assert LittleEndian(n, width)[1..] == LittleEndian(n / 256, width - 1);
      var r, h := Range(width - 1), High(n / 256, width - 1);
      assert 256 * (r * h) == (256 * r) * h;
    }
  }

  lemma {:induction false} FromLittleEndianRoundTrip(b: seq<byte>)
    ensures LittleEndian(FromLittleEndian(b), |b|) == b
    ensures FromLittleEndian(b) < Range(|b|)
  {
    if b == [] {
    } else {
      FromLittleEndianRoundTrip(b[1..]);
      var n := FromLittleEndian(b);
      assert n % 256 == b[0] && n / 256 == FromLittleEndian(b[1..]);
    }
  }

  lemma HostU32RoundTrip(n: nat)
    ensures FromHostU32(HostU32(n)) == n % U32_RANGE
  {
    LittleEndianSplit(n, HEADER_SIZE);
    FromLittleEndianRoundTrip(HostU32(n));
    RangeOfHeader();
  }

  lemma FromHostU32RoundTrip(b: seq<byte>)
    requires |b| == HEADER_SIZE
    ensures HostU32(FromHostU32(b)) == b
    ensures FromHostU32(b) < U32_RANGE
  {
    FromLittleEndianRoundTrip(b);
    RangeOfHeader();
  }

  lemma HeaderDeterminesSize(a: nat, b: nat)
    requires a < U32_RANGE && b < U32_RANGE && HostU32(a) == HostU32(b)
    ensures a == b
  {
    HostU32RoundTrip(a);
    HostU32RoundTrip(b);
  }

  lemma {:induction false} FramesConcat(a: seq<Message>, b: seq<Message>)
    ensures Frames(a + b) == Frames(a) + Frames(b)
  {
    if a == [] {
      assert a + b == b;
    } else {
      assert (a + b)[1..] == a[1..] + b;
      FramesConcat(a[1..], b);
    }
  }

  lemma FramesSnoc(ms: seq<Message>, m: Message)
    ensures Frames(ms + [m]) == Frames(ms) + Frame(m)
  {
    FramesConcat(ms, [m]);
    assert Frames([m]) == Frame(m) + Frames([]);
  }

  /* The reader against the writer. */

  lemma FramesHead(ms: seq<Message>)
    requires ms != []
    ensures Frames(ms) == Frame(ms[0]) + Frames(ms[1..])
    ensures HostU32(|ms[0]|) <= Frames(ms) && Frame(ms[0]) <= Frames(ms)
  {
  }

  // The reader has collected, with chunk, all of the length field.
  lemma LengthFieldRead(ms: seq<Message>, got: seq<byte>)
    requires ms != [] && Sendable(ms[0]) && |got| == HEADER_SIZE && got <= Frames(ms)
    ensures FromHostU32(got) == |ms[0]| && got == HostU32(|ms[0]|)
  {
    FramesHead(ms);
    assert got == Frames(ms)[..4] == HostU32(|ms[0]|);
    HostU32RoundTrip(|ms[0]|);
  }

  // A begun body belongs to the first frame, and when it is complete it is its message.
  lemma BodyRead(ms: seq<Message>, size: nat, got: seq<byte>)
    requires ms != [] && Sendable(ms[0]) && 0 < size < U32_RANGE && |got| <= size
    requires HostU32(size) + got <= Frames(ms)
    ensures size == |ms[0]|
    ensures |got| == size ==> got == ms[0]
  {
    FramesHead(ms);
    assert HostU32(size) == (HostU32(size) + got)[..4] == Frames(ms)[..4] == HostU32(|ms[0]|);
    HeaderDeterminesSize(size, |ms[0]|);
    if |got| == size {
      assert HostU32(size) + got == Frames(ms)[..4 + size] == Frame(ms[0]);
      assert got == (HostU32(size) + got)[4..] == Frame(ms[0])[4..] == ms[0];
    }
  }

  // Key step: fed bytes of a stream of frames, one callback run either keeps collecting
  // the first frame or hands over exactly its message, never more.
  lemma ReaderFollows(ms: seq<Message>, r: Reader, chunk: seq<byte>)
    requires AllSendable(ms) && r.Valid() && 0 < |chunk| <= r.Left()
    requires r.Partial() + chunk <= Frames(ms)
    ensures ms != []
    ensures var (next, out) := OnBytes(r, chunk);
            next.Valid()
            && (out.None? ==> next.Partial() == r.Partial() + chunk)
            && (out.Some? ==> out.value == ms[0] && next == FRESH && r.Partial() + chunk == Frame(ms[0]))
  {
    assert |Frames(ms)| >= |chunk|;
    var got := r.got + chunk;
    if r.ReadLength? {
      if |got| == HEADER_SIZE {
        LengthFieldRead(ms, got);
        assert HostU32(|ms[0]|) + [] == got;
      }
    } else {
      assert HostU32(r.size) + got == r.Partial() + chunk;
      BodyRead(ms, r.size, got);
    }
  }

  // A reader fed a list of chunks; every chunk is what one recv returned, so it is not
  // empty and no longer than the callback's left_size.
  predicate Chunking(r: Reader, chunks: seq<seq<byte>>)
    decreases |chunks|
  {
    chunks == [] ||
    (r.Valid() && 0 < |chunks[0]| <= r.Left() && Chunking(OnBytes(r, chunks[0]).0, chunks[1..]))
  }

  function ReadAll(r: Reader, chunks: seq<seq<byte>>): (res: (Reader, seq<Message>))
    requires Chunking(r, chunks)
    decreases |chunks|
  {
    if chunks == [] then (r, [])
    else
      var (next, out) := OnBytes(r, chunks[0]);
      var (last, rest) := ReadAll(next, chunks[1..]);
      (last, if out.Some? then [out.value] + rest else rest)
  }

  function Joined(chunks: seq<seq<byte>>): seq<byte>
  {
    if chunks == [] then [] else chunks[0] + Joined(chunks[1..])
  }

  lemma {:induction false} ReadAllFollows(ms: seq<Message>, r: Reader, chunks: seq<seq<byte>>)
    requires AllSendable(ms) && r.Valid() && Chunking(r, chunks)
    requires r.Partial() + Joined(chunks) <= Frames(ms)
    ensures var (last, out) := ReadAll(r, chunks);
            last.Valid() && out <= ms && r.Partial() + Joined(chunks) == Frames(out) + last.Partial()
    decreases |chunks|
  {
    if chunks == [] {
    } else {
      var (next, out) := OnBytes(r, chunks[0]);
      var rest := Joined(chunks[1..]);
      assert r.Partial() + Joined(chunks) == r.Partial() + chunks[0] + rest;
      ReaderFollows(ms, r, chunks[0]);
      if out.None? {
        assert next.Partial() + rest == r.Partial() + Joined(chunks);
        ReadAllFollows(ms, next, chunks[1..]);
      } else {
        RestFollows(ms, rest);
        ReadAllFollows(ms[1..], FRESH, chunks[1..]);
        var (last, tail) := ReadAll(FRESH, chunks[1..]);
        FirstFrameRead(ms, tail, rest, last.Partial());
      }
    }
  }

  lemma RestFollows(ms: seq<Message>, rest: seq<byte>)
    requires ms != [] && Frame(ms[0]) + rest <= Frames(ms)
    ensures FRESH.Partial() + rest == rest <= Frames(ms[1..])
  {
    PrefixCancel(Frame(ms[0]), rest, Frames(ms[1..]));
  }

  lemma FirstFrameRead(ms: seq<Message>, tail: seq<Message>, rest: seq<byte>, partial: seq<byte>)
    requires ms != [] && tail <= ms[1..] && rest == Frames(tail) + partial
    ensures [ms[0]] + tail <= ms
    ensures Frame(ms[0]) + rest == Frames([ms[0]] + tail) + partial
  {
  }

  lemma PrefixCancel(a: seq<byte>, b: seq<byte>, c: seq<byte>)
    requires a + b <= a + c
    ensures b <= c
  {
    assert (a + b)[|a|..] == b && (a + c)[|a|..] == c;
    assert forall i :: 0 <= i < |b| ==> b[i] == (a + b)[|a| + i] == (a + c)[|a| + i];
  }

  // Framing: however the stream of frames is cut into reads, the messages read are a prefix
  // of the messages sent, and the bytes taken are exactly the frames of the messages read
  // plus the begun frame: nothing of a later frame is consumed.
  lemma FramingTheorem(ms: seq<Message>, chunks: seq<seq<byte>>)
    requires AllSendable(ms) && Chunking(FRESH, chunks) && Joined(chunks) <= Frames(ms)
    ensures var (last, out) := ReadAll(FRESH, chunks);
            last.Valid() && out <= ms && Joined(chunks) == Frames(out) + last.Partial()
    ensures Joined(chunks) == Frames(ms) ==> ReadAll(FRESH, chunks) == (FRESH, ms)
  {
    assert FRESH.Partial() + Joined(chunks) == Joined(chunks);
    ReadAllFollows(ms, FRESH, chunks);
    var (last, out) := ReadAll(FRESH, chunks);
    if Joined(chunks) == Frames(ms) {
      var rest := ms[|out|..];
      assert ms == out + rest;
      FramesConcat(out, rest);
      assert last.Partial() == (Frames(out) + last.Partial())[|Frames(out)|..] == Frames(rest);
      NoPartialIsWhole(rest, last);
      assert out == ms;
    }
  }

  lemma NoPartialIsWhole(ms: seq<Message>, r: Reader)
    requires AllSendable(ms) && r.Valid() && r.Partial() == Frames(ms)
    ensures ms == [] && r == FRESH
  {
    if ms != [] {
      FramesHead(ms);
      assert |Frames(ms)| >= HEADER_SIZE + |ms[0]|;
      BodyRead(ms, r.size, r.got);
    }
  }

  // The wire format: four bytes of the size, the lowest first, and the message.
  lemma FrameLayout(m: Message)
    ensures Frame(m) == [|m| % 256, |m| / 0x100 % 256, |m| / 0x1_0000 % 256, |m| / 0x100_0000 % 256] + m
  {
    var n := |m|;
    assert n / 0x100 / 0x100 == n / 0x1_0000 && n / 0x1_0000 / 0x100 == n / 0x100_0000;
    assert LittleEndian(n / 0x100_0000, 1) == [n / 0x100_0000 % 256];
    assert LittleEndian(n / 0x1_0000, 2) == [n / 0x1_0000 % 256, n / 0x100_0000 % 256];
    assert LittleEndian(n / 0x100, 3) == [n / 0x100 % 256, n / 0x1_0000 % 256, n / 0x100_0000 % 256];
  }

  // One message in one piece: the reader gives back m exactly when m is sendable. Outside
  // that range either the length check aborts or a shorter message comes out.
  lemma FrameRoundTripIff(m: Message)
    ensures var size := |m| % U32_RANGE;
            var (r, _) := OnBytes(FRESH, HostU32(|m|));
            (r == Aborted <==> size == 0)
            && (size > 0 ==> r.Valid() && r.Left() == size <= |m|
                             && OnBytes(r, m[..size]) == (FRESH, Some(m[..size]))
                             && (m[..size] == m <==> Sendable(m)))
            && (Sendable(m) <==> r != Aborted && r.Left() == |m|)
  {
    HostU32RoundTrip(|m|);
    var got := FRESH.got + HostU32(|m|);
    assert got == HostU32(|m|);
    var size := |m| % U32_RANGE;
    assert size <= |m|;
    assert size == |m| <==> |m| < U32_RANGE;
    if size > 0 {
      assert [] + m[..size] == m[..size];
      assert |m[..size]| == size;
    }
  }

  /* One ProcData transfer, with every result recv can give. */

  datatype RecvResult = Bytes(n: nat) | WouldBlock

  // left_size after the given recv results: the code subtracts the returned length even
  // when it is -1 with EAGAIN, so WouldBlock adds one.
  function LeftAfter(size: nat, results: seq<RecvResult>): int
  {
    if results == [] then size
    else
      var left := LeftAfter(size, results[..|results| - 1]);
      match results[|results| - 1]
      case Bytes(n) => left - n
      case WouldBlock => left + 1
  }

  function BytesTaken(results: seq<RecvResult>): nat
  {
    if results == [] then 0
    else BytesTaken(results[..|results| - 1]) +
         (match results[|results| - 1] case Bytes(n) => n case WouldBlock => 0)
  }

  // A finished transfer took exactly its size from the socket if and only if recv never
  // reported EAGAIN; every EAGAIN makes it take one byte more, out of the next frame.
  lemma TransferTakesItsSizeIff(size: nat, results: seq<RecvResult>)
    requires LeftAfter(size, results) == 0
    ensures BytesTaken(results) == size + Count(results, WouldBlock)
    ensures BytesTaken(results) == size <==> WouldBlock !in results
  {
    TransferAccount(size, results);
    CountZeroIff(results, WouldBlock);
  }

  lemma {:induction false} TransferAccount(size: nat, results: seq<RecvResult>)
    ensures LeftAfter(size, results) == size - BytesTaken(results) + Count(results, WouldBlock)
  {
    if results == [] {
    } else {
      TransferAccount(size, results[..|results| - 1]);
    }
  }

  lemma {:induction false} CountZeroIff<T>(s: seq<T>, x: T)
    ensures Count(s, x) == 0 <==> x !in s
  {
    if s == [] {
    } else {
      CountZeroIff(s[..|s| - 1], x);
      assert s == s[..|s| - 1] + [s[|s| - 1]];
    }
  }

  // A two-byte transfer met by one EAGAIN after its first byte takes three bytes.
  lemma TransferOvertakes()
    ensures var results := [Bytes(1), WouldBlock, Bytes(2)];
            LeftAfter(2, results) == 0 && BytesTaken(results) == 3
  {
    var results := [Bytes(1), WouldBlock, Bytes(2)];
    assert results[..2] == [Bytes(1), WouldBlock] && results[..2][..1] == [Bytes(1)];
    assert results[..1][..0] == [];
    assert LeftAfter(2, [Bytes(1)]) == 1 by { assert [Bytes(1)][..0] == []; }
    assert BytesTaken([Bytes(1)]) == 1;
    assert LeftAfter(2, [Bytes(1), WouldBlock]) == 2;
    assert BytesTaken([Bytes(1), WouldBlock]) == 1;
  }
}
