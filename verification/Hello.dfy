// The hello message: its byte layout, its validity check and its (de)serialisation.
module Hello {
  import opened Prelude
  import opened Framing

  // "Hello" with its terminating NUL.
  const HELLO_ID: seq<byte> := [72, 101, 108, 108, 111, 0]
  const PEER_ID_LEN: int := 6
  const HELLO_SIZE: int := 13

  type PeerId = id: seq<byte> | |id| == PEER_ID_LEN witness [0, 0, 0, 0, 0, 0]

  // HelloType on the wire; other byte values can arrive.
  const NOTIFY: byte := 0
  const ANSWER: byte := 1

  datatype HelloMsg = HelloMsg(identifier: seq<byte>, id: PeerId, kind: byte)

  // The fields fill the packed struct.
  predicate WellSized(h: HelloMsg)
  {
    |h.identifier| == |HELLO_ID|
  }

  // strcmp(a, b) == 0, stopping at the first NUL of b.
  predicate StringsEqual(a: seq<byte>, b: seq<byte>)
  {
    a != [] && b != [] && a[0] == b[0] && (b[0] == 0 || StringsEqual(a[1..], b[1..]))
  }

  predicate IsValid(h: HelloMsg)
  {
    StringsEqual(h.identifier, HELLO_ID)
  }

  function Serialize(h: HelloMsg): Message
  {
    h.identifier + h.id + [h.kind]
  }

  function Deserialize(msg: Message): (h: Option<HelloMsg>)
  {
    if |msg| != HELLO_SIZE then None
    else
      var hello := HelloMsg(msg[..6], msg[6..12], msg[12]);
      if IsValid(hello) then Some(hello) else None
  }

  function MakeHello(id: PeerId, kind: byte): HelloMsg
  {
    HelloMsg(HELLO_ID, id, kind)
  }

  lemma {:induction false} StringsEqualIff(a: seq<byte>, b: seq<byte>)
    requires |a| == |b| > 0 && b[|b| - 1] == 0 && forall i :: 0 <= i < |b| - 1 ==> b[i] != 0
    ensures StringsEqual(a, b) <==> a == b
    decreases |b|
  {
    assert a == [a[0]] + a[1..] && b == [b[0]] + b[1..];
    if |b| > 1 {
      StringsEqualIff(a[1..], b[1..]);
    }
  }

  // Reading back what was written gives the message itself exactly when it is valid, and
  // a message is valid exactly when it carries the identifier.
  lemma SerializeRoundTripIff(h: HelloMsg)
    requires WellSized(h)
    ensures |Serialize(h)| == HELLO_SIZE && Serialize(h)[12] == h.kind
    ensures Serialize(h)[..6] == h.identifier && Serialize(h)[6..12] == h.id
    ensures Deserialize(Serialize(h)) == if h.identifier == HELLO_ID then Some(h) else None
  {
    var m := Serialize(h);
    assert m[..6] == h.identifier && m[6..12] == h.id && m[12] == h.kind;
    StringsEqualIff(h.identifier, HELLO_ID);
  }

  // Whatever is accepted is the serialisation of what it is read as.
  lemma DeserializedIsSerialized(m: Message)
    requires Deserialize(m).Some?
    ensures Serialize(Deserialize(m).value) == m && Deserialize(m).value.identifier == HELLO_ID
  {
    assert m == m[..6] + m[6..12] + [m[12]];
    StringsEqualIff(m[..6], HELLO_ID);
  }
}
