/** Packet-id codec between the proxy's pipeline, where a packet starts with a VarInt id, and
    the upstream wire, where it starts with a big-endian short id. */
module PacketIdCodec {
  import opened Wrappers
  import opened Bytes
  import VarInt

  /** `encode`: the leading VarInt id becomes a short (its low 16 bits); the payload follows
      unchanged. */
  function Encode(frame: seq<Byte>): (r: Result<seq<Byte>, DecodeError>)
    ensures r.Ok? <==> VarInt.Decode(frame).Ok?
    ensures r.Ok? ==> var d := VarInt.Decode(frame).value;
                      r.value == Int16ToBytes(d.value) + d.rest
  {
    var id :- VarInt.Decode(frame);
    Ok(Int16ToBytes(id.value) + id.rest)
  }

  /** `decode`: the leading signed short id becomes a VarInt of the sign-extended value; the
      payload follows unchanged. A frame of fewer than two bytes cannot be read. */
  function Decode(frame: seq<Byte>): (r: Result<seq<Byte>, DecodeError>)
    ensures |frame| < 2 <==> r.Err?
    ensures r.Ok? ==> r.value == VarInt.Encode(BytesToInt16(frame[..2])) + frame[2..]
    ensures r.Ok? ==> |r.value| == |VarInt.Encode(BytesToInt16(frame[..2]))| + |frame| - 2
  {
    if |frame| < 2 then Err(EndOfInput)
    else Ok(VarInt.Encode(BytesToInt16(frame[..2])) + frame[2..])
  }

  /** Every wire frame with a short id survives the trip into the pipeline and back. */
  lemma EncodeDecode(frame: seq<Byte>)
    requires |frame| >= 2
    ensures Encode(Decode(frame).value) == Ok(frame)
  {
    var id := BytesToInt16(frame[..2]);
    VarInt.DecodeEncode(id, frame[2..]);
    Int16BytesRoundTrip(frame[..2]);
    assert frame == frame[..2] + frame[2..];
  }

  /** A pipeline frame whose id is written minimally and fits a short survives the trip to
      the wire and back. */
  lemma DecodeEncode(id: int, payload: seq<Byte>)
    requires IsInt16(id)
    ensures Decode(Encode(VarInt.Encode(id) + payload).value) == Ok(VarInt.Encode(id) + payload)
  {
    VarInt.DecodeEncode(id, payload);
    Int16RoundTrip(id);
    var w := Int16ToBytes(id) + payload;
    assert w[..2] == Int16ToBytes(id) && w[2..] == payload;
  }

  /** The minimality requirement above is needed: a zero id written with a redundant
      continuation group comes back in its minimal form. */
  lemma NonMinimalIdIsNormalised()
    ensures Encode([128, 0, 7]).Ok?
    ensures Decode(Encode([128, 0, 7]).value) == Ok([0, 7])
  {
    NonMinimalWire();
    ZeroWireDecodes();
  }

  lemma NonMinimalWire()
    ensures Encode([128, 0, 7]) == Ok([0, 0, 7])
  {
    NonMinimalZeroDecodes([128, 0, 7]);
    ZeroShort();
    ZerosThenSeven(Int16ToBytes(0), [7]);
  }

  lemma ZerosThenSeven(a: seq<Byte>, b: seq<Byte>)
    requires a == [0, 0] && b == [7]
    ensures a + b == [0, 0, 7]
  {
  }

  lemma NonMinimalZeroDecodes(frame: seq<Byte>)
    requires frame == [128, 0, 7]
    ensures VarInt.Decode(frame) == Ok(Decoded(0, [7]))
  {
    var tail := frame[1..];
    assert tail == [0, 7];
    assert tail[1..] == [7];
    assert VarInt.DecodeGroups(tail, 1) == Ok(Decoded(0, [7]));
    VarInt.DecodeGroupsContinued(frame, 0, 0, [7]);
  }

  lemma ZeroWireDecodes()
    ensures Decode([0, 0, 7]) == Ok([0, 7])
  {
    var wire: seq<Byte> := [0, 0, 7];
    ZeroShort();
    assert wire[..2] == [0, 0] && wire[2..] == [7];
    assert VarInt.Encode(0) == [0] by {
      assert VarInt.EncodeGroups(0) == [0];
    }
    ZeroThenSeven([0], [7]);
  }

  lemma ZeroThenSeven(a: seq<Byte>, b: seq<Byte>)
    requires a == [0] && b == [7]
    ensures a + b == [0, 7]
  {
  }

  lemma ZeroShort()
    ensures Int16ToBytes(0) == [0, 0]
    ensures BytesToInt16([0, 0]) == 0
  {
    Pow256Values();
    assert ToBigEndian(0, 1) == [0];
    assert FromBigEndian([0]) == 0;
  }

  /** An id outside the short range keeps only its low 16 bits on the wire. */
  lemma WideIdTruncated(payload: seq<Byte>)
    ensures Encode(VarInt.Encode(TWO_16) + payload) == Ok(Int16ToBytes(0) + payload)
  {
    VarInt.DecodeEncode(TWO_16, payload);
  }
}
