/** The upstream block position codec: x, y and z as three big-endian int32s. */
module BlockPositionType {
  import opened Wrappers
  import opened Bytes

  datatype BlockPosition = BlockPosition(x: int, y: int, z: int)

  predicate Valid(p: BlockPosition) {
    IsInt32(p.x) && IsInt32(p.y) && IsInt32(p.z)
  }

  function Write(p: BlockPosition): (r: seq<Byte>)
    requires Valid(p)
    ensures |r| == 12
    ensures BytesToInt32(r[..4]) == p.x && BytesToInt32(r[4..8]) == p.y && BytesToInt32(r[8..]) == p.z
  {
    var r := Int32ToBytes(p.x) + Int32ToBytes(p.y) + Int32ToBytes(p.z);
    Int32RoundTrip(p.x);
    Int32RoundTrip(p.y);
    Int32RoundTrip(p.z);
    assert r[..4] == Int32ToBytes(p.x);
    assert r[4..8] == Int32ToBytes(p.y);
    assert r[8..] == Int32ToBytes(p.z);
    r
  }

  function Read(s: seq<Byte>): (r: Result<Decoded<BlockPosition>, DecodeError>)
    ensures |s| < 12 <==> r.Err?
    ensures r.Ok? ==> Valid(r.value.value) && r.value.rest == s[12..]
    ensures r.Ok? ==> r.value.value == BlockPosition(BytesToInt32(s[..4]), BytesToInt32(s[4..8]), BytesToInt32(s[8..12]))
  {
    var x :- ReadInt32(s);
    var y :- ReadInt32(x.rest);
    var z :- ReadInt32(y.rest);
    assert x.rest == s[4..] && y.rest == s[8..] && z.rest == s[12..];
    assert s[4..][..4] == s[4..8];
    assert s[8..][..4] == s[8..12];
    Ok(Decoded(BlockPosition(x.value, y.value, z.value), z.rest))
  }

  lemma ReadWrite(p: BlockPosition, rest: seq<Byte>)
    requires Valid(p)
    ensures Read(Write(p) + rest) == Ok(Decoded(p, rest))
  {
    var s := Write(p) + rest;
    assert s[..4] == Write(p)[..4];
    assert s[4..8] == Write(p)[4..8];
    assert s[8..12] == Write(p)[8..];
    assert s[12..] == rest;
  }

  lemma WriteRead(s: seq<Byte>)
    requires |s| >= 12
    ensures Read(s).Ok? && Write(Read(s).value.value) == s[..12]
  {
    var p := Read(s).value.value;
    Int32BytesRoundTrip(s[..4]);
    Int32BytesRoundTrip(s[4..8]);
    Int32BytesRoundTrip(s[8..12]);
    assert s[..12] == s[..4] + s[4..8] + s[8..12];
  }
}
