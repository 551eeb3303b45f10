/** Bytes on the wire and the fixed-width big-endian integers that Netty's `ByteBuf`
    reads and writes (`readInt`/`writeInt`, `readShort`/`writeShort`). */
module Bytes {
  import opened Wrappers

  type Byte = b: int | 0 <= b < 256

  /** Why a reader gave up: the buffer ran dry, or the bytes do not form a valid value. */
  datatype DecodeError = EndOfInput | Malformed(reason: string)

  /** A decoded value together with the bytes left unread. */
  datatype Decoded<+T> = Decoded(value: T, rest: seq<Byte>)

  const TWO_15: int := 0x8000
  const TWO_16: int := 0x1_0000
  const TWO_31: int := 0x8000_0000
  const TWO_32: int := 0x1_0000_0000

  predicate IsInt16(v: int) { -TWO_15 <= v < TWO_15 }
  predicate IsInt32(v: int) { -TWO_31 <= v < TWO_31 }

  function Pow256(k: nat): (r: nat)
    ensures r >= 1
  {
    if k == 0 then 1 else 256 * Pow256(k - 1)
  }

  lemma Pow256Values()
    ensures Pow256(2) == TWO_16
    ensures Pow256(4) == TWO_32
  {
    assert Pow256(1) == 256;
    assert Pow256(2) == 65536;
    assert Pow256(3) == 16777216;
  }

  /** The k-byte big-endian form of the unsigned value u. */
  function ToBigEndian(u: nat, k: nat): (r: seq<Byte>)
    requires u < Pow256(k)
    ensures |r| == k
  {
    if k == 0 then [] else ToBigEndian(u / 256, k - 1) + [u % 256]
  }

  /** The unsigned value of a big-endian byte string. */
  function FromBigEndian(s: seq<Byte>): (r: nat)
    ensures r < Pow256(|s|)
  {
    if |s| == 0 then 0
    else
      var hi := FromBigEndian(s[..|s| - 1]);
      assert hi * 256 + s[|s| - 1] < Pow256(|s|) by {
        assert hi <= Pow256(|s| - 1) - 1;
        assert hi * 256 <= (Pow256(|s| - 1) - 1) * 256;
      }
      hi * 256 + s[|s| - 1]
  }

  lemma {:induction false} FromToBigEndian(u: nat, k: nat)
    requires u < Pow256(k)
    ensures FromBigEndian(ToBigEndian(u, k)) == u
  {
    if k > 0 {
      var r := ToBigEndian(u, k);
      assert r[..k - 1] == ToBigEndian(u / 256, k - 1);
      FromToBigEndian(u / 256, k - 1);
    }
  }

  lemma {:induction false} ToFromBigEndian(s: seq<Byte>)
    ensures ToBigEndian(FromBigEndian(s), |s|) == s
  {
    if |s| > 0 {
      var init := s[..|s| - 1];
      ToFromBigEndian(init);
      var u := FromBigEndian(s);
      assert u / 256 == FromBigEndian(init);
      assert u % 256 == s[|s| - 1];
      assert s == init + [s[|s| - 1]];
    }
  }

  /** Reinterprets an unsigned value below `2 * half` as a two's-complement value. */
  function Signed(u: int, half: int): int
  {
    if u >= half then u - 2 * half else u
  }

  const INT32_MAX: int := TWO_31 - 1

  /** Java `int` arithmetic: the value reduced to 32-bit two's complement. */
  function Wrap32(v: int): (r: int)
    ensures IsInt32(r) && (r - v) % TWO_32 == 0
    ensures IsInt32(v) ==> r == v
  {
    Signed(v % TWO_32, TWO_31)
  }

  /** `ByteBuf.writeInt`: four big-endian bytes of the two's-complement value. */
  function Int32ToBytes(v: int): (r: seq<Byte>)
    requires IsInt32(v)
    ensures |r| == 4
  {
    Pow256Values();
    ToBigEndian(if v < 0 then v + TWO_32 else v, 4)
  }

  /** `ByteBuf.readInt` on exactly four bytes. */
  function BytesToInt32(s: seq<Byte>): (v: int)
    requires |s| == 4
    ensures IsInt32(v)
  {
    Pow256Values();
    Signed(FromBigEndian(s), TWO_31)
  }

  /** `ByteBuf.writeShort(v)`: the low 16 bits of v, big-endian (Java truncates the int). */
  function Int16ToBytes(v: int): (r: seq<Byte>)
    ensures |r| == 2
  {
    Pow256Values();
    ToBigEndian(v % TWO_16, 2)
  }

  lemma Int32MinusOneBytes()
    ensures Int32ToBytes(-1) == [255, 255, 255, 255]
  {
    Pow256Values();
    assert ToBigEndian(255, 1) == [255];
    assert ToBigEndian(65535, 2) == [255, 255];
    assert ToBigEndian(16777215, 3) == [255, 255, 255];
  }

  /** `ByteBuf.readShort` on exactly two bytes: the sign-extended value. */
  function BytesToInt16(s: seq<Byte>): (v: int)
    requires |s| == 2
    ensures IsInt16(v)
  {
    Pow256Values();
    Signed(FromBigEndian(s), TWO_15)
  }

  lemma Int32RoundTrip(v: int)
    requires IsInt32(v)
    ensures BytesToInt32(Int32ToBytes(v)) == v
  {
    Pow256Values();
    FromToBigEndian(if v < 0 then v + TWO_32 else v, 4);
  }

  lemma Int32BytesRoundTrip(s: seq<Byte>)
    requires |s| == 4
    ensures Int32ToBytes(BytesToInt32(s)) == s
  {
    Pow256Values();
    ToFromBigEndian(s);
  }

  lemma Int16RoundTrip(v: int)
    requires IsInt16(v)
    ensures BytesToInt16(Int16ToBytes(v)) == v
  {
    Pow256Values();
    FromToBigEndian(v % TWO_16, 2);
  }

  lemma Int16BytesRoundTrip(s: seq<Byte>)
    requires |s| == 2
    ensures Int16ToBytes(BytesToInt16(s)) == s
  {
    Pow256Values();
    ToFromBigEndian(s);
  }

  /** `ByteBuf.readInt` on a stream: fails when fewer than four bytes are readable. */
  function ReadInt32(s: seq<Byte>): (r: Result<Decoded<int>, DecodeError>)
    ensures |s| < 4 <==> r == Err(EndOfInput)
    ensures r.Ok? ==> IsInt32(r.value.value) && r.value.rest == s[4..]
                      && Int32ToBytes(r.value.value) == s[..4]
  {
    if |s| < 4 then Err(EndOfInput)
    else
      Int32BytesRoundTrip(s[..4]);
      Ok(Decoded(BytesToInt32(s[..4]), s[4..]))
  }

  lemma ReadInt32Written(v: int, rest: seq<Byte>)
    requires IsInt32(v)
    ensures ReadInt32(Int32ToBytes(v) + rest) == Ok(Decoded(v, rest))
  {
    var s := Int32ToBytes(v) + rest;
    assert s[..4] == Int32ToBytes(v);
    assert s[4..] == rest;
    Int32RoundTrip(v);
  }
}
