/** The Minecraft-protocol VarInt: the 32-bit two's-complement value cut into 7-bit groups,
    least significant group first, every group but the last carrying the continuation bit
    0x80, at most five bytes. */
module VarInt {
  import opened Wrappers
  import opened Bytes

  const MAX_BYTES: nat := 5

  function Pow128(k: nat): (r: nat)
    ensures r >= 1
  {
    if k == 0 then 1 else 128 * Pow128(k - 1)
  }

  /** The unsigned 32-bit pattern of an int32. */
  function ToUnsigned32(v: int): (u: nat)
    requires IsInt32(v)
    ensures u < TWO_32
    ensures Signed(u, TWO_31) == v
  {
    if v < 0 then v + TWO_32 else v
  }

  /** The groups of u, least significant first. */
  function EncodeGroups(u: nat): (r: seq<Byte>)
    ensures |r| >= 1
    ensures r[|r| - 1] < 128
    ensures forall i :: 0 <= i < |r| - 1 ==> r[i] >= 128
    decreases u
  {
    if u < 128 then [u] else [u % 128 + 128] + EncodeGroups(u / 128)
  }

  lemma {:induction false} EncodeGroupsLength(u: nat, k: nat)
    requires 1 <= k
    requires u < Pow128(k)
    ensures |EncodeGroups(u)| <= k
    decreases k
  {
    if u >= 128 {
      assert k > 1;
      assert u / 128 < Pow128(k - 1);
      EncodeGroupsLength(u / 128, k - 1);
    }
  }

  /** `VarIntType.writePrimitive`. */
  function Encode(v: int): (r: seq<Byte>)
    requires IsInt32(v)
    ensures 1 <= |r| <= MAX_BYTES
  {
    assert Pow128(5) == 0x8_0000_0000;
    EncodeGroupsLength(ToUnsigned32(v), 5);
    EncodeGroups(ToUnsigned32(v))
  }

  /** The groups read from s when `i` groups have been read before; the unsigned sum of the
      groups of s, before the 32-bit truncation. */
  function DecodeGroups(s: seq<Byte>, i: nat): (r: Result<Decoded<nat>, DecodeError>)
    requires i < MAX_BYTES
    ensures r.Ok? ==> |r.value.rest| < |s| && r.value.rest == s[|s| - |r.value.rest|..]
    ensures r.Ok? ==> |s| - |r.value.rest| <= MAX_BYTES - i
    decreases MAX_BYTES - i
  {
    if |s| == 0 then Err(EndOfInput)
    else if s[0] < 128 then Ok(Decoded(s[0], s[1..]))
    else if i == MAX_BYTES - 1 then Err(Malformed("VarInt too big"))
    else
      var tail :- DecodeGroups(s[1..], i + 1);
      Ok(Decoded(s[0] - 128 + 128 * tail.value, tail.rest))
  }

  /** `VarIntType.readPrimitive`: reads groups until one lacks the continuation bit; a fifth
      group that still carries it is an error. The sum is truncated to 32 bits as Java's
      `int` shifts do. */
  function Decode(s: seq<Byte>): (r: Result<Decoded<int>, DecodeError>)
    ensures r.Ok? ==> IsInt32(r.value.value)
    ensures r.Ok? ==> 1 <= |s| - |r.value.rest| <= MAX_BYTES && r.value.rest == s[|s| - |r.value.rest|..]
    ensures |s| == 0 ==> r == Err(EndOfInput)
  {
    var d :- DecodeGroups(s, 0);
    Ok(Decoded(Signed(d.value % TWO_32, TWO_31), d.rest))
  }

  lemma {:induction false} DecodeEncodeGroups(u: nat, i: nat, rest: seq<Byte>)
    requires i < MAX_BYTES
    requires |EncodeGroups(u)| <= MAX_BYTES - i
    ensures DecodeGroups(EncodeGroups(u) + rest, i) == Ok(Decoded(u, rest))
    decreases u
  {
    var e := EncodeGroups(u);
    var s := e + rest;
    if u < 128 {
      assert s[0] == u && s[1..] == rest;
    } else {
      EncodeGroupsStep(u);
      assert s[0] == e[0];
      assert s[1..] == EncodeGroups(u / 128) + rest;
      DecodeEncodeGroups(u / 128, i + 1, rest);
      DecodeGroupsContinued(s, i, u / 128, rest);
    }
  }

  /** A flagged group followed by groups that decode to v decodes to the group's low bits
      plus 128 times v. */
  lemma DecodeGroupsContinued(s: seq<Byte>, i: nat, v: nat, rest: seq<Byte>)
    requires i < MAX_BYTES - 1 && |s| > 0 && s[0] >= 128
    requires DecodeGroups(s[1..], i + 1) == Ok(Decoded(v, rest))
    ensures DecodeGroups(s, i) == Ok(Decoded(s[0] - 128 + 128 * v, rest))
  {
  }

  /** A value of more than one group starts with its low seven bits, flagged, followed by
      the groups of the rest. */
  lemma EncodeGroupsStep(u: nat)
    requires u >= 128
    ensures |EncodeGroups(u)| >= 2
    ensures EncodeGroups(u)[0] == u % 128 + 128
    ensures EncodeGroups(u)[1..] == EncodeGroups(u / 128)
  {
  }

  /** Reading back what was written yields the value and leaves the rest untouched. */
  lemma DecodeEncode(v: int, rest: seq<Byte>)
    requires IsInt32(v)
    ensures Decode(Encode(v) + rest) == Ok(Decoded(v, rest))
  {
    var u := ToUnsigned32(v);
    assert Encode(v) == EncodeGroups(u);
    DecodeEncodeGroups(u, 0, rest);
    TruncateUnsigned(u);
  }

  /** The 32-bit truncation leaves an unsigned 32-bit pattern as it is. */
  lemma TruncateUnsigned(u: nat)
    requires u < TWO_32
    ensures u % TWO_32 == u
  {
  }

  /** A non-minimal encoding decodes to the same value as the minimal one: zero written
      with a redundant continuation group. */
  lemma NonMinimalZero()
    ensures Decode([128, 0]) == Ok(Decoded(0, []))
    ensures Encode(0) == [0]
  {
    assert DecodeGroups([0], 1) == Ok(Decoded(0, []));
  }
}
