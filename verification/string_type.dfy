/** The upstream string codec: a big-endian int32 byte length followed by the string's
    bytes, with length -1 standing for null. The string is modelled as its UTF-8 bytes. */
module StringType {
  import opened Wrappers
  import opened Bytes

  const NULL_LENGTH: int := -1

  /** The strings the codec can write: those whose byte length fits an int32. */
  predicate Writable(v: Option<seq<Byte>>) {
    v.Some? ==> |v.value| < TWO_31
  }

  function Write(v: Option<seq<Byte>>): (r: seq<Byte>)
    requires Writable(v)
    ensures v.None? ==> r == [255, 255, 255, 255]
    ensures v.Some? ==> |r| == 4 + |v.value| && BytesToInt32(r[..4]) == |v.value| && r[4..] == v.value
  {
    match v
    case None =>
      Int32MinusOneBytes();
      Int32ToBytes(NULL_LENGTH)
    case Some(b) =>
      Int32RoundTrip(|b|);
      Int32ToBytes(|b|) + b
  }

  function Read(s: seq<Byte>): (r: Result<Decoded<Option<seq<Byte>>>, DecodeError>)
    ensures r.Ok? && r.value.value.None? ==> |s| >= 4 && BytesToInt32(s[..4]) == NULL_LENGTH && r.value.rest == s[4..]
    ensures r.Ok? && r.value.value.Some? ==>
              var n := |r.value.value.value|;
              |s| >= 4 + n && BytesToInt32(s[..4]) == n
              && r.value.value.value == s[4..4 + n] && r.value.rest == s[4 + n..]
    ensures |s| >= 4 && BytesToInt32(s[..4]) < NULL_LENGTH ==> r.Err?
    ensures |s| >= 4 && 0 <= BytesToInt32(s[..4]) <= |s| - 4 ==> r.Ok?
  {
    var len :- ReadInt32(s);
    var n := len.value;
    if n == NULL_LENGTH then Ok(Decoded(None, len.rest))
    else if n < 0 then Err(Malformed("negative array size"))
    else if |len.rest| < n then Err(EndOfInput)
    else Ok(Decoded(Some(len.rest[..n]), len.rest[n..]))
  }

  lemma ReadWrite(v: Option<seq<Byte>>, rest: seq<Byte>)
    requires Writable(v)
    ensures Read(Write(v) + rest) == Ok(Decoded(v, rest))
  {
    match v
    case None =>
      ReadInt32Written(NULL_LENGTH, rest);
    case Some(b) =>
      ReadInt32Written(|b|, b + rest);
      assert Write(v) + rest == Int32ToBytes(|b|) + (b + rest);
      assert (b + rest)[..|b|] == b;
      assert (b + rest)[|b|..] == rest;
  }
}
