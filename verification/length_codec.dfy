/** Frame codec of the upstream connection: every frame is prefixed by its length as a
    big-endian int32. */
module LengthCodec {
  import opened Wrappers
  import opened Bytes

  /** What one call of `decode` did: the frames it emitted (zero or one) and the bytes
      that remain readable afterwards. */
  datatype Step = Step(frames: seq<seq<Byte>>, rest: seq<Byte>)

  function Encode(payload: seq<Byte>): (r: seq<Byte>)
    requires |payload| < TWO_31
    ensures |r| == 4 + |payload|
    ensures BytesToInt32(r[..4]) == |payload| && r[4..] == payload
  {
    Int32RoundTrip(|payload|);
    Int32ToBytes(|payload|) + payload
  }

  /** One call of `decode`. Fewer than four readable bytes, or a declared length beyond the
      readable bytes, leave the input untouched; a negative declared length makes
      `readBytes` throw. */
  function Decode(s: seq<Byte>): (r: Result<Step, DecodeError>)
    ensures |s| < 4 ==> r == Ok(Step([], s))
    ensures |s| >= 4 && BytesToInt32(s[..4]) > |s| - 4 ==> r == Ok(Step([], s))
    ensures |s| >= 4 && BytesToInt32(s[..4]) < 0 ==> r.Err?
    ensures |s| >= 4 && 0 <= BytesToInt32(s[..4]) <= |s| - 4 ==>
              var n := BytesToInt32(s[..4]);
              r == Ok(Step([s[4..4 + n]], s[4 + n..]))
  {
    if |s| < 4 then Ok(Step([], s))
    else
      var n := BytesToInt32(s[..4]);
      if |s| - 4 < n then Ok(Step([], s))
      else if n < 0 then Err(Malformed("negative length"))
      else Ok(Step([s[4..4 + n]], s[4 + n..]))
  }

  lemma DecodeEncode(payload: seq<Byte>, rest: seq<Byte>)
    requires |payload| < TWO_31
    ensures Decode(Encode(payload) + rest) == Ok(Step([payload], rest))
  {
    var s := Encode(payload) + rest;
    assert s[..4] == Encode(payload)[..4];
    assert s[4..4 + |payload|] == payload;
    assert s[4 + |payload|..] == rest;
  }

  /** Netty's decode loop: `decode` is called again as long as it consumed bytes. */
  function DecodeAll(s: seq<Byte>): (r: Result<Step, DecodeError>)
    ensures r.Ok? ==> |r.value.rest| <= |s|
    decreases |s|
  {
    var step :- Decode(s);
    if |step.rest| < |s| then
      var more :- DecodeAll(step.rest);
      Ok(Step(step.frames + more.frames, more.rest))
    else Ok(step)
  }

  function EncodeAll(payloads: seq<seq<Byte>>): (r: seq<Byte>)
    requires forall i :: 0 <= i < |payloads| ==> |payloads[i]| < TWO_31
  {
    if |payloads| == 0 then [] else Encode(payloads[0]) + EncodeAll(payloads[1..])
  }

  lemma DecodeAllUnfold(s: seq<Byte>, frame: seq<Byte>, rest: seq<Byte>, more: Step)
    requires Decode(s) == Ok(Step([frame], rest))
    requires |rest| < |s|
    requires DecodeAll(rest) == Ok(more)
    ensures DecodeAll(s) == Ok(Step([frame] + more.frames, more.rest))
  {
  }

  /** A stream of encoded frames followed by an incomplete length prefix decodes into
      exactly those frames, keeping the incomplete prefix for later. */
  lemma {:induction false} DecodeAllEncodeAll(payloads: seq<seq<Byte>>, tail: seq<Byte>)
    requires forall i :: 0 <= i < |payloads| ==> |payloads[i]| < TWO_31
    requires |tail| < 4
    ensures DecodeAll(EncodeAll(payloads) + tail) == Ok(Step(payloads, tail))
  {
    if |payloads| == 0 {
      assert EncodeAll(payloads) + tail == tail;
      assert Decode(tail) == Ok(Step([], tail));
    } else {
      var p := payloads[0];
      var ps := payloads[1..];
      var rest := EncodeAll(ps) + tail;
      assert EncodeAll(payloads) + tail == Encode(p) + rest;
      DecodeEncode(p, rest);
      DecodeAllEncodeAll(ps, tail);
      DecodeAllUnfold(Encode(p) + rest, p, rest, Step(ps, tail));
      assert [p] + ps == payloads;
    }
  }
}
