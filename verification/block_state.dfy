/** The upstream block-state descriptor `id[key=value,...]` and its parser. A property
    without `=` has a null value. Two states are equal when their ids and property maps are
    equal, so the order in which properties were written does not matter. */
module BlockState {
  import opened Wrappers
  import opened JavaStrings

  type Properties = map<string, Option<string>>

  datatype BlockState = BlockState(id: string, properties: Properties)

  /** `substring(0, -1)` on an empty remainder. */
  datatype ParseError = IndexOutOfBounds(descriptor: string)

  const AIR: BlockState := BlockState("base:air", map["default" := None])

  /** One comma-separated piece split at its first `=`. */
  function PropertyOf(piece: string): (kv: (string, Option<string>))
  {
    var split := SplitFirst(piece, '=');
    if |split| == 2 then (split[0], Some(split[1])) else (piece, None)
  }

  /** The property map of a sequence of (key, value) pairs put one after another into a
      hash map, so a repeated key keeps its last value. */
  function PutAll(kvs: seq<(string, Option<string>)>): (m: Properties)
  {
    if |kvs| == 0 then map[]
    else PutAll(kvs[..|kvs| - 1])[kvs[|kvs| - 1].0 := kvs[|kvs| - 1].1]
  }

  function ParsePieces(pieces: seq<string>): (kvs: seq<(string, Option<string>)>)
    ensures |kvs| == |pieces|
    ensures forall i :: 0 <= i < |pieces| ==> kvs[i] == PropertyOf(pieces[i])
  {
    seq(|pieces|, i requires 0 <= i < |pieces| => PropertyOf(pieces[i]))
  }

  /** The properties written between the brackets: the comma-separated pieces, each split
      at its first `=`, put into a map one after another. */
  function ParseProperties(body: string): Properties {
    PutAll(ParsePieces(Split(body, ',')))
  }

  /** `CosmicReachBlockState.fromString`. */
  function FromString(s: string): (r: Result<BlockState, ParseError>)
    ensures r.Ok? ==> '[' !in r.value.id && r.value.id <= s
    ensures r.Err? ==> |s| > 0 && s[|s| - 1] == '['
  {
    var split := SplitFirst(s, '[');
    if |split| == 1 then Ok(BlockState(s, map[]))
    else
      var rest := split[1];
      if |rest| == 0 then Err(IndexOutOfBounds(s))
      else Ok(BlockState(split[0], ParseProperties(rest[..|rest| - 1])))
  }

  /** Without `[` the whole descriptor is the id and there are no properties. Otherwise the
      id is the text before the first `[`, the parse fails exactly when that `[` is the last
      character, and the properties are read from the text between that `[` and the last
      character. */
  lemma FromStringShape(s: string)
    ensures '[' !in s ==> FromString(s) == Ok(BlockState(s, map[]))
    ensures '[' in s ==>
              var k := IndexOf(s, '[');
              FromString(s) == if k == |s| - 1 then Err(IndexOutOfBounds(s))
                               else Ok(BlockState(s[..k], ParseProperties(s[k + 1..|s| - 1])))
  {
    if '[' in s {
      if IndexOf(s, '[') == |s| - 1 {
        FromStringTrailingBracket(s);
      } else {
        FromStringProperties(s);
      }
    }
  }

  lemma SplitAtBracket(s: string)
    requires '[' in s
    ensures var k := IndexOf(s, '[');
            |SplitFirst(s, '[')| == 2 && SplitFirst(s, '[')[0] == s[..k] && SplitFirst(s, '[')[1] == s[k + 1..]
  {
  }

  lemma FromStringTrailingBracket(s: string)
    requires '[' in s && IndexOf(s, '[') == |s| - 1
    ensures FromString(s) == Err(IndexOutOfBounds(s))
  {
    SplitAtBracket(s);
  }

  lemma FromStringProperties(s: string)
    requires '[' in s && IndexOf(s, '[') < |s| - 1
    ensures var k := IndexOf(s, '[');
            FromString(s) == Ok(BlockState(s[..k], ParseProperties(s[k + 1..|s| - 1])))
  {
    SplitAtBracket(s);
    FromStringOfSplit(s, IndexOf(s, '['));
  }

  lemma FromStringOfSplit(s: string, k: int)
    requires 0 <= k < |s| - 1
    requires |SplitFirst(s, '[')| == 2 && SplitFirst(s, '[')[0] == s[..k] && SplitFirst(s, '[')[1] == s[k + 1..]
    ensures FromString(s) == Ok(BlockState(s[..k], ParseProperties(s[k + 1..|s| - 1])))
  {
    var rest := SplitFirst(s, '[')[1];
    BracketBody(s, k, rest);
    FromStringUnfolds(s);
    SameParts(SplitFirst(s, '[')[0], s[..k], rest[..|rest| - 1], s[k + 1..|s| - 1]);
  }

  lemma BracketBody(s: string, k: int, rest: string)
    requires 0 <= k < |s| - 1
    requires rest == s[k + 1..]
    ensures rest[..|rest| - 1] == s[k + 1..|s| - 1]
  {
    SliceOfSuffix(s, k + 1, |s| - 1);
  }

  lemma FromStringUnfolds(s: string)
    requires |SplitFirst(s, '[')| == 2 && |SplitFirst(s, '[')[1]| > 0
    ensures var rest := SplitFirst(s, '[')[1];
            FromString(s) == Ok(BlockState(SplitFirst(s, '[')[0], ParseProperties(rest[..|rest| - 1])))
  {
  }

  lemma SameParts(a: string, b: string, x: string, y: string)
    requires a == b && x == y
    ensures BlockState(a, ParseProperties(x)) == BlockState(b, ParseProperties(y))
  {
  }

  /** A key is in the map `PutAll` builds iff some pair carries it. */
  lemma {:induction false} PutAllKeys(kvs: seq<(string, Option<string>)>, k: string)
    ensures k in PutAll(kvs) <==> exists i :: 0 <= i < |kvs| && kvs[i].0 == k
  {
    if |kvs| > 0 {
      var init := kvs[..|kvs| - 1];
      PutAllKeys(init, k);
      if k in PutAll(init) {
        var i :| 0 <= i < |init| && init[i].0 == k;
        assert kvs[i].0 == k;
      }
      if exists i :: 0 <= i < |kvs| && kvs[i].0 == k {
        var i :| 0 <= i < |kvs| && kvs[i].0 == k;
        if i < |kvs| - 1 {
          assert init[i].0 == k;
        }
      }
    }
  }

  /** A key maps to the value of its last occurrence: a repeated key keeps its last value. */
  lemma {:induction false} PutAllLastWins(kvs: seq<(string, Option<string>)>, i: int)
    requires 0 <= i < |kvs|
    requires forall j :: i < j < |kvs| ==> kvs[j].0 != kvs[i].0
    ensures kvs[i].0 in PutAll(kvs) && PutAll(kvs)[kvs[i].0] == kvs[i].1
  {
    if i < |kvs| - 1 {
      var init := kvs[..|kvs| - 1];
      assert init[i] == kvs[i];
      forall j | i < j < |init| ensures init[j].0 != init[i].0 {
        assert init[j] == kvs[j];
      }
      PutAllLastWins(init, i);
    }
  }

  predicate DistinctKeys(kvs: seq<(string, Option<string>)>) {
    forall i, j :: 0 <= i < j < |kvs| ==> kvs[i].0 != kvs[j].0
  }

  /** Property order is irrelevant: the same distinct-key properties written in any two
      orders give equal property maps. */
  lemma PutAllOrderIndependent(a: seq<(string, Option<string>)>, b: seq<(string, Option<string>)>)
    requires DistinctKeys(a) && DistinctKeys(b)
    requires forall p :: p in a <==> p in b
    ensures PutAll(a) == PutAll(b)
  {
    forall k ensures k in PutAll(a) <==> k in PutAll(b) {
      PutAllKeys(a, k);
      PutAllKeys(b, k);
      if exists i :: 0 <= i < |a| && a[i].0 == k {
        var i :| 0 <= i < |a| && a[i].0 == k;
        assert a[i] in b;
      }
      if exists j :: 0 <= j < |b| && b[j].0 == k {
        var j :| 0 <= j < |b| && b[j].0 == k;
        assert b[j] in a;
      }
    }
    forall k | k in PutAll(a) ensures PutAll(a)[k] == PutAll(b)[k] {
      PutAllKeys(a, k);
      var i :| 0 <= i < |a| && a[i].0 == k;
      assert a[i] in b;
      var j :| 0 <= j < |b| && b[j] == a[i];
      PutAllLastWins(a, i);
      PutAllLastWins(b, j);
    }
  }

  /** A descriptor whose only `[` is its last character makes the parser throw. */
  lemma TrailingBracketFails(id: string)
    requires '[' !in id
    ensures FromString(id + "[").Err?
  {
    IndexOfAfterPrefix(id, '[', "");
    assert id + "[" == id + ['['] + "";
  }

  /** The text of one property piece: `key` for a null value, `key=value` otherwise. */
  function PieceText(kv: (string, Option<string>)): string {
    if kv.1.None? then kv.0 else kv.0 + "=" + kv.1.value
  }

  function PieceTexts(kvs: seq<(string, Option<string>)>): (r: seq<string>)
    ensures |r| == |kvs|
    ensures forall i :: 0 <= i < |kvs| ==> r[i] == PieceText(kvs[i])
  {
    seq(|kvs|, i requires 0 <= i < |kvs| => PieceText(kvs[i]))
  }

  /** The descriptors that `Format` can write so that the parser reads them back: the id
      has no `[`, keys have no `,` or `=`, values have no `,`, and when there are several
      properties the last piece is not empty (Java's split would drop it). */
  predicate Formattable(id: string, kvs: seq<(string, Option<string>)>) {
    && '[' !in id
    && |kvs| >= 1
    && (forall i :: 0 <= i < |kvs| ==> ',' !in kvs[i].0 && '=' !in kvs[i].0)
    && (forall i :: 0 <= i < |kvs| && kvs[i].1.Some? ==> ',' !in kvs[i].1.value)
    && (|kvs| > 1 ==> PieceText(kvs[|kvs| - 1]) != "")
  }

  /** Writes a descriptor in the `id[key=value,...]` form the parser reads. */
  function Format(id: string, kvs: seq<(string, Option<string>)>): string
    requires |kvs| >= 1
  {
    id + "[" + Join(PieceTexts(kvs), ',') + "]"
  }

  lemma PropertyOfPieceText(kv: (string, Option<string>))
    requires '=' !in kv.0
    ensures PropertyOf(PieceText(kv)) == kv
  {
    if kv.1.Some? {
      var t := PieceText(kv);
      IndexOfAfterPrefix(kv.0, '=', kv.1.value);
      assert t == kv.0 + ['='] + kv.1.value;
      assert t[..|kv.0|] == kv.0;
      assert t[|kv.0| + 1..] == kv.1.value;
    }
  }

  /** Parsing a formatted descriptor gives back its id and its properties. */
  lemma FromStringFormat(id: string, kvs: seq<(string, Option<string>)>)
    requires Formattable(id, kvs)
    ensures FromString(Format(id, kvs)) == Ok(BlockState(id, PutAll(kvs)))
  {
    var texts := PieceTexts(kvs);
    var body := Join(texts, ',');
    var s := Format(id, kvs);
    assert s == id + ['['] + (body + "]");
    IndexOfAfterPrefix(id, '[', body + "]");
    assert s[..|id|] == id;
    assert s[|id| + 1..|s| - 1] == body;
    forall i | 0 <= i < |texts| ensures ',' !in texts[i] {
      assert texts[i] == PieceText(kvs[i]);
    }
    SplitJoin(texts, ',');
    forall i | 0 <= i < |kvs| ensures PropertyOf(texts[i]) == kvs[i] {
      PropertyOfPieceText(kvs[i]);
    }
    assert ParsePieces(texts) == kvs;
  }

  /** A state written with its properties in any order parses to the same state. */
  lemma FormatOrderIrrelevant(id: string, a: seq<(string, Option<string>)>, b: seq<(string, Option<string>)>)
    requires Formattable(id, a) && Formattable(id, b)
    requires DistinctKeys(a) && DistinctKeys(b)
    requires forall p :: p in a <==> p in b
    ensures FromString(Format(id, a)) == FromString(Format(id, b))
  {
    FromStringFormat(id, a);
    FromStringFormat(id, b);
    PutAllOrderIndependent(a, b);
  }

  /** A descriptor with a single property parses to a one-entry property map. */
  lemma SingleProperty(id: string, kv: (string, Option<string>))
    requires '[' !in id && ',' !in kv.0 && '=' !in kv.0
    requires kv.1.Some? ==> ',' !in kv.1.value
    ensures FromString(Format(id, [kv])) == Ok(BlockState(id, map[kv.0 := kv.1]))
  {
    FromStringFormat(id, [kv]);
    assert PutAll([kv]) == PutAll([])[kv.0 := kv.1];
  }

  lemma FormatSingle(id: string, piece: string)
    ensures Format(id, [(piece, None)]) == id + "[" + piece + "]"
  {
    assert PieceTexts([(piece, None)]) == [piece];
    assert Join([piece], ',') == piece;
  }

  /** `AIR` is what parsing `base:air[default]` yields. */
  lemma AirFromString()
    ensures FromString("base:air[default]") == Ok(AIR)
  {
    FormatSingle("base:air", "default");
    assert "base:air" + "[" + "default" + "]" == "base:air[default]";
    SingleProperty("base:air", ("default", None));
  }

  /** Empty brackets are one empty property piece: the empty key with a null value. */
  lemma EmptyBrackets(id: string)
    requires '[' !in id
    ensures FromString(id + "[]") == Ok(BlockState(id, map["" := None]))
  {
    FormatSingle(id, "");
    assert id + "[" + "" + "]" == id + "[]";
    SingleProperty(id, ("", None));
  }
}
