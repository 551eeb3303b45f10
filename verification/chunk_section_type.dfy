/** The reader of one upstream chunk section: a tag-dispatched sequence of block data, sky
    light, block light and block entities. The save-format tag values and the save library's
    block-data and block-light-layer readers are parameters. */
module ChunkSectionType {
  import opened Wrappers
  import opened Bytes
  import opened BlockState
  import MappingData

  /** Number of cells in a 16 x 16 x 16 section. */
  const CELLS: int := 4096
  /** Number of cells in one 16 x 16 horizontal layer. */
  const LAYER_CELLS: int := 256
  const LAYERS: int := 16
  /** Size of a nibble-packed sky-light layer. */
  const NIBBLE_LAYER_BYTES: int := 128
  const SKY_LAYER_SINGLE: int := 1
  const SKY_LAYER_NIBBLE: int := 2

  /** Cell (x, y, z) of a section grid, in the y, z, x order both games use. */
  function CellIndex(x: int, y: int, z: int): (i: int)
    requires 0 <= x < 16 && 0 <= y < 16 && 0 <= z < 16
    ensures 0 <= i < CELLS
  {
    x + 16 * z + LAYER_CELLS * y
  }

  datatype SkyLayer = SingleLayer(level: int) | NibbleLayer(nibbles: seq<Byte>)

  datatype SkyLight = SkyLayered(layers: seq<SkyLayer>) | SkySingle(level: int)

  /** Block entities are skipped on the wire, so the list is always empty. */
  datatype BlockEntity = BlockEntity(data: seq<Byte>)

  /** `blocks` holds an upstream block-state catalog index per cell; `blockLight` holds the
      packed light value per cell when present. */
  datatype Section = Section(
    blocks: seq<int>,
    skyLight: Option<SkyLight>,
    blockLight: Option<seq<int>>,
    blockEntities: seq<BlockEntity>)

  /** The save library's tag values. */
  datatype SaveTags = SaveTags(
    blockSingle: int, blockLayered: int,
    skyNull: int, skyLayered: int, skySingle: int,
    blockLightNull: int, blockLightLayered: int,
    blockEntityNull: int, blockEntityData: int)

  /** The save library's readers: the single and layered block-data readers yield the save
      key of every cell, the block-light layer reader takes the layer tag and index and yields
      the packed light values of one layer. */
  datatype Readers = Readers(
    singleBlocks: seq<Byte> -> Result<Decoded<seq<string>>, DecodeError>,
    layeredBlocks: seq<Byte> -> Result<Decoded<seq<string>>, DecodeError>,
    blockLightLayer: (int, int, seq<Byte>) -> Result<Decoded<seq<int>>, DecodeError>)

  /** The readers deliver whole grids and layers. */
  ghost predicate ReadersWellFormed(rd: Readers) {
    && (forall s :: rd.singleBlocks(s).Ok? ==> |rd.singleBlocks(s).value.value| == CELLS)
    && (forall s :: rd.layeredBlocks(s).Ok? ==> |rd.layeredBlocks(s).value.value| == CELLS)
    && (forall t, i, s :: rd.blockLightLayer(t, i, s).Ok? ==> |rd.blockLightLayer(t, i, s).value.value| == LAYER_CELLS)
  }

  datatype SectionError =
    | Truncated(cause: DecodeError)
    | BadSaveKey(parseError: ParseError)
    | UnknownBlockDataType(tag: int)
    | UnknownSkylightDataType(tag: int)
    | UnknownSkylightLayerType(tag: int)
    | UnknownBlockLightDataType(tag: int)
    | UnknownBlockEntityDataType(tag: int)
    | NegativeArraySize(size: int)
    | Unsupported

  function Lift<T>(r: Result<T, DecodeError>): Result<T, SectionError> {
    match r
    case Ok(v) => Ok(v)
    case Err(e) => Err(Truncated(e))
  }

  /** `readByte`: one signed byte. */
  function ReadByte(s: seq<Byte>): (r: Result<Decoded<int>, SectionError>)
    ensures r.Err? <==> |s| == 0
    ensures r.Ok? ==> r.value.rest == s[1..] && -128 <= r.value.value < 128
  {
    if |s| == 0 then Err(Truncated(EndOfInput)) else Ok(Decoded(Signed(s[0], 128), s[1..]))
  }

  /** The save-key function: the catalog index of the parsed state, or the index of air when
      the catalog does not know it. A key that does not parse fails. */
  function SaveKeyToBlockValue(catalog: map<BlockState, int>, key: string): (r: Result<int, SectionError>)
    ensures r.Err? <==> FromString(key).Err?
    ensures r.Ok? ==> var st := FromString(key).value;
              r.value == if st in catalog && catalog[st] != MappingData.MISSING then catalog[st] else MappingData.GetInt(catalog, AIR)
  {
    match FromString(key)
    case Err(e) => Err(BadSaveKey(e))
    case Ok(st) =>
      var id := MappingData.GetInt(catalog, st);
      if id != MappingData.MISSING then Ok(id) else Ok(MappingData.GetInt(catalog, AIR))
  }

  /** The save-key function applied to every cell; the first key that does not parse fails. */
  function KeysToBlockValues(catalog: map<BlockState, int>, keys: seq<string>): (r: Result<seq<int>, SectionError>)
    ensures r.Ok? <==> forall i :: 0 <= i < |keys| ==> FromString(keys[i]).Ok?
    ensures r.Ok? ==> |r.value| == |keys| && forall i :: 0 <= i < |keys| ==> Ok(r.value[i]) == SaveKeyToBlockValue(catalog, keys[i])
  {
    MapAll(k => SaveKeyToBlockValue(catalog, k), keys)
  }

  /** The block-data part: a single or layered block-data record, anything else fails. */
  function ReadBlocks(tags: SaveTags, rd: Readers, catalog: map<BlockState, int>, s: seq<Byte>)
    : (r: Result<Decoded<seq<int>>, SectionError>)
    requires ReadersWellFormed(rd)
    ensures r.Ok? ==> |r.value.value| == CELLS
    ensures |s| > 0 && Signed(s[0], 128) != tags.blockSingle && Signed(s[0], 128) != tags.blockLayered ==>
              r == Err(UnknownBlockDataType(Signed(s[0], 128)))
  {
    var tag :- ReadByte(s);
    var keys :-
      if tag.value == tags.blockSingle then Lift(rd.singleBlocks(tag.rest))
      else if tag.value == tags.blockLayered then Lift(rd.layeredBlocks(tag.rest))
      else Err(UnknownBlockDataType(tag.value));
    var values :- KeysToBlockValues(catalog, keys.value);
    Ok(Decoded(values, keys.rest))
  }

  /** One layer of layered sky light: type 1 carries one light byte, type 2 carries 128
      nibble-packed bytes, anything else fails. */
  function ReadSkyLayer(s: seq<Byte>): (r: Result<Decoded<SkyLayer>, SectionError>)
    ensures r.Ok? ==> |s| >= 2 && Signed(s[0], 128) in {SKY_LAYER_SINGLE, SKY_LAYER_NIBBLE}
    ensures r.Ok? && Signed(s[0], 128) == SKY_LAYER_SINGLE ==> r.value.rest == s[2..] && r.value.value == SingleLayer(Signed(s[1], 128))
    ensures r.Ok? && Signed(s[0], 128) == SKY_LAYER_NIBBLE ==>
              |s| >= 1 + NIBBLE_LAYER_BYTES && r.value.rest == s[1 + NIBBLE_LAYER_BYTES..] && r.value.value == NibbleLayer(s[1..1 + NIBBLE_LAYER_BYTES])
    ensures |s| > 0 && Signed(s[0], 128) !in {SKY_LAYER_SINGLE, SKY_LAYER_NIBBLE} ==> r == Err(UnknownSkylightLayerType(Signed(s[0], 128)))
  {
    var tag :- ReadByte(s);
    if tag.value == SKY_LAYER_SINGLE then
      var level :- ReadByte(tag.rest);
      Ok(Decoded(SingleLayer(level.value), level.rest))
    else if tag.value == SKY_LAYER_NIBBLE then
      if |tag.rest| < NIBBLE_LAYER_BYTES then Err(Truncated(EndOfInput))
      else
        assert tag.rest[..NIBBLE_LAYER_BYTES] == s[1..1 + NIBBLE_LAYER_BYTES];
        Ok(Decoded(NibbleLayer(tag.rest[..NIBBLE_LAYER_BYTES]), tag.rest[NIBBLE_LAYER_BYTES..]))
    else Err(UnknownSkylightLayerType(tag.value))
  }

  /** `count` sky-light layers, one after another. */
  function ReadSkyLayers(s: seq<Byte>, count: nat): (r: Result<Decoded<seq<SkyLayer>>, SectionError>)
    ensures r.Ok? ==> |r.value.value| == count && |r.value.rest| <= |s|
  {
    if count == 0 then Ok(Decoded([], s))
    else
      var first :- ReadSkyLayer(s);
      var more :- ReadSkyLayers(first.rest, count - 1);
      Ok(Decoded([first.value] + more.value, more.rest))
  }

  /** The sky-light part: absent, 16 layers, or one light byte for the whole section. */
  function ReadSkyLight(tags: SaveTags, s: seq<Byte>): (r: Result<Decoded<Option<SkyLight>>, SectionError>)
    ensures r.Ok? && r.value.value.Some? && r.value.value.value.SkyLayered? ==> |r.value.value.value.layers| == LAYERS
    ensures |s| > 0 && Signed(s[0], 128) == tags.skyNull ==> r == Ok(Decoded(None, s[1..]))
    ensures |s| > 1 && Signed(s[0], 128) == tags.skySingle && tags.skySingle != tags.skyNull && tags.skySingle != tags.skyLayered ==>
              r == Ok(Decoded(Some(SkySingle(Signed(s[1], 128))), s[2..]))
    ensures |s| > 0 && Signed(s[0], 128) !in {tags.skyNull, tags.skyLayered, tags.skySingle} ==>
              r == Err(UnknownSkylightDataType(Signed(s[0], 128)))
  {
    var tag :- ReadByte(s);
    if tag.value == tags.skyNull then Ok(Decoded(None, tag.rest))
    else if tag.value == tags.skyLayered then
      var layers :- ReadSkyLayers(tag.rest, LAYERS);
      Ok(Decoded(Some(SkyLayered(layers.value)), layers.rest))
    else if tag.value == tags.skySingle then
      var level :- ReadByte(tag.rest);
      Ok(Decoded(Some(SkySingle(level.value)), level.rest))
    else Err(UnknownSkylightDataType(tag.value))
  }

  /** Block-light layers `index` to 15: each is a tag byte followed by what the layer reader
      takes for it. The packed values of the layers are concatenated bottom to top. */
  function ReadBlockLightLayers(rd: Readers, s: seq<Byte>, index: nat): (r: Result<Decoded<seq<int>>, SectionError>)
    requires ReadersWellFormed(rd)
    requires index <= LAYERS
    ensures r.Ok? ==> |r.value.value| == (LAYERS - index) * LAYER_CELLS
    decreases LAYERS - index
  {
    if index == LAYERS then Ok(Decoded([], s))
    else
      var tag :- ReadByte(s);
      var layer :- Lift(rd.blockLightLayer(tag.value, index, tag.rest));
      var more :- ReadBlockLightLayers(rd, layer.rest, index + 1);
      Ok(Decoded(layer.value + more.value, more.rest))
  }

  /** The block-light part: absent or 16 layers. */
  function ReadBlockLight(tags: SaveTags, rd: Readers, s: seq<Byte>): (r: Result<Decoded<Option<seq<int>>>, SectionError>)
    requires ReadersWellFormed(rd)
    ensures r.Ok? && r.value.value.Some? ==> |r.value.value.value| == CELLS
    ensures |s| > 0 && Signed(s[0], 128) == tags.blockLightNull ==> r == Ok(Decoded(None, s[1..]))
    ensures |s| > 0 && Signed(s[0], 128) != tags.blockLightNull && Signed(s[0], 128) != tags.blockLightLayered ==>
              r == Err(UnknownBlockLightDataType(Signed(s[0], 128)))
  {
    var tag :- ReadByte(s);
    if tag.value == tags.blockLightNull then Ok(Decoded(None, tag.rest))
    else if tag.value == tags.blockLightLayered then
      var grid :- ReadBlockLightLayers(rd, tag.rest, 0);
      Ok(Decoded(Some(grid.value), grid.rest))
    else Err(UnknownBlockLightDataType(tag.value))
  }

  /** The block-entity part: nothing, or an int length and that many bytes which are skipped.
      No block entity is ever produced. */
  function ReadBlockEntities(tags: SaveTags, s: seq<Byte>): (r: Result<Decoded<seq<BlockEntity>>, SectionError>)
    ensures r.Ok? ==> r.value.value == []
    ensures |s| > 0 && Signed(s[0], 128) == tags.blockEntityNull ==> r == Ok(Decoded([], s[1..]))
    ensures |s| > 0 && Signed(s[0], 128) != tags.blockEntityNull && Signed(s[0], 128) != tags.blockEntityData ==>
              r == Err(UnknownBlockEntityDataType(Signed(s[0], 128)))
  {
    var tag :- ReadByte(s);
    if tag.value == tags.blockEntityNull then Ok(Decoded([], tag.rest))
    else if tag.value == tags.blockEntityData then
      var size :- Lift(ReadInt32(tag.rest));
      if size.value < 0 then Err(NegativeArraySize(size.value))
      else if |size.rest| < size.value then Err(Truncated(EndOfInput))
      else Ok(Decoded([], size.rest[size.value..]))
    else Err(UnknownBlockEntityDataType(tag.value))
  }

  /** `ChunkSectionType.read`. */
  function Read(tags: SaveTags, rd: Readers, catalog: map<BlockState, int>, s: seq<Byte>): (r: Result<Decoded<Section>, SectionError>)
    requires ReadersWellFormed(rd)
    ensures r.Ok? ==> |r.value.value.blocks| == CELLS && r.value.value.blockEntities == []
    ensures r.Ok? && r.value.value.blockLight.Some? ==> |r.value.value.blockLight.value| == CELLS
  {
    var blocks :- ReadBlocks(tags, rd, catalog, s);
    var sky :- ReadSkyLight(tags, blocks.rest);
    var light :- ReadBlockLight(tags, rd, sky.rest);
    var entities :- ReadBlockEntities(tags, light.rest);
    Ok(Decoded(Section(blocks.value, sky.value, light.value, entities.value), entities.rest))
  }

  /** `ChunkSectionType.write`: sections are never serialised. */
  function Write(section: Section): (r: Result<seq<Byte>, SectionError>)
    ensures r == Err(Unsupported)
  {
    Err(Unsupported)
  }

  /** The wire form of one sky-light layer. */
  function EncodeSkyLayer(l: SkyLayer): seq<Byte>
    requires EncodableLayer(l)
  {
    match l
    case SingleLayer(level) => [SKY_LAYER_SINGLE, if level < 0 then level + 256 else level]
    case NibbleLayer(nibbles) => [SKY_LAYER_NIBBLE] + nibbles
  }

  predicate EncodableLayer(l: SkyLayer) {
    (l.SingleLayer? ==> -128 <= l.level < 128) && (l.NibbleLayer? ==> |l.nibbles| == NIBBLE_LAYER_BYTES)
  }

  function EncodeSkyLayers(ls: seq<SkyLayer>): seq<Byte>
    requires forall i :: 0 <= i < |ls| ==> EncodableLayer(ls[i])
  {
    if |ls| == 0 then []
    else
      assert EncodableLayer(ls[0]);
      EncodeSkyLayer(ls[0]) + EncodeSkyLayers(ls[1..])
  }

  /** Reading a written sky-light layer gives it back and leaves what follows. */
  lemma ReadSkyLayerWritten(l: SkyLayer, rest: seq<Byte>)
    requires EncodableLayer(l)
    ensures ReadSkyLayer(EncodeSkyLayer(l) + rest) == Ok(Decoded(l, rest))
  {
    var s := EncodeSkyLayer(l) + rest;
    if l.SingleLayer? {
      assert s[1..] == [s[1]] + rest;
      assert s[2..] == rest;
    } else {
      assert s[1..][..NIBBLE_LAYER_BYTES] == l.nibbles;
      assert s[1..][NIBBLE_LAYER_BYTES..] == rest;
    }
  }

  lemma ConsOfSlice<T>(xs: seq<T>)
    requires |xs| > 0
    ensures [xs[0]] + xs[1..] == xs
  {
  }

  lemma ReadSkyLayersStep(s: seq<Byte>, count: nat, l: SkyLayer, tail: seq<Byte>, ls: seq<SkyLayer>, rest: seq<Byte>)
    requires count > 0
    requires ReadSkyLayer(s) == Ok(Decoded(l, tail))
    requires ReadSkyLayers(tail, count - 1) == Ok(Decoded(ls, rest))
    ensures ReadSkyLayers(s, count) == Ok(Decoded([l] + ls, rest))
  {
  }

  /** Reading written layers gives them all back, in order, and leaves what follows. */
  lemma {:induction false} ReadSkyLayersWritten(ls: seq<SkyLayer>, rest: seq<Byte>)
    requires forall i :: 0 <= i < |ls| ==> EncodableLayer(ls[i])
    ensures ReadSkyLayers(EncodeSkyLayers(ls) + rest, |ls|) == Ok(Decoded(ls, rest))
  {
    if |ls| > 0 {
      var more := ls[1..];
      assert EncodableLayer(ls[0]);
      assert forall i :: 0 <= i < |more| ==> more[i] == ls[i + 1];
      var tail := EncodeSkyLayers(more) + rest;
      var s := EncodeSkyLayers(ls) + rest;
      assert s == EncodeSkyLayer(ls[0]) + tail;
      ReadSkyLayerWritten(ls[0], tail);
      ReadSkyLayersWritten(more, rest);
      assert |more| == |ls| - 1;
      ReadSkyLayersStep(s, |ls|, ls[0], tail, more, rest);
      ConsOfSlice(ls);
    } else {
      assert EncodeSkyLayers(ls) + rest == rest;
    }
  }

  /** A whole section read from its parts: blocks, then layered sky light, absent block light
      and no block entities read back as exactly those parts, leaving what follows. The layer
      bytes are any that read back as the layers, such as written ones
      (`ReadSkyLayersWritten`). */
  lemma ReadWrittenSection(tags: SaveTags, rd: Readers, catalog: map<BlockState, int>, s: seq<Byte>, blocks: seq<int>,
                           skyTag: Byte, layerBytes: seq<Byte>, layers: seq<SkyLayer>, lightTag: Byte, entityTag: Byte,
                           rest: seq<Byte>)
    requires ReadersWellFormed(rd)
    requires Signed(skyTag, 128) == tags.skyLayered && tags.skyLayered != tags.skyNull
    requires Signed(lightTag, 128) == tags.blockLightNull
    requires Signed(entityTag, 128) == tags.blockEntityNull
    requires ReadSkyLayers(layerBytes + ([lightTag] + ([entityTag] + rest)), LAYERS) == Ok(Decoded(layers, [lightTag] + ([entityTag] + rest)))
    requires ReadBlocks(tags, rd, catalog, s) == Ok(Decoded(blocks, [skyTag] + (layerBytes + ([lightTag] + ([entityTag] + rest)))))
    ensures Read(tags, rd, catalog, s) == Ok(Decoded(Section(blocks, Some(SkyLayered(layers)), None, []), rest))
  {
    var afterLight := [entityTag] + rest;
    var afterSky := [lightTag] + afterLight;
    var sky := [skyTag] + (layerBytes + afterSky);
    assert ReadSkyLight(tags, sky) == Ok(Decoded(Some(SkyLayered(layers)), afterSky)) by {
      assert sky[1..] == layerBytes + afterSky;
      ReadLayeredSky(tags, sky, layers, afterSky);
    }
    assert ReadBlockLight(tags, rd, afterSky) == Ok(Decoded(None, afterLight)) by {
      assert afterSky[0] == lightTag && afterSky[1..] == afterLight;
    }
    assert ReadBlockEntities(tags, afterLight) == Ok(Decoded([], rest)) by {
      assert afterLight[0] == entityTag && afterLight[1..] == rest;
    }
    ReadOfParts(tags, rd, catalog, s, blocks, Some(SkyLayered(layers)), None, sky, afterSky, afterLight, rest);
  }

  /** The same with the sky-light layers written by `EncodeSkyLayers`. */
  lemma ReadSectionWithWrittenLayers(tags: SaveTags, rd: Readers, catalog: map<BlockState, int>, s: seq<Byte>, blocks: seq<int>,
                                     skyTag: Byte, layers: seq<SkyLayer>, lightTag: Byte, entityTag: Byte, rest: seq<Byte>)
    requires ReadersWellFormed(rd)
    requires Signed(skyTag, 128) == tags.skyLayered && tags.skyLayered != tags.skyNull
    requires Signed(lightTag, 128) == tags.blockLightNull
    requires Signed(entityTag, 128) == tags.blockEntityNull
    requires |layers| == LAYERS && forall i :: 0 <= i < |layers| ==> EncodableLayer(layers[i])
    requires ReadBlocks(tags, rd, catalog, s) == Ok(Decoded(blocks, [skyTag] + (EncodeSkyLayers(layers) + ([lightTag] + ([entityTag] + rest)))))
    ensures Read(tags, rd, catalog, s) == Ok(Decoded(Section(blocks, Some(SkyLayered(layers)), None, []), rest))
  {
    ReadSkyLayersWritten(layers, [lightTag] + ([entityTag] + rest));
    ReadWrittenSection(tags, rd, catalog, s, blocks, skyTag, EncodeSkyLayers(layers), layers, lightTag, entityTag, rest);
  }

  /** A layered sky-light tag followed by readable layers gives those layers. */
  lemma ReadLayeredSky(tags: SaveTags, sky: seq<Byte>, layers: seq<SkyLayer>, after: seq<Byte>)
    requires |sky| > 0 && Signed(sky[0], 128) == tags.skyLayered && tags.skyLayered != tags.skyNull
    requires ReadSkyLayers(sky[1..], LAYERS) == Ok(Decoded(layers, after))
    ensures ReadSkyLight(tags, sky) == Ok(Decoded(Some(SkyLayered(layers)), after))
  {
  }

  /** A section read is its four parts read one after another. */
  lemma ReadOfParts(tags: SaveTags, rd: Readers, catalog: map<BlockState, int>, s: seq<Byte>, blocks: seq<int>,
                    sky: Option<SkyLight>, light: Option<seq<int>>, t1: seq<Byte>, t2: seq<Byte>, t3: seq<Byte>, t4: seq<Byte>)
    requires ReadersWellFormed(rd)
    requires ReadBlocks(tags, rd, catalog, s) == Ok(Decoded(blocks, t1))
    requires ReadSkyLight(tags, t1) == Ok(Decoded(sky, t2))
    requires ReadBlockLight(tags, rd, t2) == Ok(Decoded(light, t3))
    requires ReadBlockEntities(tags, t3) == Ok(Decoded([], t4))
    ensures Read(tags, rd, catalog, s) == Ok(Decoded(Section(blocks, sky, light, []), t4))
  {
  }


  /** A block-entity record of `n` bytes is skipped whole: reading it leaves exactly what
      follows it, and a negative length fails. */
  lemma BlockEntitiesSkipped(tags: SaveTags, n: int, payload: seq<Byte>, rest: seq<Byte>)
    requires tags.blockEntityNull != tags.blockEntityData && -128 <= tags.blockEntityData < 128
    requires IsInt32(n) && (n >= 0 ==> |payload| == n)
    ensures var tag: Byte := if tags.blockEntityData < 0 then tags.blockEntityData + 256 else tags.blockEntityData;
            var s := [tag] + Int32ToBytes(n) + payload + rest;
            && (n >= 0 ==> ReadBlockEntities(tags, s) == Ok(Decoded([], rest)))
            && (n < 0 ==> ReadBlockEntities(tags, s) == Err(NegativeArraySize(n)))
  {
    var tag: Byte := if tags.blockEntityData < 0 then tags.blockEntityData + 256 else tags.blockEntityData;
    var s := [tag] + Int32ToBytes(n) + payload + rest;
    BlockEntityHeader(tags, tag, n, payload + rest, s);
    if n >= 0 {
      assert (payload + rest)[n..] == rest;
    }
  }

  /** The data tag followed by a written length reads that length and leaves the bytes
      after it. */
  lemma BlockEntityHeader(tags: SaveTags, tag: Byte, n: int, after: seq<Byte>, s: seq<Byte>)
    requires tags.blockEntityNull != tags.blockEntityData && Signed(tag, 128) == tags.blockEntityData
    requires IsInt32(n) && s == [tag] + Int32ToBytes(n) + after
    ensures ReadBlockEntities(tags, s) ==
              if n < 0 then Err(NegativeArraySize(n))
              else if |after| < n then Err(Truncated(EndOfInput))
              else Ok(Decoded([], after[n..]))
  {
    assert s[1..] == Int32ToBytes(n) + after;
    ReadInt32Written(n, after);
  }

  /** An unknown save key decodes to air's catalog index. */
  lemma UnknownKeyIsAir(catalog: map<BlockState, int>, key: string)
    requires FromString(key).Ok? && FromString(key).value !in catalog
    ensures SaveKeyToBlockValue(catalog, key) == Ok(MappingData.GetInt(catalog, AIR))
  {
  }
}
