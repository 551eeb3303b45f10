/** The per-connection world cache: upstream chunk sections merged as they arrive, a set of
    chunks changed since the last flush, single-block changes, and the conversion of a cached
    chunk into the downstream chunk-with-light packet. */
module ChunkTracker {
  import opened Wrappers
  import opened BlockState
  import opened MappingData
  import opened ChunkSectionType
  import opened BlockPositionType

  const WORLD_MIN_Y: int := -1024
  const WORLD_MAX_Y: int := 1024
  const WORLD_HEIGHT: int := WORLD_MAX_Y - WORLD_MIN_Y
  /** `WORLD_HEIGHT >> 4`: the number of downstream section slots. */
  const SLOTS: int := WORLD_HEIGHT / 16
  /** `WORLD_MIN_Y >> 4`: the upstream section index of slot 0. */
  const SLOT_OFFSET: int := WORLD_MIN_Y / 16
  const MAX_LIGHT: int := 15
  /** The id written for a cell whose upstream state has no downstream counterpart. */
  const UNMAPPED_BLOCK: int := 1

  /** A chunk column key; the source packs the two ints into one long, which is injective. */
  datatype ChunkPos = ChunkPos(x: int, z: int)

  datatype Chunk = Chunk(x: int, z: int, sections: map<int, Section>)

  datatype Tracker = Tracker(chunks: map<ChunkPos, Chunk>, dirty: set<ChunkPos>)

  const INITIAL: Tracker := Tracker(map[], {})

  /** Every chunk is stored under its own coordinates and every section is a full grid. */
  predicate WellFormed(t: Tracker) {
    forall p :: p in t.chunks ==>
      && t.chunks[p].x == p.x && t.chunks[p].z == p.z
      && SectionsComplete(t.chunks[p])
  }

  /** Flushing relies on every dirty key having a chunk. */
  predicate Valid(t: Tracker) {
    WellFormed(t) && t.dirty <= t.chunks.Keys
  }

  /** `getChunkSection(chunkX, subChunkY, chunkZ)`. */
  function GetSection(t: Tracker, cx: int, sy: int, cz: int): (r: Option<Section>)
    ensures r.Some? <==> ChunkPos(cx, cz) in t.chunks && sy in t.chunks[ChunkPos(cx, cz)].sections
  {
    var p := ChunkPos(cx, cz);
    if p in t.chunks && sy in t.chunks[p].sections then Some(t.chunks[p].sections[sy]) else None
  }

  /** `mergeChunkSection`: creates the chunk when missing, stores the section in slot `sy`
      and marks the chunk dirty. */
  function Merge(t: Tracker, cx: int, sy: int, cz: int, section: Section): (r: Tracker)
    ensures GetSection(r, cx, sy, cz) == Some(section)
    ensures forall y :: y != sy ==> GetSection(r, cx, y, cz) == GetSection(t, cx, y, cz)
    ensures forall p :: p != ChunkPos(cx, cz) ==> (p in r.chunks <==> p in t.chunks) && (p in t.chunks ==> r.chunks[p] == t.chunks[p])
    ensures r.dirty == t.dirty + {ChunkPos(cx, cz)}
  {
    var p := ChunkPos(cx, cz);
    var chunk := if p in t.chunks then t.chunks[p] else Chunk(cx, cz, map[]);
    Tracker(t.chunks[p := chunk.(sections := chunk.sections[sy := section])], t.dirty + {p})
  }

  /** Reading a slot after a merge: the merged slot holds the new section, every other slot
      of every chunk is as before. */
  lemma MergeGetSection(t: Tracker, cx: int, sy: int, cz: int, section: Section, x: int, y: int, z: int)
    ensures GetSection(Merge(t, cx, sy, cz, section), x, y, z)
         == if (x, y, z) == (cx, sy, cz) then Some(section) else GetSection(t, x, y, z)
  {
  }

  /** Merging keeps the tracker valid. */
  lemma MergePreservesValid(t: Tracker, cx: int, sy: int, cz: int, section: Section)
    requires Valid(t) && CompleteSection(section)
    ensures Valid(Merge(t, cx, sy, cz, section))
  {
  }

  /** The upstream catalog index a changed block is stored as: the descriptor's index, or
      air's index when the catalog does not know the descriptor. */
  function BlockValue(catalog: Catalog, st: BlockState): (id: int)
    ensures st in catalog.cosmicReach && catalog.cosmicReach[st] != MISSING ==> id == catalog.cosmicReach[st]
    ensures st !in catalog.cosmicReach ==> id == GetInt(catalog.cosmicReach, AIR)
  {
    var id := GetInt(catalog.cosmicReach, st);
    if id == MISSING then GetInt(catalog.cosmicReach, AIR) else id
  }

  /** The downstream id of an upstream catalog index, or 1 when it has none. */
  function Downstream(catalog: Catalog, id: int): (m: int)
    ensures id in catalog.cross && catalog.cross[id] != MISSING ==> m == catalog.cross[id]
    ensures id !in catalog.cross ==> m == UNMAPPED_BLOCK
  {
    var m := GetInt(catalog.cross, id);
    if m != MISSING then m else UNMAPPED_BLOCK
  }

  /** `handleBlockChange`: when the section holding the block is cached, stores the block's
      upstream index in its cell and returns the downstream id to send; when it is not
      cached, returns 0 without parsing the descriptor. */
  function HandleBlockChange(t: Tracker, catalog: Catalog, pos: BlockPosition, descriptor: string)
    : (r: Result<(int, Tracker), ParseError>)
    requires WellFormed(t)
    ensures GetSection(t, pos.x / 16, pos.y / 16, pos.z / 16).None? ==> r == Ok((0, t))
    ensures GetSection(t, pos.x / 16, pos.y / 16, pos.z / 16).Some? ==> (r.Err? <==> FromString(descriptor).Err?)
    ensures r.Ok? ==> r.value.1.dirty == t.dirty && r.value.1.chunks.Keys == t.chunks.Keys
  {
    var cx := pos.x / 16;
    var sy := pos.y / 16;
    var cz := pos.z / 16;
    match GetSection(t, cx, sy, cz)
    case None => Ok((0, t))
    case Some(section) =>
      var st :- FromString(descriptor);
      var id := BlockValue(catalog, st);
      var cell := CellIndex(pos.x % 16, pos.y % 16, pos.z % 16);
      var chunk := t.chunks[ChunkPos(cx, cz)];
      var section' := section.(blocks := section.blocks[cell := id]);
      var t' := t.(chunks := t.chunks[ChunkPos(cx, cz) := chunk.(sections := chunk.sections[sy := section'])]);
      Ok((Downstream(catalog, id), t'))
  }

  /** A block change in a cached section rewrites exactly the block's cell with the
      descriptor's upstream index and leaves every other section as it was. */
  lemma BlockChangeWritesOneCell(t: Tracker, catalog: Catalog, pos: BlockPosition, descriptor: string)
    requires WellFormed(t)
    requires GetSection(t, pos.x / 16, pos.y / 16, pos.z / 16).Some? && FromString(descriptor).Ok?
    ensures var (m, t1) := HandleBlockChange(t, catalog, pos, descriptor).value;
            var before := GetSection(t, pos.x / 16, pos.y / 16, pos.z / 16).value;
            var after := GetSection(t1, pos.x / 16, pos.y / 16, pos.z / 16).value;
            var cell := CellIndex(pos.x % 16, pos.y % 16, pos.z % 16);
            var id := BlockValue(catalog, FromString(descriptor).value);
            && m == Downstream(catalog, id)
            && |after.blocks| == CELLS && after.blocks[cell] == id
            && (forall j :: 0 <= j < CELLS && j != cell ==> after.blocks[j] == before.blocks[j])
            && after.skyLight == before.skyLight && after.blockLight == before.blockLight
            && (forall cx, y, cz :: (cx, y, cz) != (pos.x / 16, pos.y / 16, pos.z / 16) ==>
                  GetSection(t1, cx, y, cz) == GetSection(t, cx, y, cz))
  {
  }

  lemma BlockChangePreservesValid(t: Tracker, catalog: Catalog, pos: BlockPosition, descriptor: string)
    requires Valid(t)
    requires HandleBlockChange(t, catalog, pos, descriptor).Ok?
    ensures Valid(HandleBlockChange(t, catalog, pos, descriptor).value.1)
  {
  }

  // ----- Conversion to the downstream chunk format -----

  /** Light of a downstream section, one nibble per cell. */
  datatype SectionLight = SectionLight(sky: seq<int>, block: seq<int>)

  /** A downstream section: the block id per cell, the single biome of its biome palette,
      the non-air block count and, for converted sections, its light. */
  datatype RemappedSection = RemappedSection(blocks: seq<int>, biome: int, nonAirBlocks: int, light: Option<SectionLight>)

  datatype RemappedChunk = RemappedChunk(x: int, z: int, sections: seq<RemappedSection>)

  /** The downstream chunk-with-light packet; bit sets are given as the sets of their bits. */
  datatype ChunkPacket = ChunkPacket(
    chunk: RemappedChunk,
    skyLightMask: set<int>,
    blockLightMask: set<int>,
    emptySkyLightMask: set<int>,
    emptyBlockLightMask: set<int>,
    skyLights: seq<seq<int>>,
    blockLights: seq<seq<int>>)

  /** n copies of v. */
  function Repeat(v: int, n: nat): (r: seq<int>)
    ensures |r| == n && forall i :: 0 <= i < n ==> r[i] == v
  {
    if n == 0 then [] else Repeat(v, n - 1) + [v]
  }

  /** A light array with every nibble at full brightness. */
  const FULL_LIGHT: seq<int> := Repeat(MAX_LIGHT, CELLS)

  /** Bits 4k to 4k + 3 of the two's-complement value v. */
  function Nibble(v: int, k: nat): (n: int)
    ensures 0 <= n < 16
    decreases k
  {
    if k == 0 then v % 16 else Nibble(v / 16, k - 1)
  }

  /** The downstream light level of a packed upstream block-light value: the brightest of
      its three colour channels. */
  function BlockLightLevel(v: int): (l: int)
    ensures 0 <= l <= MAX_LIGHT
    ensures l >= Nibble(v, 0) && l >= Nibble(v, 1) && l >= Nibble(v, 2)
    ensures l == Nibble(v, 0) || l == Nibble(v, 1) || l == Nibble(v, 2)
  {
    var r := (v / 256) % 16;
    var g := (v / 16) % 16;
    var b := v % 16;
    assert Nibble(v, 2) == r && Nibble(v, 1) == g;
    if r >= g && r >= b then r else if g >= b then g else b
  }

  /** The number of cells different from `x`. */
  function CountOther(s: seq<int>, x: int): (n: nat)
    ensures n == |s| - multiset(s)[x]
  {
    if |s| == 0 then 0
    else
      var init := s[..|s| - 1];
      assert s == init + [s[|s| - 1]];
      CountOther(init, x) + (if s[|s| - 1] != x then 1 else 0)
  }

  /** The upstream catalog index of air, which the conversion sends as 0. */
  function AirId(catalog: Catalog): int {
    GetInt(catalog.cosmicReach, AIR)
  }

  /** The downstream id of one upstream cell: air stays 0, anything else is cross-mapped. */
  function RemapCell(catalog: Catalog, airId: int, v: int): int {
    if v == airId then 0 else Downstream(catalog, v)
  }

  /** One downstream section slot. A missing upstream section gives an unlit section of air;
      a present one gives the cross-mapped cells, full sky light and the channel maximum of
      the upstream block light, or darkness when the upstream section has none. */
  function RemapSection(catalog: Catalog, section: Option<Section>): (r: RemappedSection)
    requires section.Some? ==> |section.value.blocks| == CELLS
    requires section.Some? && section.value.blockLight.Some? ==> |section.value.blockLight.value| == CELLS
    ensures |r.blocks| == CELLS && r.biome == catalog.plainsBiome
    ensures section.None? ==> r.light.None? && r.nonAirBlocks == 0 && forall i :: 0 <= i < CELLS ==> r.blocks[i] == 0
    ensures section.Some? ==> r.light.Some? && |r.light.value.sky| == CELLS && |r.light.value.block| == CELLS
  {
    match section
    case None => RemappedSection(DARK, catalog.plainsBiome, 0, None)
    case Some(s) =>
      RemappedSection(RemapCells(catalog, AirId(catalog), s.blocks), catalog.plainsBiome, CountOther(s.blocks, AirId(catalog)),
                      Some(SectionLight(FULL_LIGHT, BlockLightGrid(s.blockLight))))
  }

  /** A grid of zeros: all air, or no light. */
  const DARK: seq<int> := Repeat(0, CELLS)

  function RemapCells(catalog: Catalog, airId: int, blocks: seq<int>): (r: seq<int>)
    requires |blocks| == CELLS
    ensures |r| == CELLS
    ensures forall i :: 0 <= i < CELLS ==> r[i] == RemapCell(catalog, airId, blocks[i])
  {
    seq(CELLS, i requires 0 <= i < CELLS => RemapCell(catalog, airId, blocks[i]))
  }

  /** The downstream block light of a section: darkness when upstream has none. */
  function BlockLightGrid(light: Option<seq<int>>): (r: seq<int>)
    requires light.Some? ==> |light.value| == CELLS
    ensures |r| == CELLS
    ensures forall i :: 0 <= i < CELLS ==> r[i] == if light.Some? then BlockLightLevel(light.value[i]) else 0
  {
    if light.None? then DARK else seq(CELLS, i requires 0 <= i < CELLS => BlockLightLevel(light.value[i]))
  }

  /** A section read from the save format: a full grid, with a full block-light grid when
      it has block light. */
  predicate CompleteSection(s: Section) {
    |s.blocks| == CELLS && (s.blockLight.Some? ==> |s.blockLight.value| == CELLS)
  }

  predicate SectionsComplete(chunk: Chunk) {
    forall y :: y in chunk.sections ==> CompleteSection(chunk.sections[y])
  }

  function SectionAt(chunk: Chunk, y: int): Option<Section> {
    if y in chunk.sections then Some(chunk.sections[y]) else None
  }

  /** `remapChunk`: slot `idx` of the downstream chunk is built from upstream section
      `idx + (WORLD_MIN_Y >> 4)`. */
  function RemapChunk(catalog: Catalog, chunk: Chunk): (r: RemappedChunk)
    requires SectionsComplete(chunk)
    ensures r.x == chunk.x && r.z == chunk.z && |r.sections| == SLOTS
    ensures forall idx :: 0 <= idx < SLOTS ==> r.sections[idx] == RemapSection(catalog, SectionAt(chunk, idx + SLOT_OFFSET))
  {
    RemappedChunk(chunk.x, chunk.z, seq(SLOTS, idx requires 0 <= idx < SLOTS => RemapSection(catalog, SectionAt(chunk, idx + SLOT_OFFSET))))
  }

  /** The sky-light arrays of the lit sections, bottom to top. */
  function SkyLights(sections: seq<RemappedSection>): seq<seq<int>> {
    if |sections| == 0 then []
    else (if sections[0].light.Some? then [sections[0].light.value.sky] else []) + SkyLights(sections[1..])
  }

  /** The block-light arrays of the lit sections, bottom to top. */
  function BlockLights(sections: seq<RemappedSection>): seq<seq<int>> {
    if |sections| == 0 then []
    else (if sections[0].light.Some? then [sections[0].light.value.block] else []) + BlockLights(sections[1..])
  }

  /** The mask bits of the lit sections: section i is bit 1 + i. */
  function LitBits(sections: seq<RemappedSection>): (bits: set<int>)
    ensures forall b :: b in bits <==> 1 <= b <= |sections| && sections[b - 1].light.Some?
  {
    set i | 0 <= i < |sections| && sections[i].light.Some? :: 1 + i
  }

  /** The lit slots of a converted chunk are exactly those with an upstream section. */
  lemma LitSlotsOfChunk(catalog: Catalog, chunk: Chunk)
    requires SectionsComplete(chunk)
    ensures forall b :: b in LitBits(RemapChunk(catalog, chunk).sections) <==> 1 <= b <= SLOTS && SectionAt(chunk, b - 1 + SLOT_OFFSET).Some?
  {
    var secs := RemapChunk(catalog, chunk).sections;
    forall idx | 0 <= idx < SLOTS ensures secs[idx].light.Some? <==> SectionAt(chunk, idx + SLOT_OFFSET).Some? {
      RemappedLit(catalog, SectionAt(chunk, idx + SLOT_OFFSET));
    }
    forall b ensures b in LitBits(secs) <==> 1 <= b <= SLOTS && SectionAt(chunk, b - 1 + SLOT_OFFSET).Some? {
      if 1 <= b <= SLOTS {
        assert secs[b - 1].light.Some? <==> SectionAt(chunk, (b - 1) + SLOT_OFFSET).Some?;
      }
    }
  }

  lemma RemappedLit(catalog: Catalog, section: Option<Section>)
    requires section.Some? ==> |section.value.blocks| == CELLS
    requires section.Some? && section.value.blockLight.Some? ==> |section.value.blockLight.value| == CELLS
    ensures RemapSection(catalog, section).light.Some? <==> section.Some?
  {
  }

  /** The packet `tick` sends for one chunk: a full-light pseudo-section below and above
      the world, and light for every converted section. */
  function PacketFor(catalog: Catalog, chunk: Chunk): (p: ChunkPacket)
    requires SectionsComplete(chunk)
    ensures p.chunk.x == chunk.x && p.chunk.z == chunk.z
    ensures p.blockLightMask <= p.skyLightMask && 0 in p.skyLightMask && SLOTS + 1 in p.skyLightMask
    ensures p.blockLightMask !! p.emptyBlockLightMask
  {
    var remapped := RemapChunk(catalog, chunk);
    var lit := LitBits(remapped.sections);
    ChunkPacket(
      remapped,
      {0} + lit + {SLOTS + 1},
      lit,
      {},
      {0, SLOTS + 1},
      [FULL_LIGHT] + SkyLights(remapped.sections) + [FULL_LIGHT],
      BlockLights(remapped.sections))
  }

  /** The packet for a chunk carries the converted chunk, marks the two pseudo-sections as
      having empty block light, lights exactly the slots with an upstream section in both
      masks (the sky mask adding the pseudo-sections), and sends full sky light for the
      pseudo-sections first and last. */
  lemma PacketForShape(catalog: Catalog, chunk: Chunk)
    requires SectionsComplete(chunk)
    ensures var p := PacketFor(catalog, chunk);
            && p.chunk == RemapChunk(catalog, chunk)
            && p.emptySkyLightMask == {} && p.emptyBlockLightMask == {0, SLOTS + 1}
            && (forall b :: b in p.skyLightMask <==> b == 0 || b == SLOTS + 1 || b in p.blockLightMask)
            && (forall b :: b in p.blockLightMask <==> 1 <= b <= SLOTS && SectionAt(chunk, b - 1 + SLOT_OFFSET).Some?)
            && |p.skyLights| >= 2 && p.skyLights[0] == FULL_LIGHT && p.skyLights[|p.skyLights| - 1] == FULL_LIGHT
  {
    LitSlotsOfChunk(catalog, chunk);
  }

  /** A chunk without sections in the world range gives a packet whose only light is the two
      pseudo-sections, whose slots are all unlit air with the plains biome. */
  lemma EmptyChunkPacket(catalog: Catalog, chunk: Chunk)
    requires SectionsComplete(chunk)
    requires forall y :: y in chunk.sections ==> y < SLOT_OFFSET || y >= SLOT_OFFSET + SLOTS
    ensures var p := PacketFor(catalog, chunk);
            && p.skyLightMask == {0, SLOTS + 1} && p.blockLightMask == {}
            && p.skyLights == [FULL_LIGHT, FULL_LIGHT] && p.blockLights == []
            && forall idx :: 0 <= idx < SLOTS ==>
                 var s := p.chunk.sections[idx];
                 s.light.None? && s.biome == catalog.plainsBiome && s.nonAirBlocks == 0
  {
    PacketForShape(catalog, chunk);
    var p := PacketFor(catalog, chunk);
    var secs := p.chunk.sections;
    forall idx | 0 <= idx < SLOTS ensures secs[idx].light.None? {
      assert SectionAt(chunk, idx + SLOT_OFFSET).None?;
    }
    NoLightNoArrays(secs);
  }

  lemma {:induction false} NoLightNoArrays(sections: seq<RemappedSection>)
    requires forall i :: 0 <= i < |sections| ==> sections[i].light.None?
    ensures SkyLights(sections) == [] && BlockLights(sections) == []
  {
    if |sections| > 0 {
      NoLightNoArrays(sections[1..]);
    }
  }

  /** A converted section keeps air as 0, sends every other cell under its downstream id (or
      1), counts exactly the cells that are not air, is fully sky-lit and carries the
      brightest channel of each upstream block-light value. */
  lemma PresentSectionRemapped(catalog: Catalog, s: Section)
    requires |s.blocks| == CELLS
    requires s.blockLight.Some? ==> |s.blockLight.value| == CELLS
    ensures var r := RemapSection(catalog, Some(s));
            var airId := GetInt(catalog.cosmicReach, AIR);
            && r.nonAirBlocks == CELLS - multiset(s.blocks)[airId]
            && (forall i :: 0 <= i < CELLS ==> r.blocks[i] == if s.blocks[i] == airId then 0 else Downstream(catalog, s.blocks[i]))
            && r.light.value.sky == FULL_LIGHT
            && (forall i :: 0 <= i < CELLS ==> r.light.value.block[i] == if s.blockLight.Some? then BlockLightLevel(s.blockLight.value[i]) else 0)
  {
  }

  /** The id `handleBlockChange` returns for a non-air block is the id the next flush sends
      for that cell, provided the section lies in the world range. */
  lemma BlockChangeAgreesWithFlush(t: Tracker, catalog: Catalog, pos: BlockPosition, descriptor: string)
    requires WellFormed(t)
    requires GetSection(t, pos.x / 16, pos.y / 16, pos.z / 16).Some? && FromString(descriptor).Ok?
    requires SLOT_OFFSET <= pos.y / 16 < SLOT_OFFSET + SLOTS
    requires BlockValue(catalog, FromString(descriptor).value) != GetInt(catalog.cosmicReach, AIR)
    ensures var (m, t1) := HandleBlockChange(t, catalog, pos, descriptor).value;
            var chunk := t1.chunks[ChunkPos(pos.x / 16, pos.z / 16)];
            SectionsComplete(chunk) &&
            RemapChunk(catalog, chunk).sections[pos.y / 16 - SLOT_OFFSET].blocks[CellIndex(pos.x % 16, pos.y % 16, pos.z % 16)] == m
  {
    BlockChangeWritesOneCell(t, catalog, pos, descriptor);
    var (m, t1) := HandleBlockChange(t, catalog, pos, descriptor).value;
    var chunk := t1.chunks[ChunkPos(pos.x / 16, pos.z / 16)];
    assert SectionAt(chunk, pos.y / 16) == GetSection(t1, pos.x / 16, pos.y / 16, pos.z / 16);
  }

  /** `packets[i]` is the packet for the chunk at `order[i]`, and no chunk is sent twice. */
  predicate Sent(t: Tracker, catalog: Catalog, packets: seq<ChunkPacket>, order: seq<ChunkPos>)
    requires WellFormed(t)
  {
    && |packets| == |order|
    && (forall i :: 0 <= i < |order| ==> order[i] in t.chunks && packets[i] == PacketFor(catalog, t.chunks[order[i]]))
    && Distinct(order)
  }

  /** No element occurs twice. */
  predicate Distinct<T(==)>(xs: seq<T>) {
    forall i, j :: 0 <= i < j < |xs| ==> xs[i] != xs[j]
  }

  lemma DistinctSnoc<T>(xs: seq<T>, x: T)
    requires Distinct(xs) && forall i :: 0 <= i < |xs| ==> xs[i] != x
    ensures Distinct(xs + [x])
  {
    var ys := xs + [x];
    assert forall i :: 0 <= i < |xs| ==> ys[i] == xs[i];
  }

  /** `tick`: sends one packet per dirty chunk, in the dirty set's iteration order (returned
      as `order`), then clears the dirty set. A dirty key without a chunk ends the flush at
      once and leaves the dirty set as it was. */
  method Tick(t: Tracker, catalog: Catalog) returns (packets: seq<ChunkPacket>, order: seq<ChunkPos>, t1: Tracker)
    requires WellFormed(t)
    ensures t1.chunks == t.chunks
    ensures Sent(t, catalog, packets, order)
    ensures forall i :: 0 <= i < |order| ==> order[i] in t.dirty
    ensures t.dirty <= t.chunks.Keys ==> t1.dirty == {} && forall p :: p in t.dirty ==> p in order
    ensures !(t.dirty <= t.chunks.Keys) ==> t1 == t
  {
    var remaining := t.dirty;
    packets := [];
    order := [];
    while remaining != {}
      invariant remaining <= t.dirty
      invariant forall p :: p in t.dirty ==> p in remaining || p in order
      invariant forall i :: 0 <= i < |order| ==> order[i] in t.dirty && order[i] !in remaining
      invariant Sent(t, catalog, packets, order)
      decreases |remaining|
    {
      var key :| key in remaining;
      if key !in t.chunks {
        return packets, order, t;
      }
      SentSnoc(t, catalog, packets, order, key);
      TakenSnoc(order, key, remaining, t.dirty);
      packets := packets + [PacketFor(catalog, t.chunks[key])];
      order := order + [key];
      remaining := remaining - {key};
    }
    t1 := t.(dirty := {});
  }

  /** A flush extended by one more chunk, not sent before, is still a flush. */
  lemma SentSnoc(t: Tracker, catalog: Catalog, packets: seq<ChunkPacket>, order: seq<ChunkPos>, key: ChunkPos)
    requires WellFormed(t) && Sent(t, catalog, packets, order)
    requires key in t.chunks && forall i :: 0 <= i < |order| ==> order[i] != key
    ensures Sent(t, catalog, packets + [PacketFor(catalog, t.chunks[key])], order + [key])
  {
    DistinctSnoc(order, key);
    PacketsSnoc(t, catalog, packets, order, key);
  }

  /** Moving one element from the remaining set to the end of the order keeps the order
      within the taken elements. */
  lemma TakenSnoc<T>(order: seq<T>, key: T, remaining: set<T>, all: set<T>)
    requires key in remaining && remaining <= all
    requires forall i :: 0 <= i < |order| ==> order[i] in all && order[i] !in remaining
    ensures var os := order + [key];
            forall i :: 0 <= i < |os| ==> os[i] in all && os[i] !in remaining - {key}
  {
  }

  lemma PacketsSnoc(t: Tracker, catalog: Catalog, packets: seq<ChunkPacket>, order: seq<ChunkPos>, key: ChunkPos)
    requires WellFormed(t) && |packets| == |order| && key in t.chunks
    requires forall i :: 0 <= i < |order| ==> order[i] in t.chunks && packets[i] == PacketFor(catalog, t.chunks[order[i]])
    ensures var ps := packets + [PacketFor(catalog, t.chunks[key])];
            var os := order + [key];
            forall i :: 0 <= i < |os| ==> os[i] in t.chunks && ps[i] == PacketFor(catalog, t.chunks[os[i]])
  {
  }

  /** Every packet of a flush of a well-formed tracker names the chunk it was built from. */
  lemma SentPacketsNameTheirChunk(t: Tracker, catalog: Catalog, packets: seq<ChunkPacket>, order: seq<ChunkPos>)
    requires WellFormed(t) && Sent(t, catalog, packets, order)
    ensures forall i :: 0 <= i < |order| ==> packets[i].chunk.x == order[i].x && packets[i].chunk.z == order[i].z
  {
  }
}
