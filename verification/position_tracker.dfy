/** The local player's last known position and rotation, and the chunk the downstream client
    was last told to centre its chunk cache on. */
module PositionTracker {
  import opened Wrappers
  import opened Bytes
  import opened Account

  /** A Java float. Values are taken as exact reals: rounding to single precision, NaN and the
      infinities are not modelled. */
  type Float = real

  datatype Vec3 = Vec3(x: Float, y: Float, z: Float)

  datatype Tracker = Tracker(pos: Vec3, yaw: Float, pitch: Float, lastChunk: Option<(int, int)>)

  /** Fields of a fresh tracker are Java's zero defaults and no chunk centre has been sent. */
  const INITIAL: Tracker := Tracker(Vec3(0.0, 0.0, 0.0), 0.0, 0.0, None)

  /** The downstream packet announcing the chunk-cache centre. */
  datatype ChunkCacheCenter = ChunkCacheCenter(chunkX: int, chunkZ: int)

  /** The upstream position packet the proxy writes for the local player. */
  datatype PlayerPositionPacket = PlayerPositionPacket(
    uniqueId: string, position: Vec3, viewDirection: Vec3, viewDirectionOffset: Vec3, zoneId: Option<string>)

  datatype PositionError = NoClientAccount

  /** `(int) f`: truncation toward zero, saturating at the int range. */
  function FloatToInt(f: Float): (r: int)
    ensures IsInt32(r)
    ensures -TWO_31 as real < f < TWO_31 as real ==>
              (0.0 <= f ==> r as real <= f < r as real + 1.0) && (f < 0.0 ==> r as real - 1.0 < f <= r as real)
    ensures f >= TWO_31 as real ==> r == INT32_MAX
    ensures f <= -TWO_31 as real ==> r == -TWO_31
  {
    if f >= TWO_31 as real then INT32_MAX
    else if f <= -TWO_31 as real then -TWO_31
    else if f >= 0.0 then f.Floor
    else -((-f).Floor)
  }

  /** `(int) f >> 4`: the arithmetic shift floors the division by 16. */
  function ChunkCoord(f: Float): (c: int)
    ensures 16 * c <= FloatToInt(f) < 16 * c + 16
  {
    FloatToInt(f) / 16
  }

  /** `updatePosition`: stores the coordinates and announces the new chunk-cache centre when
      none was announced yet or the chunk changed. */
  function UpdatePosition(t: Tracker, x: Float, y: Float, z: Float): (r: (Tracker, Option<ChunkCacheCenter>))
    ensures r.0.pos == Vec3(x, y, z) && r.0.yaw == t.yaw && r.0.pitch == t.pitch
    ensures r.0.lastChunk == Some((ChunkCoord(x), ChunkCoord(z)))
    ensures r.1.Some? <==> t.lastChunk != Some((ChunkCoord(x), ChunkCoord(z)))
    ensures r.1.Some? ==> r.1.value == ChunkCacheCenter(ChunkCoord(x), ChunkCoord(z))
  {
    var cx := ChunkCoord(x);
    var cz := ChunkCoord(z);
    var moved := t.lastChunk.None? || t.lastChunk.value.0 != cx || t.lastChunk.value.1 != cz;
    var t1 := t.(pos := Vec3(x, y, z), lastChunk := if moved then Some((cx, cz)) else t.lastChunk);
    (t1, if moved then Some(ChunkCacheCenter(cx, cz)) else None)
  }

  /** `updateRotation`: only the angles change. */
  function UpdateRotation(t: Tracker, yaw: Float, pitch: Float): (r: Tracker)
    ensures r.yaw == yaw && r.pitch == pitch
    ensures r.pos == t.pos && r.lastChunk == t.lastChunk
  {
    t.(yaw := yaw, pitch := pitch)
  }

  /** `writePlayerPosition`: the local player's unique id and position, a zero view direction,
      an eye-height offset of 1.8 and no zone. Dereferencing a missing client account fails. */
  function WritePlayerPosition(t: Tracker, client: Option<Account>): (r: Result<PlayerPositionPacket, PositionError>)
    ensures r.Ok? <==> client.Some?
    ensures r.Ok? ==> r.value.uniqueId == client.value.uniqueId && r.value.position == t.pos
    ensures r.Ok? ==> r.value.zoneId.None? && r.value.viewDirection == Vec3(0.0, 0.0, 0.0)
    ensures r.Ok? ==> r.value.viewDirectionOffset == Vec3(0.0, 1.8, 0.0)
  {
    match client
    case None => Err(NoClientAccount)
    case Some(a) => Ok(PlayerPositionPacket(a.uniqueId, t.pos, Vec3(0.0, 0.0, 0.0), Vec3(0.0, 1.8, 0.0), None))
  }

  /** The position report after a move carries the new coordinates. */
  lemma ReportAfterMove(t: Tracker, x: Float, y: Float, z: Float, a: Account)
    ensures WritePlayerPosition(UpdatePosition(t, x, y, z).0, Some(a)).value.position == Vec3(x, y, z)
  {
  }

  /** The report never carries the rotation: turning alone leaves it unchanged. */
  lemma ReportIgnoresRotation(t: Tracker, yaw: Float, pitch: Float, client: Option<Account>)
    ensures WritePlayerPosition(UpdateRotation(t, yaw, pitch), client) == WritePlayerPosition(t, client)
  {
  }

  /** The first update always announces a centre. */
  lemma FirstUpdateAnnounces(x: Float, y: Float, z: Float)
    ensures UpdatePosition(INITIAL, x, y, z).1 == Some(ChunkCacheCenter(ChunkCoord(x), ChunkCoord(z)))
  {
  }

  /** Repeating an update, or moving anywhere inside the same chunk, announces nothing. */
  lemma SameChunkIsQuiet(t: Tracker, x: Float, y: Float, z: Float, x2: Float, y2: Float, z2: Float)
    requires ChunkCoord(x2) == ChunkCoord(x) && ChunkCoord(z2) == ChunkCoord(z)
    ensures UpdatePosition(UpdatePosition(t, x, y, z).0, x2, y2, z2).1 == None
  {
  }

  /** Positions in [16c, 16c + 16) fall in chunk c, negative ones included: -0.5 truncates
      to 0 and so lies in chunk 0, while -16.5 truncates to -16 and lies in chunk -1. */
  lemma ChunkCoordExamples()
    ensures ChunkCoord(15.9) == 0 && ChunkCoord(16.0) == 1
    ensures ChunkCoord(-0.5) == 0 && ChunkCoord(-1.0) == -1
    ensures ChunkCoord(-16.5) == -1 && ChunkCoord(-17.0) == -2
  {
  }
}
