/** The packet dispatcher: every upstream (Cosmic Reach) packet and every downstream
    (Minecraft) packet the proxy handles, as a transition of the per-connection session that
    yields the packets to send. A handler that cancels its packet sends only the packets it
    created itself; otherwise the translated packet goes out after them. */
module Protocol {
  import opened Wrappers
  import opened BlockState
  import opened BlockPositionType
  import Bytes
  import Acc = Account
  import MD = MappingData
  import CB = ClientboundPackets
  import SB = ServerboundPackets
  import PS = ProtocolStorage
  import TS = TransactionStorage
  import ET = EntityTracker
  import PT = PositionTracker
  import CT = ChunkTracker
  import CST = ChunkSectionType

  /** The per-connection stores `init` attaches, plus the spawn point of the zone storage
      that arrives with the first zone packet. */
  datatype Session = Session(
    storage: PS.Storage,
    transactions: TS.Transactions,
    position: PT.Tracker,
    entities: ET.Tracker,
    chunks: CT.Tracker,
    zoneSpawn: Option<PT.Vec3>)

  /** `init`. */
  function Init(): (s: Session)
    ensures s.storage == PS.Default() && s.transactions.pending == map[] && s.transactions.next == 1
    ensures s.entities.ids == map[] && s.entities.client.None? && s.chunks.chunks == map[] && s.zoneSpawn.None?
  {
    Session(PS.Default(), TS.INITIAL, PT.INITIAL, ET.INITIAL, CT.INITIAL, None)
  }

  /** Every store keeps its own invariant. */
  predicate Valid(s: Session) {
    TS.Valid(s.transactions) && ET.Valid(s.entities) && CT.Valid(s.chunks)
  }

  lemma InitValid()
    ensures Valid(Init())
  {
    ET.InitialValid();
    TS.InitialValid();
  }

  /** A Java `UUID(most, least)`. */
  datatype Uuid = Uuid(most: int, least: int)

  /** The downstream UUID of a tracked player: `new UUID(0L, entityId)`. */
  function PlayerUuid(entityId: int): Uuid {
    Uuid(0, entityId)
  }

  /** The Minecraft packets the proxy sends to the client; fixed contents (registries,
      tags, login flags) are not spelled out. */
  datatype Downstream =
    | Ping(id: int)
    | RemoveEntities(entityIds: seq<int>)
    | SystemChat(text: string)
    /** A system chat whose text is `TextUtil.stringToNbt(null)`. */
    | NullSystemChat
    | ZoneAnnouncement(zoneId: string, spawn: PT.Vec3)
    | PlayerInfoRemove(uuids: seq<Uuid>)
    | PlayerInfoUpdate(uuid: Uuid, name: string)
    | AddEntity(entityId: int, uuid: Uuid)
    | TeleportEntity(entityId: int, position: PT.Vec3)
    | PlayerPosition(position: PT.Vec3)
    | SetChunkCacheCenter(chunkX: int, chunkZ: int)
    | BlockUpdate(blockPosition: BlockPosition, blockState: int)
    | GameProfile(uuid: Uuid, username: string)
    | Configuration
    | JoinGame(entityId: int)
    | TabList
    | LevelChunksLoadStart

  /** The Cosmic Reach packets the proxy sends to the server. */
  datatype Upstream =
    | TransactionAnswer(cosmicReachId: int)
    | LoginRequest(account: Acc.Account)
    | ChatMessage(text: string, uniqueId: Option<string>)
    | PositionReport(packet: PT.PlayerPositionPacket)

  function UpstreamKind(p: Upstream): SB.Serverbound {
    match p
    case TransactionAnswer(_) => SB.Transaction
    case LoginRequest(_) => SB.Login
    case ChatMessage(_, _) => SB.Message
    case PositionReport(_) => SB.PlayerPosition
  }

  datatype ProtocolError =
    | StorageFailure(storageError: PS.StorageError)
    | TransactionFailure(transactionError: TS.TransactionError)
    | EntityFailure(trackerError: ET.TrackerError)
    | PositionFailure(positionError: PT.PositionError)
    | BlockStateFailure(parseError: ParseError)
    | MissingAccount
    /** `new HashMap<>(count)` with a negative count. */
    | IllegalCapacity(count: int)
    | MissingZone
    | WrongBody

  /** One section of a chunk column packet, at chunk (x, z) and section height y. */
  datatype ColumnEntry = ColumnEntry(x: int, y: int, z: int, section: CST.Section)

  /** The decoded fields of an upstream packet; unique ids are nullable strings. */
  datatype ClientboundBody =
    | ProtocolSyncBody(count: int, entries: seq<(string, int)>)
    | TransactionBody(cosmicReachId: int)
    | DisconnectBody(uniqueId: Option<string>)
    | PlayerBody(account: Acc.Account, justJoined: bool)
    | MessageBody(text: Option<string>, senderId: Option<string>)
    | PlayerPositionBody(uniqueId: Option<string>, position: PT.Vec3, viewDirection: PT.Vec3)
    | ZoneBody(zoneId: string, spawn: PT.Vec3)
    | ChunkColumnBody(sections: seq<ColumnEntry>)
    | BlockReplaceBody(blockState: string, blockPosition: BlockPosition)
    | PlaySound2DBody | PlaySound3DBody | ContainerSyncBody | BlockEntityContainerSyncBody
    | BlockEntityScreenBody | BlockEntityDataBody

  function BodyKind(b: ClientboundBody): CB.Clientbound {
    match b
    case ProtocolSyncBody(_, _) => CB.ProtocolSync
    case TransactionBody(_) => CB.Transaction
    case DisconnectBody(_) => CB.Disconnect
    case PlayerBody(_, _) => CB.Player
    case MessageBody(_, _) => CB.Message
    case PlayerPositionBody(_, _, _) => CB.PlayerPosition
    case ZoneBody(_, _) => CB.Zone
    case ChunkColumnBody(_) => CB.ChunkColumn
    case BlockReplaceBody(_, _) => CB.BlockReplace
    case PlaySound2DBody => CB.PlaySound2D
    case PlaySound3DBody => CB.PlaySound3D
    case ContainerSyncBody => CB.ContainerSync
    case BlockEntityContainerSyncBody => CB.BlockEntityContainerSync
    case BlockEntityScreenBody => CB.BlockEntityScreen
    case BlockEntityDataBody => CB.BlockEntityData
  }

  /** The result of a clientbound handler: the packets it sent itself, then the translated
      packet unless it cancelled. */
  datatype Handled = Handled(session: Session, extra: seq<Downstream>, packet: Option<Downstream>)

  function Cancelled(s: Session): Handled {
    Handled(s, [], None)
  }

  /** The packets that reach the client, in order. */
  function Sent(h: Handled): seq<Downstream> {
    h.extra + (if h.packet.Some? then [h.packet.value] else [])
  }

  // ----- PROTOCOL_SYNC -----

  /** The name-to-id map the announced (name, id) pairs fill in order: a later pair with the
      same name replaces the earlier one. */
  function Mapping(entries: seq<(string, int)>): (m: map<string, int>)
    ensures forall name :: name in m <==> exists i :: 0 <= i < |entries| && entries[i].0 == name
    decreases |entries|
  {
    if |entries| == 0 then map[]
    else
      var rest := Mapping(entries[1..]);
      assert forall i :: 1 <= i < |entries| ==> entries[1..][i - 1] == entries[i];
      map[entries[0].0 := entries[0].1] + rest
  }

  /** The id kept for a name is the one of its last pair. */
  lemma {:induction false} MappingKeepsLast(entries: seq<(string, int)>, i: nat)
    requires i < |entries|
    requires forall j :: i < j < |entries| ==> entries[j].0 != entries[i].0
    ensures entries[i].0 in Mapping(entries) && Mapping(entries)[entries[i].0] == entries[i].1
    decreases i
  {
    var rest := entries[1..];
    if i == 0 {
      assert entries[0].0 !in Mapping(rest);
    } else {
      forall j | i - 1 < j < |rest| ensures rest[j].0 != rest[i - 1].0 {
        assert rest[j] == entries[j + 1];
      }
      MappingKeepsLast(rest, i - 1);
    }
  }

  /** The ids of `Mapping(entries)`, one per name: a pair whose name comes again later is
      skipped. */
  function MappedIds(entries: seq<(string, int)>): (ids: seq<int>)
    ensures forall id :: id in ids <==> id in Mapping(entries).Values
    decreases |entries|
  {
    if |entries| == 0 then []
    else
      var rest := entries[1..];
      var tail := MappedIds(rest);
      var m := Mapping(rest);
      var head := if entries[0].0 in m then [] else [entries[0].1];
      assert Mapping(entries) == map[entries[0].0 := entries[0].1] + m;
      MappedIdsStep(entries[0].0, entries[0].1, m);
      head + tail
  }

  lemma MappedIdsStep(k: string, v: int, m: map<string, int>)
    ensures k in m ==> (map[k := v] + m).Values == m.Values
    ensures k !in m ==> (map[k := v] + m).Values == m.Values + {v}
  {
    var u := map[k := v] + m;
    forall x ensures x in u.Values <==> x in m.Values || (k !in m && x == v) {
      if x in u.Values {
        var j :| j in u && u[j] == x;
        if j in m {
          assert m[j] == x;
        }
      }
      if x in m.Values {
        var j :| j in m && m[j] == x;
        assert u[j] == x;
      }
      if k !in m && x == v {
        assert u[k] == v;
      }
    }
  }

  /** `PROTOCOL_SYNC`: cancelled; the announced table replaces the packet id tables. The
      table is built from the id of every name's last pair. A negative definition count
      fails when the name map is allocated, before any pair is read. */
  function OnProtocolSync(s: Session, count: int, entries: seq<(string, int)>): (r: Result<Handled, ProtocolError>)
    ensures count < 0 ==> r == Err(IllegalCapacity(count))
    ensures r.Ok? <==> count >= 0 && PS.Synced(MappedIds(entries)).Ok?
    ensures r.Ok? ==> r.value == Cancelled(s.(storage := PS.Synced(MappedIds(entries)).value))
  {
    if count < 0 then Err(IllegalCapacity(count))
    else
    match PS.Synced(MappedIds(entries))
    case Err(e) => Err(StorageFailure(e))
    case Ok(storage) => Ok(Cancelled(s.(storage := storage)))
  }

  /** The installed tables do not depend on the order the map yields its ids in: any list
      of exactly the mapped ids builds the same tables. */
  lemma ProtocolSyncAnyOrder(s: Session, entries: seq<(string, int)>, ids: seq<int>)
    requires forall id :: id in ids <==> id in Mapping(entries).Values
    requires PS.Synced(ids).Ok?
    ensures OnProtocolSync(s, |entries|, entries) == Ok(Cancelled(s.(storage := PS.Synced(ids).value)))
  {
    SameIdsSameTables(MappedIds(entries), ids);
  }

  lemma SameIdsSameTables(mapped: seq<int>, ids: seq<int>)
    requires forall id :: id in mapped <==> id in ids
    requires PS.Synced(ids).Ok?
    ensures PS.Synced(mapped) == PS.Synced(ids)
  {
    PS.SyncedOkWhenCovered(mapped, ids);
    PS.SyncedOrderIrrelevant(mapped, ids);
  }

  // ----- TRANSACTION / PONG -----

  /** `TRANSACTION`: parks the upstream id and becomes a ping with a fresh id. */
  function OnTransaction(s: Session, cosmicReachId: int): (r: Handled)
    ensures r.extra == [] && r.packet == Some(Ping(s.transactions.next))
    ensures r.session.transactions.pending == s.transactions.pending[s.transactions.next := cosmicReachId]
    ensures r.session == s.(transactions := r.session.transactions)
  {
    var (id, t) := TS.Create(s.transactions, cosmicReachId);
    Handled(s.(transactions := t), [], Some(Ping(id)))
  }

  // ----- DISCONNECT -----

  const LEFT_SUFFIX: string := " has left the game."
  const JOINED_SUFFIX: string := " has joined the game."
  const CHAT_SEPARATOR: string := "> "

  /** `DISCONNECT`: cancelled for an untracked (or null) unique id; otherwise announces the
      departure, removes the player from the tab list and the world, and forgets it. */
  function OnDisconnect(s: Session, uniqueId: Option<string>): (r: Result<Handled, ProtocolError>)
    ensures uniqueId.None? || !ET.HasPlayer(s.entities, uniqueId.value) ==> r == Ok(Cancelled(s))
    ensures ET.Valid(s.entities) && uniqueId.Some? && ET.HasPlayer(s.entities, uniqueId.value) ==>
              && r.Ok?
              && var eid := s.entities.ids[uniqueId.value];
              && r.value.packet == Some(RemoveEntities([eid]))
              && r.value.extra == [SystemChat(Acc.DisplayName(s.entities.accounts[uniqueId.value]) + LEFT_SUFFIX),
                                   PlayerInfoRemove([PlayerUuid(eid)])]
              && r.value.session == s.(entities := ET.RemovePlayer(s.entities, uniqueId.value))
              && !ET.HasPlayer(r.value.session.entities, uniqueId.value)
  {
    if uniqueId.None? || !ET.HasPlayer(s.entities, uniqueId.value) then Ok(Cancelled(s))
    else
      var u := uniqueId.value;
      var eid := s.entities.ids[u];
      match ET.AccountOf(s.entities, u)
      case None => Err(MissingAccount)
      case Some(account) =>
        Ok(Handled(s.(entities := ET.RemovePlayer(s.entities, u)),
                   [SystemChat(Acc.DisplayName(account) + LEFT_SUFFIX), PlayerInfoRemove([PlayerUuid(eid)])],
                   Some(RemoveEntities([eid]))))
  }

  // ----- PLAYER -----

  /** `PLAYER`: cancelled for an already tracked player, so no entity id is spent on it;
      otherwise announces a join when asked to, tracks the player under the next entity id
      and adds it to the tab list and the world. */
  function OnPlayer(s: Session, account: Acc.Account, justJoined: bool): (r: Result<Handled, ProtocolError>)
    ensures ET.HasPlayer(s.entities, account.uniqueId) ==> r == Ok(Cancelled(s))
    ensures !ET.HasPlayer(s.entities, account.uniqueId) && ET.Valid(s.entities) ==>
              && r.Ok?
              && var eid := s.entities.next;
              && r.value.packet == Some(AddEntity(eid, PlayerUuid(eid)))
              && r.value.extra == (if justJoined then [SystemChat(Acc.DisplayName(account) + JOINED_SUFFIX)] else [])
                                  + [PlayerInfoUpdate(PlayerUuid(eid), Acc.DisplayName(account))]
              && r.value.session.entities.ids == s.entities.ids[account.uniqueId := eid]
              && r.value.session.entities.accounts == s.entities.accounts[account.uniqueId := account]
              && r.value.session.entities.next == Bytes.Wrap32(eid + 1)
              && r.value.session.entities.client == s.entities.client
              && r.value.session == s.(entities := r.value.session.entities)
  {
    if ET.HasPlayer(s.entities, account.uniqueId) then Ok(Cancelled(s))
    else
      var joined := if justJoined then [SystemChat(Acc.DisplayName(account) + JOINED_SUFFIX)] else [];
      var (eid, entities) :- ET.AddPlayer(s.entities, account).MapFailure(e => EntityFailure(e));
      Ok(Handled(s.(entities := entities), joined + [PlayerInfoUpdate(PlayerUuid(eid), Acc.DisplayName(account))],
                 Some(AddEntity(eid, PlayerUuid(eid)))))
  }

  // ----- MESSAGE -----

  /** Java string concatenation: a null string is written as `null`. */
  function Concatenated(text: Option<string>): (r: string)
    ensures text.Some? ==> r == text.value
    ensures text.None? ==> r == NULL_TEXT
  {
    match text
    case Some(t) => t
    case None => NULL_TEXT
  }

  const NULL_TEXT: string := "null"

  /** `MESSAGE`: the chat text, prefixed with the sender's display name exactly when the
      sender is a tracked player. The text is nullable: behind a name it reads `null`,
      on its own it is handed to `stringToNbt` as null. */
  function OnMessage(s: Session, text: Option<string>, senderId: Option<string>): (r: Result<Handled, ProtocolError>)
    ensures ET.Valid(s.entities) ==> r.Ok? && r.value.session == s && r.value.extra == []
    ensures r.Ok? ==> r.value.packet.Some? && (r.value.packet.value.SystemChat? || r.value.packet.value.NullSystemChat?)
    ensures ET.Valid(s.entities) ==>
              var chat := r.value.packet.value;
              if senderId.Some? && ET.HasPlayer(s.entities, senderId.value)
              then chat == SystemChat(Acc.DisplayName(s.entities.accounts[senderId.value]) + CHAT_SEPARATOR + Concatenated(text))
              else if text.Some? then chat == SystemChat(text.value)
              else chat == NullSystemChat
  {
    if senderId.Some? && ET.HasPlayer(s.entities, senderId.value) then
      match ET.AccountOf(s.entities, senderId.value)
      case None => Err(MissingAccount)
      case Some(account) => Ok(Handled(s, [], Some(SystemChat(Acc.DisplayName(account) + CHAT_SEPARATOR + Concatenated(text)))))
    else if text.Some? then Ok(Handled(s, [], Some(SystemChat(text.value))))
    else Ok(Handled(s, [], Some(NullSystemChat)))
  }

  /** A null message from a tracked player reads `name> null`. */
  lemma NullMessageFromPlayer(s: Session, u: string)
    requires ET.Valid(s.entities) && ET.HasPlayer(s.entities, u)
    ensures OnMessage(s, None, Some(u)).value.packet
            == Some(SystemChat(Acc.DisplayName(s.entities.accounts[u]) + "> null"))
  {
    assert CHAT_SEPARATOR + Concatenated(None) == "> null";
    assert Acc.DisplayName(s.entities.accounts[u]) + CHAT_SEPARATOR + Concatenated(None)
        == Acc.DisplayName(s.entities.accounts[u]) + "> null";
  }

  // ----- PLAYER_POSITION -----

  /** `PLAYER_POSITION`: cancelled for an untracked player; the local player's own position
      moves the downstream player and the position tracker; any other player's entity is
      teleported. */
  function OnPlayerPosition(s: Session, uniqueId: Option<string>, position: PT.Vec3): (r: Result<Handled, ProtocolError>)
    ensures uniqueId.None? || !ET.HasPlayer(s.entities, uniqueId.value) ==> r == Ok(Cancelled(s))
    ensures r.Err? <==> uniqueId.Some? && ET.HasPlayer(s.entities, uniqueId.value) && s.entities.client.None?
    ensures r.Ok? && uniqueId.Some? && ET.HasPlayer(s.entities, uniqueId.value) ==>
              var u := uniqueId.value;
              var (moved, center) := PT.UpdatePosition(s.position, position.x, position.y, position.z);
              if s.entities.client.value.uniqueId == u then
                && r.value.packet == Some(PlayerPosition(position))
                && r.value.session == s.(position := moved)
                && r.value.extra == (if center.Some? then [SetChunkCacheCenter(center.value.chunkX, center.value.chunkZ)] else [])
              else
                && r.value.packet == Some(TeleportEntity(s.entities.ids[u], position))
                && r.value.session == s && r.value.extra == []
  {
    if uniqueId.None? || !ET.HasPlayer(s.entities, uniqueId.value) then Ok(Cancelled(s))
    else
      var u := uniqueId.value;
      match s.entities.client
      case None => Err(MissingAccount)
      case Some(client) =>
        if client.uniqueId == u then
          var (moved, center) := PT.UpdatePosition(s.position, position.x, position.y, position.z);
          var extra := if center.Some? then [SetChunkCacheCenter(center.value.chunkX, center.value.chunkZ)] else [];
          Ok(Handled(s.(position := moved), extra, Some(PlayerPosition(position))))
        else
          Ok(Handled(s, [], Some(TeleportEntity(s.entities.ids[u], position))))
  }

  // ----- ZONE -----

  /** `ZONE`: stores the zone and tells the player where it spawned. */
  function OnZone(s: Session, zoneId: string, spawn: PT.Vec3): (r: Handled)
    ensures r.session == s.(zoneSpawn := Some(spawn)) && r.extra == []
    ensures r.packet == Some(ZoneAnnouncement(zoneId, spawn))
  {
    Handled(s.(zoneSpawn := Some(spawn)), [], Some(ZoneAnnouncement(zoneId, spawn)))
  }

  // ----- CHUNK_COLUMN -----

  function ColumnPos(e: ColumnEntry): CT.ChunkPos {
    CT.ChunkPos(e.x, e.z)
  }

  /** The chunks a column packet touches. */
  function ColumnKeys(entries: seq<ColumnEntry>): (keys: set<CT.ChunkPos>)
    ensures forall i :: 0 <= i < |entries| ==> ColumnPos(entries[i]) in keys
    ensures forall p :: p in keys ==> exists i :: 0 <= i < |entries| && ColumnPos(entries[i]) == p
  {
    if |entries| == 0 then {}
    else
      var init := entries[..|entries| - 1];
      assert forall i :: 0 <= i < |init| ==> init[i] == entries[i];
      ColumnKeys(init) + {ColumnPos(entries[|entries| - 1])}
  }

  /** The chunk tracker after merging the entries in order. */
  function MergeAll(t: CT.Tracker, entries: seq<ColumnEntry>): (r: CT.Tracker)
    ensures r.dirty == t.dirty + ColumnKeys(entries)
  {
    if |entries| == 0 then t
    else
      var init := entries[..|entries| - 1];
      var e := entries[|entries| - 1];
      CT.Merge(MergeAll(t, init), e.x, e.y, e.z, e.section)
  }

  /** The entry carries the section for slot y of chunk (x, z). */
  predicate Hits(e: ColumnEntry, x: int, y: int, z: int) {
    e.x == x && e.y == y && e.z == z
  }

  /** Merging one more entry changes only the slot that entry names. */
  lemma MergeAllStep(t: CT.Tracker, entries: seq<ColumnEntry>, x: int, y: int, z: int)
    requires |entries| > 0
    ensures var e := entries[|entries| - 1];
            CT.GetSection(MergeAll(t, entries), x, y, z)
            == if Hits(e, x, y, z) then Some(e.section) else CT.GetSection(MergeAll(t, entries[..|entries| - 1]), x, y, z)
  {
    var e := entries[|entries| - 1];
    CT.MergeGetSection(MergeAll(t, entries[..|entries| - 1]), e.x, e.y, e.z, e.section, x, y, z);
  }

  /** After a column packet, a slot the packet does not mention is as before. */
  lemma {:induction false} MergeAllUntouched(t: CT.Tracker, entries: seq<ColumnEntry>, x: int, y: int, z: int)
    requires forall i :: 0 <= i < |entries| ==> !Hits(entries[i], x, y, z)
    ensures CT.GetSection(MergeAll(t, entries), x, y, z) == CT.GetSection(t, x, y, z)
  {
    if |entries| > 0 {
      var init := entries[..|entries| - 1];
      assert !Hits(entries[|entries| - 1], x, y, z);
      assert forall i :: 0 <= i < |init| ==> init[i] == entries[i];
      MergeAllUntouched(t, init, x, y, z);
      MergeAllStep(t, entries, x, y, z);
    }
  }

  /** After a column packet, a slot it mentions holds the section of the last entry for it. */
  lemma {:induction false} MergeAllLastWins(t: CT.Tracker, entries: seq<ColumnEntry>, i: nat, x: int, y: int, z: int)
    requires i < |entries| && Hits(entries[i], x, y, z)
    requires forall j :: i < j < |entries| ==> !Hits(entries[j], x, y, z)
    ensures CT.GetSection(MergeAll(t, entries), x, y, z) == Some(entries[i].section)
  {
    var init := entries[..|entries| - 1];
    var last := entries[|entries| - 1];
    MergeAllStep(t, entries, x, y, z);
    if i == |entries| - 1 {
      assert last == entries[i];
    } else {
      assert !Hits(last, x, y, z);
      assert init[i] == entries[i];
      forall j | i < j < |init| ensures !Hits(init[j], x, y, z) {
        assert init[j] == entries[j];
      }
      MergeAllLastWins(t, init, i, x, y, z);
      assert CT.GetSection(MergeAll(t, entries), x, y, z) == CT.GetSection(MergeAll(t, init), x, y, z);
    }
  }

  /** Merging sections from the save format keeps the chunk tracker valid. */
  lemma {:induction false} MergeAllPreservesValid(t: CT.Tracker, entries: seq<ColumnEntry>)
    requires CT.Valid(t)
    requires forall i :: 0 <= i < |entries| ==> CT.CompleteSection(entries[i].section)
    ensures CT.Valid(MergeAll(t, entries))
  {
    if |entries| > 0 {
      var init := entries[..|entries| - 1];
      var e := entries[|entries| - 1];
      assert forall i :: 0 <= i < |init| ==> init[i] == entries[i];
      MergeAllPreservesValid(t, init);
      CT.MergePreservesValid(MergeAll(t, init), e.x, e.y, e.z, e.section);
    }
  }

  /** `CHUNK_COLUMN`: cancelled; every section is merged into the chunk tracker in order. */
  function OnChunkColumn(s: Session, entries: seq<ColumnEntry>): (r: Handled)
    ensures r == Cancelled(s.(chunks := MergeAll(s.chunks, entries)))
  {
    Cancelled(s.(chunks := MergeAll(s.chunks, entries)))
  }

  // ----- BLOCK_REPLACE -----

  /** `BLOCK_REPLACE`: updates the cached chunk and becomes a block update with the
      downstream id the chunk tracker reports. */
  function OnBlockReplace(s: Session, catalog: MD.Catalog, blockState: string, position: BlockPosition)
    : (r: Result<Handled, ProtocolError>)
    requires CT.WellFormed(s.chunks)
    ensures r.Ok? <==> CT.HandleBlockChange(s.chunks, catalog, position, blockState).Ok?
    ensures r.Ok? ==>
              var (id, chunks) := CT.HandleBlockChange(s.chunks, catalog, position, blockState).value;
              r.value == Handled(s.(chunks := chunks), [], Some(BlockUpdate(position, id)))
  {
    match CT.HandleBlockChange(s.chunks, catalog, position, blockState)
    case Err(e) => Err(BlockStateFailure(e))
    case Ok((id, chunks)) => Ok(Handled(s.(chunks := chunks), [], Some(BlockUpdate(position, id))))
  }

  // ----- dispatch -----

  /** The handler registered for the packet's kind. */
  function HandleClientbound(s: Session, catalog: MD.Catalog, body: ClientboundBody): (r: Result<Handled, ProtocolError>)
    requires CT.WellFormed(s.chunks)
    ensures r.Ok? && !body.ProtocolSyncBody? ==> r.value.session.storage == s.storage
    ensures r.Ok? && !body.TransactionBody? ==> r.value.session.transactions == s.transactions
    ensures r.Ok? && !body.DisconnectBody? && !body.PlayerBody? ==> r.value.session.entities == s.entities
    ensures r.Ok? && !body.ChunkColumnBody? && !body.BlockReplaceBody? ==> r.value.session.chunks == s.chunks
    ensures r.Ok? && !body.PlayerPositionBody? ==> r.value.session.position == s.position
    ensures r.Ok? && !body.ZoneBody? ==> r.value.session.zoneSpawn == s.zoneSpawn
  {
    match body
    case ProtocolSyncBody(count, entries) => OnProtocolSync(s, count, entries)
    case TransactionBody(id) => Ok(OnTransaction(s, id))
    case DisconnectBody(u) => OnDisconnect(s, u)
    case PlayerBody(account, justJoined) => OnPlayer(s, account, justJoined)
    case MessageBody(text, u) => OnMessage(s, text, u)
    case PlayerPositionBody(u, position, _) => OnPlayerPosition(s, u, position)
    case ZoneBody(zoneId, spawn) => Ok(OnZone(s, zoneId, spawn))
    case ChunkColumnBody(entries) => Ok(OnChunkColumn(s, entries))
    case BlockReplaceBody(blockState, position) => OnBlockReplace(s, catalog, blockState, position)
    case _ => Ok(Cancelled(s))
  }

  /** `transform` for an upstream packet: the numeric id is resolved through the session's
      tables before any handler runs, and the fields are read as that kind's. */
  function TransformClientbound(s: Session, catalog: MD.Catalog, id: int, body: ClientboundBody)
    : (r: Result<Handled, ProtocolError>)
    requires CT.WellFormed(s.chunks)
    ensures PS.ClientboundPacket(s.storage, id).Err? ==> r == Err(StorageFailure(NoClientbound(id)))
    ensures PS.ClientboundPacket(s.storage, id).Ok? ==>
              if PS.ClientboundPacket(s.storage, id).value != BodyKind(body) then r == Err(WrongBody)
              else r == HandleClientbound(s, catalog, body)
  {
    var kind :- PS.ClientboundPacket(s.storage, id).MapFailure(e => StorageFailure(e));
    if kind != BodyKind(body) then Err(WrongBody) else HandleClientbound(s, catalog, body)
  }

  function NoClientbound(id: int): PS.StorageError {
    PS.NoClientboundPacket(id)
  }

  /** Sound and container packets are dropped without touching the session. */
  lemma IgnoredPacketsCancelled(s: Session, catalog: MD.Catalog, body: ClientboundBody)
    requires CT.WellFormed(s.chunks)
    requires body.PlaySound2DBody? || body.PlaySound3DBody? || body.ContainerSyncBody?
          || body.BlockEntityContainerSyncBody? || body.BlockEntityScreenBody? || body.BlockEntityDataBody?
    ensures HandleClientbound(s, catalog, body) == Ok(Cancelled(s))
  {
  }

  /** Every clientbound handler keeps the session valid, given sections read from the save
      format. */
  lemma ClientboundPreservesValid(s: Session, catalog: MD.Catalog, body: ClientboundBody)
    requires Valid(s) && s.transactions.next < Bytes.INT32_MAX && s.entities.next < Bytes.INT32_MAX
    requires body.ChunkColumnBody? ==> forall i :: 0 <= i < |body.sections| ==> CT.CompleteSection(body.sections[i].section)
    requires HandleClientbound(s, catalog, body).Ok?
    ensures Valid(HandleClientbound(s, catalog, body).value.session)
  {
    match body
    case ProtocolSyncBody(_, _) =>
    case TransactionBody(id) =>
      TransactionKeepsValid(s, id);
    case DisconnectBody(u) =>
      DisconnectKeepsValid(s, u);
    case PlayerBody(account, justJoined) =>
      PlayerKeepsValid(s, account, justJoined);
    case MessageBody(text, u) =>
    case PlayerPositionBody(u, position, _) =>
      PlayerPositionKeepsValid(s, u, position);
    case ZoneBody(zoneId, spawn) =>
    case ChunkColumnBody(entries) =>
      MergeAllPreservesValid(s.chunks, entries);
    case BlockReplaceBody(blockState, position) =>
      BlockReplaceKeepsValid(s, catalog, blockState, position);
    case _ =>
  }

  lemma TransactionKeepsValid(s: Session, id: int)
    requires Valid(s) && s.transactions.next < Bytes.INT32_MAX
    ensures Valid(OnTransaction(s, id).session)
  {
    TS.CreatePreservesValid(s.transactions, id);
  }

  lemma DisconnectKeepsValid(s: Session, u: Option<string>)
    requires Valid(s) && OnDisconnect(s, u).Ok?
    ensures Valid(OnDisconnect(s, u).value.session)
  {
    if u.Some? && ET.HasPlayer(s.entities, u.value) {
      ET.RemovePlayerPreservesValid(s.entities, u.value);
    }
  }

  lemma PlayerKeepsValid(s: Session, account: Acc.Account, justJoined: bool)
    requires Valid(s) && s.entities.next < Bytes.INT32_MAX && OnPlayer(s, account, justJoined).Ok?
    ensures Valid(OnPlayer(s, account, justJoined).value.session)
  {
    if !ET.HasPlayer(s.entities, account.uniqueId) {
      ET.AddPlayerPreservesValid(s.entities, account);
    }
  }

  lemma PlayerPositionKeepsValid(s: Session, u: Option<string>, position: PT.Vec3)
    requires Valid(s) && OnPlayerPosition(s, u, position).Ok?
    ensures Valid(OnPlayerPosition(s, u, position).value.session)
  {
  }

  lemma BlockReplaceKeepsValid(s: Session, catalog: MD.Catalog, blockState: string, position: BlockPosition)
    requires Valid(s) && OnBlockReplace(s, catalog, blockState, position).Ok?
    ensures Valid(OnBlockReplace(s, catalog, blockState, position).value.session)
  {
    CT.BlockChangePreservesValid(s.chunks, catalog, position, blockState);
  }

  // ----- serverbound -----

  /** The downstream packets the proxy translates; every other one is cancelled. */
  datatype ServerboundBody =
    | Hello(username: string, uuid: Uuid, random: int)
    | Chat(message: string)
    | ChatCommand(command: string)
    | MovePlayerPos(x: PT.Float, y: PT.Float, z: PT.Float)
    | MovePlayerPosRot(x: PT.Float, y: PT.Float, z: PT.Float, yaw: PT.Float, pitch: PT.Float)
    | MovePlayerRot(yaw: PT.Float, pitch: PT.Float)
    | Pong(id: int)
    | Unmapped

  /** The result of a serverbound handler: the packets sent to the client, and the packet
      for the server unless the handler cancelled. */
  datatype Relayed = Relayed(session: Session, toClient: seq<Downstream>, toServer: Option<Upstream>)

  const RESPAWN_COMMAND: string := "respawn"
  const LOGIN_SPAWN: PT.Vec3 := PT.Vec3(0.0, 300.0, 0.0)

  /** `HELLO`: creates the offline account (from the given random number), makes it the
      local player, tracks it, logs in upstream and walks the client through login,
      configuration and the first play packets. */
  function OnHello(s: Session, username: string, uuid: Uuid, random: int): (r: Result<Relayed, ProtocolError>)
    requires 0 <= random < Acc.LONG_MAX
    ensures var account := Acc.Create(username, random);
            var entities := ET.SetClient(s.entities, Some(account));
            && (r.Ok? <==> ET.AddPlayer(entities, account).Ok?)
            && (r.Ok? ==>
                  && r.value.toServer == Some(LoginRequest(account))
                  && r.value.session.entities.client == Some(account)
                  && r.value.session.entities.ids == s.entities.ids[account.uniqueId := s.entities.next]
                  && r.value.session.entities.accounts == s.entities.accounts[account.uniqueId := account]
                  && r.value.session == s.(entities := r.value.session.entities)
                  && r.value.toClient == [GameProfile(uuid, username), Configuration, JoinGame(s.entities.next), TabList,
                                          PlayerInfoUpdate(uuid, username), PlayerPosition(LOGIN_SPAWN), LevelChunksLoadStart])
  {
    var account := Acc.Create(username, random);
    var entities := ET.SetClient(s.entities, Some(account));
    var (eid, entities') :- ET.AddPlayer(entities, account).MapFailure(e => EntityFailure(e));
    Ok(Relayed(s.(entities := entities'),
               [GameProfile(uuid, username), Configuration, JoinGame(eid), TabList,
                PlayerInfoUpdate(uuid, username), PlayerPosition(LOGIN_SPAWN), LevelChunksLoadStart],
               Some(LoginRequest(account))))
  }

  /** `CHAT`: forwards the message with a null sender and echoes it locally, prefixed with
      the local player's display name. */
  function OnChat(s: Session, message: string): (r: Result<Relayed, ProtocolError>)
    ensures r.Ok? <==> s.entities.client.Some?
    ensures r.Ok? ==> r.value.session == s
                      && r.value.toServer == Some(ChatMessage(message, None))
                      && r.value.toClient == [SystemChat(Acc.DisplayName(s.entities.client.value) + CHAT_SEPARATOR + message)]
  {
    match s.entities.client
    case None => Err(MissingAccount)
    case Some(client) =>
      Ok(Relayed(s, [SystemChat(Acc.DisplayName(client) + CHAT_SEPARATOR + message)], Some(ChatMessage(message, None))))
  }

  /** `CHAT_COMMAND`: cancelled; `respawn` moves the player to the zone's spawn point. */
  function OnChatCommand(s: Session, command: string): (r: Result<Relayed, ProtocolError>)
    ensures command != RESPAWN_COMMAND ==> r == Ok(Relayed(s, [], None))
    ensures command == RESPAWN_COMMAND ==>
              (r.Ok? <==> s.zoneSpawn.Some?)
              && (r.Ok? ==> r.value == Relayed(s, [PlayerPosition(s.zoneSpawn.value)], None))
  {
    if command != RESPAWN_COMMAND then Ok(Relayed(s, [], None))
    else if s.zoneSpawn.None? then Err(MissingZone)
    else Ok(Relayed(s, [PlayerPosition(s.zoneSpawn.value)], None))
  }

  /** The position report for the server after the tracker changed, plus the chunk-cache
      centre the tracker announced. */
  function Report(s: Session, tracker: PT.Tracker, center: Option<PT.ChunkCacheCenter>): (r: Result<Relayed, ProtocolError>)
    ensures r.Ok? <==> s.entities.client.Some?
    ensures r.Ok? ==> r.value.session == s.(position := tracker)
                      && r.value.toServer == Some(PositionReport(PT.WritePlayerPosition(tracker, s.entities.client).value))
                      && r.value.toClient == if center.Some? then [SetChunkCacheCenter(center.value.chunkX, center.value.chunkZ)] else []
  {
    var toClient := if center.Some? then [SetChunkCacheCenter(center.value.chunkX, center.value.chunkZ)] else [];
    var packet :- PT.WritePlayerPosition(tracker, s.entities.client).MapFailure(e => PositionFailure(e));
    Ok(Relayed(s.(position := tracker), toClient, Some(PositionReport(packet))))
  }

  /** `PONG`: answers the parked transaction and forgets it. */
  function OnPong(s: Session, id: int): (r: Result<Relayed, ProtocolError>)
    ensures r.Ok? <==> id in s.transactions.pending
    ensures r.Ok? ==> r.value.toServer == Some(TransactionAnswer(s.transactions.pending[id]))
                      && r.value.toClient == []
                      && r.value.session == s.(transactions := TS.GetAndRemove(s.transactions, id).value.1)
  {
    var (cosmicReachId, t) :- TS.GetAndRemove(s.transactions, id).MapFailure(e => TransactionFailure(e));
    Ok(Relayed(s.(transactions := t), [], Some(TransactionAnswer(cosmicReachId))))
  }

  function HandleServerbound(s: Session, body: ServerboundBody): (r: Result<Relayed, ProtocolError>)
    requires body.Hello? ==> 0 <= body.random < Acc.LONG_MAX
    ensures r.Ok? ==> r.value.session.storage == s.storage && r.value.session.chunks == s.chunks
    ensures r.Ok? ==> r.value.session.zoneSpawn == s.zoneSpawn
    ensures r.Ok? && !body.Pong? ==> r.value.session.transactions == s.transactions
    ensures r.Ok? && !body.Hello? ==> r.value.session.entities == s.entities
    ensures r.Ok? && (body.Hello? || body.Chat? || body.ChatCommand? || body.Pong? || body.Unmapped?) ==>
              r.value.session.position == s.position
  {
    match body
    case Hello(username, uuid, random) => OnHello(s, username, uuid, random)
    case Chat(message) => OnChat(s, message)
    case ChatCommand(command) => OnChatCommand(s, command)
    case MovePlayerPos(x, y, z) =>
      var (tracker, center) := PT.UpdatePosition(s.position, x, y, z);
      Report(s, tracker, center)
    case MovePlayerPosRot(x, y, z, yaw, pitch) =>
      var (tracker, center) := PT.UpdatePosition(s.position, x, y, z);
      Report(s, PT.UpdateRotation(tracker, yaw, pitch), center)
    case MovePlayerRot(yaw, pitch) => Report(s, PT.UpdateRotation(s.position, yaw, pitch), None)
    case Pong(id) => OnPong(s, id)
    case Unmapped => Ok(Relayed(s, [], None))
  }

  /** Every serverbound handler keeps every store's invariant: the hello handler tracks the
      new account under a fresh entity id, and a pong forgets only the answered ping. */
  lemma ServerboundPreservesValid(s: Session, body: ServerboundBody)
    requires body.Hello? ==> 0 <= body.random < Acc.LONG_MAX
    requires Valid(s) && s.entities.next < Bytes.INT32_MAX
    requires HandleServerbound(s, body).Ok?
    ensures Valid(HandleServerbound(s, body).value.session)
  {
    match body
    case Hello(username, uuid, random) =>
      HelloKeepsValid(s, username, uuid, random);
    case Pong(id) =>
      PongKeepsValid(s, id);
    case _ =>
  }

  lemma HelloKeepsValid(s: Session, username: string, uuid: Uuid, random: int)
    requires 0 <= random < Acc.LONG_MAX
    requires Valid(s) && s.entities.next < Bytes.INT32_MAX
    ensures OnHello(s, username, uuid, random).Ok?
    ensures Valid(OnHello(s, username, uuid, random).value.session)
  {
    var account := Acc.Create(username, random);
    ET.AddPlayerPreservesValid(ET.SetClient(s.entities, Some(account)), account);
  }

  lemma PongKeepsValid(s: Session, id: int)
    requires Valid(s) && OnPong(s, id).Ok?
    ensures Valid(OnPong(s, id).value.session)
  {
    var t := TS.GetAndRemove(s.transactions, id).value.1;
    assert t.pending == s.transactions.pending - {id};
  }

  /** `transform` for a downstream packet: the handler runs first, then the translated
      packet is given the id its kind has in the tables the session held on entry. */
  function TransformServerbound(s: Session, body: ServerboundBody): (r: Result<(Relayed, Option<int>), ProtocolError>)
    requires body.Hello? ==> 0 <= body.random < Acc.LONG_MAX
    ensures HandleServerbound(s, body).Err? ==> r.Err?
    ensures HandleServerbound(s, body).Ok? ==>
              var h := HandleServerbound(s, body).value;
              if h.toServer.None? then r == Ok((h, None))
              else
                && (r.Ok? <==> UpstreamKind(h.toServer.value) in s.storage.serverbound)
                && (r.Ok? ==> r.value == (h, Some(s.storage.serverbound[UpstreamKind(h.toServer.value)])))
  {
    var h :- HandleServerbound(s, body);
    if h.toServer.None? then Ok((h, None))
    else
      var id :- PS.ServerboundPacketId(s.storage, UpstreamKind(h.toServer.value)).MapFailure(e => StorageFailure(e));
      Ok((h, Some(id)))
  }

  /** A ping answered by its pong returns the upstream transaction id to the server under
      the tables' transaction id, and leaves no transaction pending for it. */
  lemma TransactionRoundTrip(s: Session, catalog: MD.Catalog, cosmicReachId: int)
    requires Valid(s)
    requires SB.Transaction in s.storage.serverbound
    ensures var h := OnTransaction(s, cosmicReachId);
            var r := TransformServerbound(h.session, Pong(h.packet.value.id));
            && r.Ok?
            && r.value.0.toServer == Some(TransactionAnswer(cosmicReachId))
            && r.value.1 == Some(s.storage.serverbound[SB.Transaction])
            && h.packet.value.id !in r.value.0.session.transactions.pending
  {
    var h := OnTransaction(s, cosmicReachId);
    TS.CreateThenAnswer(s.transactions, cosmicReachId);
  }

  /** A tracked player announced again is not re-added; after a disconnect it is, under a
      new entity id. */
  lemma PlayerRejoinGetsNewId(s: Session, account: Acc.Account)
    requires Valid(s) && account.uniqueId in s.entities.ids
    requires s.entities.next + 1 < 0x8000_0000
    ensures OnPlayer(s, account, false) == Ok(Cancelled(s))
    ensures var gone := OnDisconnect(s, Some(account.uniqueId)).value.session;
            var back := OnPlayer(gone, account, true);
            && back.Ok?
            && back.value.packet.value.entityId > s.entities.ids[account.uniqueId]
  {
    ET.RemovePlayerPreservesValid(s.entities, account.uniqueId);
  }
}
