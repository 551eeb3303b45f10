# ViaCosmicReach translation core, modelled in Dafny

ViaCosmicReach is a proxy protocol that lets a Minecraft 1.21 client play on a Cosmic Reach
server. This project models the stateful part of that translation and the wire codecs under it:

- the Cosmic Reach block-state parser and the block-state catalogs with their cross-map to
  Minecraft states;
- the per-connection stores:
  - pending keep-alive transactions;
  - tracked players and their entity ids;
  - the packet id tables;
  - the local player's position;
  - the chunk cache with its dirty set, single-block edits and the conversion into the Minecraft
    chunk-with-light packet;
- the chunk-section reader of the Cosmic Reach save format;
- the string, block-position, length-prefix and packet-id codecs, together with the VarInt they
  rely on;
- the packet handlers of `CosmicReachProtocol`. Each is a pure transition from a session plus a
  decoded packet to a new session, the packets sent on the side and the translated packet or a
  cancellation.

Java `null` becomes `Option`. An exception becomes the `Err` side of `Result`. Java `int`
arithmetic is written out as 32-bit wrap-around (`Bytes.Wrap32`). Bytes are integers in
`[0, 256)`.

Module layout:

| file | module | models |
|---|---|---|
| `wrappers.dfy` | `Wrappers` | nullable references and exceptions as `Option` / `Result` |
| `bytes.dfy` | `Bytes` | big-endian int16/int32 reading and writing, 32-bit wrap-around |
| `varint.dfy` | `VarInt` | the Minecraft-protocol VarInt (7-bit groups, continuation bit 0x80, at most 5 bytes) |
| `java_strings.dfy` | `JavaStrings` | `indexOf`, `split` (with and without limit 2), `replace` |
| `block_state.dfy` | `BlockState` | `CosmicReachBlockState` and `fromString` |
| `mapping_data.dfy` | `MappingData` | the catalogs and cross-map built by `CosmicReachMappingData.load` |
| `account.dfy` | `Account` | `Account` and `OfflineAccount` |
| `packet_registry.dfy`, `clientbound_packets.dfy`, `serverbound_packets.dfy` | `PacketRegistry`, `ClientboundPackets`, `ServerboundPackets` | the two packet enums and their lookup tables |
| `protocol_storage.dfy` | `ProtocolStorage` | the packet id tables of a connection |
| `transaction_storage.dfy` | `TransactionStorage` | ping id ↔ upstream transaction id |
| `entity_tracker.dfy` | `EntityTracker` | unique player id ↔ entity id, accounts, the client account |
| `position_tracker.dfy` | `PositionTracker` | `PlayerPositionTracker` |
| `chunk_section_type.dfy` | `ChunkSectionType` | `ChunkSectionType.read` |
| `chunk_tracker.dfy` | `ChunkTracker` | `ChunkTracker` |
| `string_type.dfy`, `block_position_type.dfy` | `StringType`, `BlockPositionType` | the two custom field types |
| `length_codec.dfy`, `packet_id_codec.dfy` | `LengthCodec`, `PacketIdCodec` | the two Netty codecs |
| `protocol.dfy` | `Protocol` | `CosmicReachProtocol`: `init`, the handlers and `transform` |

Three behaviours of the code are easy to misread, and the model keeps them as written:

- `EntityTracker.addPlayer` is not idempotent per unique id: it hands out a fresh id every time.
  Only the `PLAYER` handler's `hasPlayer` guard keeps a known player from being re-added
  (`EntityTracker.ReAddRetiresOldId`, `Protocol.PlayerRejoinGetsNewId`).
- `handleBlockChange` does not mark its chunk dirty: the dirty set is left as it was
  (`ChunkTracker.HandleBlockChange`).
- `tick` does not always clear the dirty set: it `return`s at the first dirty key without a
  chunk, before the set is cleared (`ChunkTracker.Tick`).

## Model


| member | source | states |
|---|---|---|
| BlockState.FromString | src/main/java/net/raphimc/viacosmicreach/api/model/CosmicReachBlockState.java:33-51 | the parsed id is a prefix of the descriptor without `[`; a failure happens only when the descriptor ends in `[` |
| BlockState.FromStringShape | src/main/java/net/raphimc/viacosmicreach/api/model/CosmicReachBlockState.java:33-51 | without `[` the whole string is the id and the properties are empty; otherwise the id is the text before the first `[`, parsing fails exactly when that `[` is the last character, and the properties come from the text between it and the dropped last character |
| BlockState.ParsePieces | src/main/java/net/raphimc/viacosmicreach/api/model/CosmicReachBlockState.java:41-48 | every comma-separated piece becomes one key/value pair, in order |
| BlockState.PutAllKeys | src/main/java/net/raphimc/viacosmicreach/api/model/CosmicReachBlockState.java:43-47 | a key is in the property map iff some piece names it |
| BlockState.PutAllLastWins | src/main/java/net/raphimc/viacosmicreach/api/model/CosmicReachBlockState.java:43-47 | a repeated key keeps the value of its last piece |
| BlockState.PutAllOrderIndependent | src/main/java/net/raphimc/viacosmicreach/api/model/CosmicReachBlockState.java:24 | with distinct keys, the property map does not depend on the order of the pieces |
| BlockState.SplitAtBracket | src/main/java/net/raphimc/viacosmicreach/api/model/CosmicReachBlockState.java:34 | `split("\\[", 2)` on a string containing `[` gives the text before and after the first `[` |
| BlockState.FromStringTrailingBracket | src/main/java/net/raphimc/viacosmicreach/api/model/CosmicReachBlockState.java:39 | when the first `[` is the last character, `substring(0, -1)` makes the parse fail |
| BlockState.FromStringProperties | src/main/java/net/raphimc/viacosmicreach/api/model/CosmicReachBlockState.java:38-49 | when text follows the first `[`, the parse yields the id before it and the properties between it and the last character |
| BlockState.TrailingBracketFails | src/main/java/net/raphimc/viacosmicreach/api/model/CosmicReachBlockState.java:39 | an id followed only by `[` does not parse |
| BlockState.PieceTexts | src/main/java/net/raphimc/viacosmicreach/api/model/CosmicReachBlockState.java:42-47 | the textual form of every pair, one per pair |
| BlockState.PropertyOfPieceText | src/main/java/net/raphimc/viacosmicreach/api/model/CosmicReachBlockState.java:42-47 | splitting a written `key=value` or bare `key` at its first `=` gives the pair back |
| BlockState.FromStringFormat | src/main/java/net/raphimc/viacosmicreach/api/model/CosmicReachBlockState.java:33-51 | parsing the descriptor written from an id and pairs gives that id and the map the pairs fill |
| BlockState.FormatOrderIrrelevant | src/main/java/net/raphimc/viacosmicreach/api/model/CosmicReachBlockState.java:24 | descriptors listing the same distinct pairs in any order parse to equal states |
| BlockState.SingleProperty | src/main/java/net/raphimc/viacosmicreach/api/model/CosmicReachBlockState.java:40-49 | a one-property descriptor parses to a one-entry map |
| BlockState.FormatSingle | src/main/java/net/raphimc/viacosmicreach/api/model/CosmicReachBlockState.java:41 | a bare piece is written as `id[piece]` |
| BlockState.AirFromString | src/main/java/net/raphimc/viacosmicreach/api/model/CosmicReachBlockState.java:26 | `base:air[default]` parses to `AIR`, the id `base:air` with `default` mapped to null |
| BlockState.EmptyBrackets | src/main/java/net/raphimc/viacosmicreach/api/model/CosmicReachBlockState.java:45-47 | `id[]` parses to the map `{"": null}` |
| JavaStrings.IndexOf | src/main/java/net/raphimc/viacosmicreach/api/model/CosmicReachBlockState.java:34 | -1 exactly when the character is absent, otherwise the position of its first occurrence |
| JavaStrings.IndexOfAfterPrefix | src/main/java/net/raphimc/viacosmicreach/api/model/CosmicReachBlockState.java:34 | the first occurrence comes right after a prefix that does not contain the character |
| JavaStrings.SplitFirst | src/main/java/net/raphimc/viacosmicreach/api/model/CosmicReachBlockState.java:34-42 | a split with limit 2 gives one piece (the whole string) iff the separator is absent, else the parts before and after its first occurrence, which rejoin to the input |
| JavaStrings.Pieces | src/main/java/net/raphimc/viacosmicreach/api/model/CosmicReachBlockState.java:41 | splitting gives at least one piece and no piece contains the separator |
| JavaStrings.DropTrailingEmpty | src/main/java/net/raphimc/viacosmicreach/api/model/CosmicReachBlockState.java:41 | a prefix of the pieces, ending in a non-empty piece, with only empty pieces dropped |
| JavaStrings.Split | src/main/java/net/raphimc/viacosmicreach/api/model/CosmicReachBlockState.java:41 | `split(",")` of a string without the separator is the string itself, and no piece contains the separator |
| JavaStrings.JoinContains | src/main/java/net/raphimc/viacosmicreach/api/model/CosmicReachBlockState.java:41 | joined separator-free pieces contain the separator iff there are several |
| JavaStrings.PiecesAfterPrefix | src/main/java/net/raphimc/viacosmicreach/api/model/CosmicReachBlockState.java:41 | splitting `a,b` gives `a` followed by the pieces of `b` |
| JavaStrings.PiecesJoin | src/main/java/net/raphimc/viacosmicreach/api/model/CosmicReachBlockState.java:41 | splitting joined separator-free pieces gives the pieces back |
| JavaStrings.SplitJoin | src/main/java/net/raphimc/viacosmicreach/api/model/CosmicReachBlockState.java:41 | the same round trip holds with trailing empty pieces dropped, when the last piece is non-empty |
| JavaStrings.RemoveAll | src/main/java/net/raphimc/viacosmicreach/protocol/model/Account.java:33 | `replace(target, "")` never lengthens the string |
| JavaStrings.RemoveAllAbsent | src/main/java/net/raphimc/viacosmicreach/protocol/model/Account.java:33 | a string without the target is left unchanged |
| JavaStrings.RemoveAllAbsentIf | src/main/java/net/raphimc/viacosmicreach/protocol/model/Account.java:33 | a string without the target is unchanged, and a leading target is dropped before the rest is scanned |
| JavaStrings.RemoveAllAfter | src/main/java/net/raphimc/viacosmicreach/protocol/model/Account.java:33 | text with no occurrence before a target keeps that text, drops the target and scans only what follows |
| JavaStrings.RemoveAllPrefix | src/main/java/net/raphimc/viacosmicreach/protocol/model/Account.java:33 | a leading target is removed and the rest is scanned on, without re-scanning the output |
| MappingData.GetInt | src/main/java/net/raphimc/viacosmicreach/protocol/data/CosmicReachMappingData.java:85 | an absent key gives the default return value -1, a present key its stored int |
| MappingData.Index | src/main/java/net/raphimc/viacosmicreach/protocol/data/CosmicReachMappingData.java:84-89 | the catalog of a list holds exactly its elements, each at the position of its last occurrence |
| MappingData.IndexInjective | src/main/java/net/raphimc/viacosmicreach/protocol/data/CosmicReachMappingData.java:86-89 | two states with the same catalog index are the same state |
| MappingData.IndexLookup | src/main/java/net/raphimc/viacosmicreach/protocol/data/CosmicReachMappingData.java:85-88 | a lookup gives -1 iff the key is absent, otherwise the position of its last occurrence |
| MappingData.ParseAll | src/main/java/net/raphimc/viacosmicreach/protocol/data/CosmicReachMappingData.java:86-89 | parsing the upstream list succeeds iff every descriptor parses; the first failure is the outcome |
| MappingData.McParseAll | src/main/java/net/raphimc/viacosmicreach/protocol/data/CosmicReachMappingData.java:93-96 | the downstream list is parsed element by element |
| MappingData.ToEntries | src/main/java/net/raphimc/viacosmicreach/protocol/data/CosmicReachMappingData.java:100-101 | every mapping entry carries its key, the parsed key and its target, in order |
| MappingData.BuildCross | src/main/java/net/raphimc/viacosmicreach/protocol/data/CosmicReachMappingData.java:97-115 | after a successful build every entry is known upstream and, when its target is non-empty, mapped to the target's index; every cross-map key comes from such an entry |
| MappingData.CrossValidSnoc | src/main/java/net/raphimc/viacosmicreach/protocol/data/CosmicReachMappingData.java:100-115 | entries are acceptable iff the earlier ones are, the last key is known upstream, and a non-empty target is a known downstream state whose upstream index is still free |
| MappingData.BuildCrossSucceedsIffValid | src/main/java/net/raphimc/viacosmicreach/protocol/data/CosmicReachMappingData.java:101-114 | the cross-map build succeeds iff no entry has an unknown key, an unknown non-empty target or a duplicate upstream index |
| MappingData.Load | src/main/java/net/raphimc/viacosmicreach/protocol/data/CosmicReachMappingData.java:83-115 | a successful load keeps the given plains biome id, and then every upstream descriptor parsed |
| MappingData.LoadCatalogs | src/main/java/net/raphimc/viacosmicreach/protocol/data/CosmicReachMappingData.java:83-96 | the loaded catalogs are the index maps of the parsed upstream and downstream lists |
| MappingData.CrossInRange | src/main/java/net/raphimc/viacosmicreach/protocol/data/CosmicReachMappingData.java:112 | every cross-map entry pairs an upstream catalog index with a downstream catalog index |
| MappingData.LoadedCrossInRange | src/main/java/net/raphimc/viacosmicreach/protocol/data/CosmicReachMappingData.java:97-115 | after a load every cross-map key is a valid upstream index and every value a valid downstream index |
| MappingData.UpstreamLookup | src/main/java/net/raphimc/viacosmicreach/protocol/data/CosmicReachMappingData.java:84-89 | the upstream catalog gives -1 iff no descriptor parses to the state, otherwise the last position whose descriptor parses to it |
| MappingData.DownstreamLookup | src/main/java/net/raphimc/viacosmicreach/protocol/data/CosmicReachMappingData.java:90-96 | the downstream catalog gives -1 iff the state is not listed, otherwise its last position |
| Account.Prefix | src/main/java/net/raphimc/viacosmicreach/protocol/model/OfflineAccount.java:24-37 | one character longer than the account type `offline`, and that character is `:` |
| Account.DisplayName | src/main/java/net/raphimc/viacosmicreach/protocol/model/Account.java:32-34 | never longer than the username; a username without `offline:` is shown as is; a leading `offline:` is dropped and every occurrence in the rest removed in one pass |
| Account.DisplayNameSingleScan | src/main/java/net/raphimc/viacosmicreach/protocol/model/Account.java:33 | one left-to-right pass: the username `offoffline:line:` displays as `offline:`, which still contains the prefix |
| Account.Decimal | src/main/java/net/raphimc/viacosmicreach/protocol/model/OfflineAccount.java:31 | the decimal text of a long: only digits and no leading zero |
| Account.ParseDecimalOfDecimal | src/main/java/net/raphimc/viacosmicreach/protocol/model/OfflineAccount.java:31 | the decimal text reads back as the number |
| Account.Create | src/main/java/net/raphimc/viacosmicreach/protocol/model/OfflineAccount.java:26-32 | the username is `offline:` followed by the name; the unique id is `offline:` followed by the decimal text of the random long |
| Account.CreateUniqueIdInjective | src/main/java/net/raphimc/viacosmicreach/protocol/model/OfflineAccount.java:31 | two created accounts share a unique id iff they drew the same random number |
| Account.CreateDisplayName | src/main/java/net/raphimc/viacosmicreach/protocol/model/Account.java:32-34 | a created account's display name is the name given, when the name does not contain `offline:` |
| Account.CreateDisplayNameStripsRepeatedPrefix | src/main/java/net/raphimc/viacosmicreach/protocol/model/Account.java:33 | every occurrence is removed: the name `offline:bob` is displayed as `bob` |
| PacketRegistry.Last | src/main/java/net/raphimc/viacosmicreach/ClientboundCosmicReachPackets.java:45-49 | the static initialiser keeps the last declared packet matching a key, and none iff no packet matches |
| PacketRegistry.ById | src/main/java/net/raphimc/viacosmicreach/ClientboundCosmicReachPackets.java:52-56 | an id outside [0, 128) or declared by no packet gives null; otherwise a declared packet with that id |
| PacketRegistry.ByClass | src/main/java/net/raphimc/viacosmicreach/ClientboundCosmicReachPackets.java:58-60 | a class name gives null iff no packet declares it |
| PacketRegistry.ByIdOfDeclared | src/main/java/net/raphimc/viacosmicreach/ClientboundCosmicReachPackets.java:45-56 | with distinct in-range ids every packet is found under its own id |
| PacketRegistry.ByClassOfDeclared | src/main/java/net/raphimc/viacosmicreach/ClientboundCosmicReachPackets.java:45-60 | with distinct ids and class names every packet is found under its own class name |
| ClientboundPackets.Ordinal | src/main/java/net/raphimc/viacosmicreach/ClientboundCosmicReachPackets.java:26-40 | every packet occurs in the declaration list at its ordinal |
| ClientboundPackets.OrdinalOfDeclared | src/main/java/net/raphimc/viacosmicreach/ClientboundCosmicReachPackets.java:26-40 | the declaration list names no packet twice |
| ClientboundPackets.IdsDiffer | src/main/java/net/raphimc/viacosmicreach/ClientboundCosmicReachPackets.java:26-40 | distinct packets have distinct ids |
| ClientboundPackets.SimpleNamesDiffer | src/main/java/net/raphimc/viacosmicreach/ClientboundCosmicReachPackets.java:26-40 | distinct packets have distinct class names after the shared package |
| ClientboundPackets.ClassNamesDiffer | src/main/java/net/raphimc/viacosmicreach/ClientboundCosmicReachPackets.java:26-40 | distinct packets have distinct class names |
| ClientboundPackets.Declared | src/main/java/net/raphimc/viacosmicreach/ClientboundCosmicReachPackets.java:42-49 | all ids fit the 128-slot registry, and ids and class names are distinct |
| ClientboundPackets.DeclaredIds | src/main/java/net/raphimc/viacosmicreach/ClientboundCosmicReachPackets.java:26-40 | 15 packets with ids 1, 2, 4, 5, 6, 7, 8, 9, 13, 14, 15, 17, 18, 19, 20 |
| ClientboundPackets.GetPacket | src/main/java/net/raphimc/viacosmicreach/ClientboundCosmicReachPackets.java:52-56 | a found packet has the id asked for, and null comes back iff no packet has that id |
| ClientboundPackets.GetPacketByClass | src/main/java/net/raphimc/viacosmicreach/ClientboundCosmicReachPackets.java:58-60 | null iff no packet has that class name |
| ClientboundPackets.LookupsFindDeclared | src/main/java/net/raphimc/viacosmicreach/ClientboundCosmicReachPackets.java:45-60 | every packet is found by its id and by its class name |
| ServerboundPackets.Ordinal | src/main/java/net/raphimc/viacosmicreach/ServerboundCosmicReachPackets.java:26-35 | every packet occurs in the declaration list at its ordinal |
| ServerboundPackets.OrdinalOfDeclared | src/main/java/net/raphimc/viacosmicreach/ServerboundCosmicReachPackets.java:26-35 | the declaration list names no packet twice |
| ServerboundPackets.IdsDiffer | src/main/java/net/raphimc/viacosmicreach/ServerboundCosmicReachPackets.java:26-35 | distinct packets have distinct ids |
| ServerboundPackets.SimpleNamesDiffer | src/main/java/net/raphimc/viacosmicreach/ServerboundCosmicReachPackets.java:26-35 | distinct packets have distinct class names after the shared package |
| ServerboundPackets.ClassNamesDiffer | src/main/java/net/raphimc/viacosmicreach/ServerboundCosmicReachPackets.java:26-35 | distinct packets have distinct class names |
| ServerboundPackets.Declared | src/main/java/net/raphimc/viacosmicreach/ServerboundCosmicReachPackets.java:37-44 | all ids fit the 128-slot registry, and ids and class names are distinct |
| ServerboundPackets.DeclaredIds | src/main/java/net/raphimc/viacosmicreach/ServerboundCosmicReachPackets.java:26-35 | 10 packets with ids 2, 3, 6, 7, 10, 11, 12, 16, 17, 18 |
| ServerboundPackets.GetPacket | src/main/java/net/raphimc/viacosmicreach/ServerboundCosmicReachPackets.java:47-51 | a found packet has the id asked for, and null comes back iff no packet has that id |
| ServerboundPackets.GetPacketByClass | src/main/java/net/raphimc/viacosmicreach/ServerboundCosmicReachPackets.java:53-55 | null iff no packet has that class name |
| ServerboundPackets.LookupsFindDeclared | src/main/java/net/raphimc/viacosmicreach/ServerboundCosmicReachPackets.java:40-55 | every packet is found by its id and by its class name |
| ProtocolStorage.Default | src/main/java/net/raphimc/viacosmicreach/protocol/storage/ProtocolStorage.java:35-42 | every packet of both directions is registered under its declared id, and nothing else is |
| ProtocolStorage.DefaultResolvesDeclared | src/main/java/net/raphimc/viacosmicreach/protocol/storage/ProtocolStorage.java:35-42 | the default tables resolve each declared clientbound id to its packet and each serverbound packet to its id |
| ProtocolStorage.SyncStep | src/main/java/net/raphimc/viacosmicreach/protocol/storage/ProtocolStorage.java:46-57 | one announced id is accepted iff some direction declares it |
| ProtocolStorage.Synced | src/main/java/net/raphimc/viacosmicreach/protocol/storage/ProtocolStorage.java:44-59 | the announced table is accepted iff every listed id is declared by some direction |
| ProtocolStorage.AllKnownSnoc | src/main/java/net/raphimc/viacosmicreach/protocol/storage/ProtocolStorage.java:45-58 | the entries are all accepted iff the earlier ones and the last one are |
| ProtocolStorage.SyncedClientbound | src/main/java/net/raphimc/viacosmicreach/protocol/storage/ProtocolStorage.java:47-50 | the clientbound table holds exactly the listed ids the clientbound enum declares, each under the packet declared with it |
| ProtocolStorage.SyncedServerbound | src/main/java/net/raphimc/viacosmicreach/protocol/storage/ProtocolStorage.java:51-54 | the serverbound table holds exactly the packets whose declared id is listed, each under that id |
| ProtocolStorage.SyncedAgreesWithDeclared | src/main/java/net/raphimc/viacosmicreach/protocol/storage/ProtocolStorage.java:45-54 | an announced table can leave packets out but never puts one under another id; names are never consulted |
| ProtocolStorage.SyncedAllIsDefault | src/main/java/net/raphimc/viacosmicreach/protocol/storage/ProtocolStorage.java:35-59 | an announced table listing every declared id gives the default tables |
| ProtocolStorage.SyncedOkWhenCovered | src/main/java/net/raphimc/viacosmicreach/protocol/storage/ProtocolStorage.java:55-57 | a table whose ids all occur in an accepted table is accepted |
| ProtocolStorage.SyncedOrderIrrelevant | src/main/java/net/raphimc/viacosmicreach/protocol/storage/ProtocolStorage.java:45-58 | the resulting tables depend only on which ids are listed, not on order or repetition |
| ProtocolStorage.ClientboundPacket | src/main/java/net/raphimc/viacosmicreach/protocol/storage/ProtocolStorage.java:61-67 | fails exactly for an unregistered id |
| ProtocolStorage.ServerboundPacketId | src/main/java/net/raphimc/viacosmicreach/protocol/storage/ProtocolStorage.java:69-75 | fails exactly for an unregistered packet |
| TransactionStorage.Create | src/main/java/net/raphimc/viacosmicreach/protocol/storage/TransactionStorage.java:31-35 | returns the counter, parks the upstream id under it and leaves every other pending entry as it was |
| TransactionStorage.GetAndRemove | src/main/java/net/raphimc/viacosmicreach/protocol/storage/TransactionStorage.java:37-43 | fails iff the ping id is not pending; otherwise returns its parked upstream id, removes exactly that ping id from the pending set and keeps every other entry |
| TransactionStorage.InitialValid | src/main/java/net/raphimc/viacosmicreach/protocol/storage/TransactionStorage.java:28-29 | a fresh storage starts at 1 with nothing pending |
| TransactionStorage.CreatePreservesValid | src/main/java/net/raphimc/viacosmicreach/protocol/storage/TransactionStorage.java:28-32 | every pending id stays below the counter while the counter has not reached the largest int |
| TransactionStorage.CreateThenAnswer | src/main/java/net/raphimc/viacosmicreach/protocol/storage/TransactionStorage.java:31-43 | a fresh id is never already pending, so answering it returns the upstream id and restores the pending map |
| TransactionStorage.AnswerOnce | src/main/java/net/raphimc/viacosmicreach/protocol/storage/TransactionStorage.java:38-41 | an answered id cannot be answered again |
| TransactionStorage.ConsecutiveIds | src/main/java/net/raphimc/viacosmicreach/protocol/storage/TransactionStorage.java:28-33 | on a fresh storage the k-th creation returns k and parks the k-th upstream id |
| EntityTracker.SetClient | src/main/java/net/raphimc/viacosmicreach/protocol/storage/EntityTracker.java:31-41 | the client account is the one set, independent of the player maps |
| EntityTracker.AddPlayer | src/main/java/net/raphimc/viacosmicreach/protocol/storage/EntityTracker.java:43-48 | returns the counter, advances it with 32-bit wrap-around and binds the unique id and the account to it; the bimap refuses an id already bound to another player |
| EntityTracker.RemovePlayer | src/main/java/net/raphimc/viacosmicreach/protocol/storage/EntityTracker.java:50-53 | forgets the unique id in both maps and no other unique id |
| EntityTracker.EntityIdOf | src/main/java/net/raphimc/viacosmicreach/protocol/storage/EntityTracker.java:55-61 | the lookup succeeds exactly for tracked players, with the id bound to that player |
| EntityTracker.HasPlayer | src/main/java/net/raphimc/viacosmicreach/protocol/storage/EntityTracker.java:55-57 | on a valid tracker, a player is tracked iff it has an account |
| EntityTracker.UniqueIdOf | src/main/java/net/raphimc/viacosmicreach/protocol/storage/EntityTracker.java:63-65 | on a valid tracker, null iff no tracked player has the entity id; otherwise the tracked player holding it |
| EntityTracker.AccountOf | src/main/java/net/raphimc/viacosmicreach/protocol/storage/EntityTracker.java:67-69 | on a valid tracker, null iff the player is untracked; otherwise an account with that unique id |
| EntityTracker.InitialValid | src/main/java/net/raphimc/viacosmicreach/protocol/storage/EntityTracker.java:29-33 | a fresh tracker starts at 0 with no players |
| EntityTracker.AddPlayerPreservesValid | src/main/java/net/raphimc/viacosmicreach/protocol/storage/EntityTracker.java:29-48 | below the largest int, adding succeeds, keeps the two directions inverse and returns an id no tracked player has |
| EntityTracker.RemovePlayerPreservesValid | src/main/java/net/raphimc/viacosmicreach/protocol/storage/EntityTracker.java:50-53 | removing keeps the two directions inverse |
| EntityTracker.LookupsInverse | src/main/java/net/raphimc/viacosmicreach/protocol/storage/EntityTracker.java:59-65 | the entity-id lookup and the unique-id lookup undo each other |
| EntityTracker.AddPlayerLookups | src/main/java/net/raphimc/viacosmicreach/protocol/storage/EntityTracker.java:43-69 | after adding, the player is tracked, has the returned id and the added account, and the id resolves back to it |
| EntityTracker.ReAddRetiresOldId | src/main/java/net/raphimc/viacosmicreach/protocol/storage/EntityTracker.java:43-47 | adding a tracked player again gives it a new id, and the old id resolves to nobody |
| EntityTracker.RemovedIsGone | src/main/java/net/raphimc/viacosmicreach/protocol/storage/EntityTracker.java:50-69 | after removal all three lookups miss |
| EntityTracker.RemoveKeepsOthers | src/main/java/net/raphimc/viacosmicreach/protocol/storage/EntityTracker.java:50-53 | removal leaves other players' ids and accounts as they were |
| EntityTracker.RemoveThenAddLarger | src/main/java/net/raphimc/viacosmicreach/protocol/storage/EntityTracker.java:29-53 | a player removed and added again gets a strictly larger id |
| PositionTracker.FloatToInt | src/main/java/net/raphimc/viacosmicreach/protocol/storage/PlayerPositionTracker.java:49-50 | `(int) f` truncates toward zero and saturates at the int range |
| PositionTracker.ChunkCoord | src/main/java/net/raphimc/viacosmicreach/protocol/storage/PlayerPositionTracker.java:49-50 | the chunk c with the truncated coordinate in [16c, 16c + 16) |
| PositionTracker.UpdatePosition | src/main/java/net/raphimc/viacosmicreach/protocol/storage/PlayerPositionTracker.java:44-60 | stores the coordinates, records the chunk of x and z, and announces that chunk iff it differs from the last one recorded |
| PositionTracker.UpdateRotation | src/main/java/net/raphimc/viacosmicreach/protocol/storage/PlayerPositionTracker.java:62-65 | only yaw and pitch change |
| PositionTracker.WritePlayerPosition | src/main/java/net/raphimc/viacosmicreach/protocol/storage/PlayerPositionTracker.java:67-73 | the client's unique id, the stored position, view direction (0, 0, 0), view offset (0, 1.8, 0) and no zone; fails without a client account |
| PositionTracker.ReportAfterMove | src/main/java/net/raphimc/viacosmicreach/protocol/storage/PlayerPositionTracker.java:44-73 | the report after a move carries the coordinates just stored |
| PositionTracker.ReportIgnoresRotation | src/main/java/net/raphimc/viacosmicreach/protocol/storage/PlayerPositionTracker.java:62-73 | a rotation does not change the position report |
| PositionTracker.FirstUpdateAnnounces | src/main/java/net/raphimc/viacosmicreach/protocol/storage/PlayerPositionTracker.java:37-51 | the first update always announces a chunk-cache centre |
| PositionTracker.SameChunkIsQuiet | src/main/java/net/raphimc/viacosmicreach/protocol/storage/PlayerPositionTracker.java:51 | moving within the same chunk announces nothing |
| PositionTracker.ChunkCoordExamples | src/main/java/net/raphimc/viacosmicreach/protocol/storage/PlayerPositionTracker.java:49-50 | -0.5 lies in chunk 0 and -16.5 in chunk -1: truncation comes before the shift |
| ChunkTracker.GetSection | src/main/java/net/raphimc/viacosmicreach/protocol/storage/ChunkTracker.java:60-68 | a section is found iff its chunk is cached and has that slot |
| ChunkTracker.Merge | src/main/java/net/raphimc/viacosmicreach/protocol/storage/ChunkTracker.java:74-79 | the slot holds the new section, every other slot and chunk is unchanged, and the chunk joins the dirty set |
| ChunkTracker.MergeGetSection | src/main/java/net/raphimc/viacosmicreach/protocol/storage/ChunkTracker.java:74-79 | reading any slot after a merge gives the merged section for that slot and the old contents elsewhere |
| ChunkTracker.MergePreservesValid | src/main/java/net/raphimc/viacosmicreach/protocol/storage/ChunkTracker.java:74-79 | merging a full section keeps every dirty key backed by a chunk |
| ChunkTracker.BlockValue | src/main/java/net/raphimc/viacosmicreach/protocol/storage/ChunkTracker.java:87-92 | a known state's catalog index, or air's index for an unknown state |
| ChunkTracker.Downstream | src/main/java/net/raphimc/viacosmicreach/protocol/storage/ChunkTracker.java:95-101 | the cross-mapped id, or 1 when there is none |
| ChunkTracker.HandleBlockChange | src/main/java/net/raphimc/viacosmicreach/protocol/storage/ChunkTracker.java:81-102 | an uncached section gives 0 and no change; otherwise the change fails exactly when the descriptor does not parse, and the dirty set and chunk keys stay the same |
| ChunkTracker.BlockChangeWritesOneCell | src/main/java/net/raphimc/viacosmicreach/protocol/storage/ChunkTracker.java:87-101 | exactly the block's cell gets the state's index; the returned id is its downstream id; every other cell, the light and every other section are unchanged |
| ChunkTracker.BlockChangePreservesValid | src/main/java/net/raphimc/viacosmicreach/protocol/storage/ChunkTracker.java:81-102 | a block change keeps the tracker valid |
| ChunkTracker.Repeat | src/main/java/net/raphimc/viacosmicreach/protocol/storage/ChunkTracker.java:47-51 | n copies of a value |
| ChunkTracker.Nibble | src/main/java/net/raphimc/viacosmicreach/protocol/storage/ChunkTracker.java:226-228 | a 4-bit value |
| ChunkTracker.BlockLightLevel | src/main/java/net/raphimc/viacosmicreach/protocol/storage/ChunkTracker.java:224-229 | the brightest of the three 4-bit colour channels |
| ChunkTracker.CountOther | src/main/java/net/raphimc/viacosmicreach/protocol/storage/ChunkTracker.java:187-206 | the number of cells that differ from the value |
| ChunkTracker.RemapSection | src/main/java/net/raphimc/viacosmicreach/protocol/storage/ChunkTracker.java:179-234 | a missing section gives an unlit all-air slot with no blocks counted; a present one is lit; both carry the plains biome |
| ChunkTracker.RemapCells | src/main/java/net/raphimc/viacosmicreach/protocol/storage/ChunkTracker.java:188-205 | air becomes 0, any other cell its cross-mapped id or 1 |
| ChunkTracker.BlockLightGrid | src/main/java/net/raphimc/viacosmicreach/protocol/storage/ChunkTracker.java:217-233 | each cell gets its channel maximum, or 0 without upstream block light |
| ChunkTracker.RemapChunk | src/main/java/net/raphimc/viacosmicreach/protocol/storage/ChunkTracker.java:167-177 | 128 slots at the chunk's coordinates, slot idx built from upstream section idx - 64 |
| ChunkTracker.LitBits | src/main/java/net/raphimc/viacosmicreach/protocol/storage/ChunkTracker.java:124-143 | bit 1 + i is set exactly for the lit slot i |
| ChunkTracker.LitSlotsOfChunk | src/main/java/net/raphimc/viacosmicreach/protocol/storage/ChunkTracker.java:124-143 | bit b is set exactly when upstream section b - 1 - 64 is cached |
| ChunkTracker.RemappedLit | src/main/java/net/raphimc/viacosmicreach/protocol/storage/ChunkTracker.java:179 | a slot is lit iff its upstream section exists |
| ChunkTracker.PacketFor | src/main/java/net/raphimc/viacosmicreach/protocol/storage/ChunkTracker.java:110-161 | the packet is at the chunk's coordinates; the sky mask holds bits 0 and 129 and every block-light bit; no slot is both block-lit and empty |
| ChunkTracker.PacketForShape | src/main/java/net/raphimc/viacosmicreach/protocol/storage/ChunkTracker.java:110-161 | the packet carries the remapped chunk; the sky mask is bits 0 and 129 plus the block mask; the block mask holds the bits of the cached sections; the empty-sky mask is empty; the empty-block mask is {0, 129}; the sky-light list starts and ends with full light |
| ChunkTracker.EmptyChunkPacket | src/main/java/net/raphimc/viacosmicreach/protocol/storage/ChunkTracker.java:113-147 | a chunk with no section in range sends only the two full-light pseudo-sections and unlit air slots with the plains biome |
| ChunkTracker.NoLightNoArrays | src/main/java/net/raphimc/viacosmicreach/protocol/storage/ChunkTracker.java:124-143 | unlit slots contribute no light arrays |
| ChunkTracker.PresentSectionRemapped | src/main/java/net/raphimc/viacosmicreach/protocol/storage/ChunkTracker.java:185-233 | the non-air count is the number of cells other than air; cells are cross-mapped; sky light is full; block light is the channel maximum |
| ChunkTracker.BlockChangeAgreesWithFlush | src/main/java/net/raphimc/viacosmicreach/protocol/storage/ChunkTracker.java:93-101 | the id a block change returns is the id the next flush sends for that cell |
| ChunkTracker.Tick | src/main/java/net/raphimc/viacosmicreach/protocol/storage/ChunkTracker.java:104-165 | one packet per dirty chunk in the order visited, the chunks unchanged, the dirty set emptied when every dirty key has a chunk, and left as it was otherwise |
| ChunkTracker.SentSnoc | src/main/java/net/raphimc/viacosmicreach/protocol/storage/ChunkTracker.java:105-162 | sending one more unvisited chunk extends the sent packets |
| ChunkTracker.PacketsSnoc | src/main/java/net/raphimc/viacosmicreach/protocol/storage/ChunkTracker.java:110-162 | each sent packet is the conversion of the chunk visited at the same position |
| ChunkTracker.SentPacketsNameTheirChunk | src/main/java/net/raphimc/viacosmicreach/protocol/storage/ChunkTracker.java:110 | each sent packet carries the coordinates of its chunk |
| ChunkSectionType.CellIndex | src/main/java/net/raphimc/viacosmicreach/protocol/storage/ChunkTracker.java:93 | a cell of a section grid lies inside the grid |
| ChunkSectionType.ReadByte | src/main/java/net/raphimc/viacosmicreach/protocol/types/ChunkSectionType.java:71 | one signed byte, failing exactly on empty input |
| ChunkSectionType.SaveKeyToBlockValue | src/main/java/net/raphimc/viacosmicreach/protocol/types/ChunkSectionType.java:52-61 | fails iff the key does not parse; otherwise the catalog index of the state, or air's index |
| ChunkSectionType.UnknownKeyIsAir | src/main/java/net/raphimc/viacosmicreach/protocol/types/ChunkSectionType.java:55-60 | an unknown save key decodes to air's catalog index |
| ChunkSectionType.KeysToBlockValues | src/main/java/net/raphimc/viacosmicreach/protocol/types/ChunkSectionType.java:73-74 | succeeds iff every key parses, giving each key's value in order |
| ChunkSectionType.ReadBlocks | src/main/java/net/raphimc/viacosmicreach/protocol/types/ChunkSectionType.java:71-76 | a full grid, and an error for a tag other than single or layered |
| ChunkSectionType.ReadSkyLayer | src/main/java/net/raphimc/viacosmicreach/protocol/types/ChunkSectionType.java:84-89 | type 1 consumes one light byte, type 2 exactly 128 bytes, any other type is an error |
| ChunkSectionType.ReadSkyLayers | src/main/java/net/raphimc/viacosmicreach/protocol/types/ChunkSectionType.java:83-90 | exactly the requested number of layers |
| ChunkSectionType.ReadSkyLayerWritten | src/main/java/net/raphimc/viacosmicreach/protocol/types/ChunkSectionType.java:84-89 | reading a written layer gives it back and leaves what follows |
| ChunkSectionType.ReadSkyLayersStep | src/main/java/net/raphimc/viacosmicreach/protocol/types/ChunkSectionType.java:83-90 | the layers are one layer followed by the rest |
| ChunkSectionType.ReadSkyLayersWritten | src/main/java/net/raphimc/viacosmicreach/protocol/types/ChunkSectionType.java:83-91 | reading written layers gives them all back, in order |
| ChunkSectionType.ReadSkyLight | src/main/java/net/raphimc/viacosmicreach/protocol/types/ChunkSectionType.java:78-95 | null tag: absent; single tag: one byte; layered: 16 layers; any other tag: error |
| ChunkSectionType.ReadBlockLightLayers | src/main/java/net/raphimc/viacosmicreach/protocol/types/ChunkSectionType.java:102-104 | one layer per remaining index, each a full horizontal layer |
| ChunkSectionType.ReadBlockLight | src/main/java/net/raphimc/viacosmicreach/protocol/types/ChunkSectionType.java:97-108 | null tag: absent; layered: a full grid; any other tag: error |
| ChunkSectionType.ReadBlockEntities | src/main/java/net/raphimc/viacosmicreach/protocol/types/ChunkSectionType.java:110-127 | the list is always empty; the null tag consumes only itself; any tag other than null or data is an error |
| ChunkSectionType.BlockEntityHeader | src/main/java/net/raphimc/viacosmicreach/protocol/types/ChunkSectionType.java:115-117 | the data tag and an int length: a negative length fails, too few bytes fail, otherwise exactly that many bytes are skipped |
| ChunkSectionType.BlockEntitiesSkipped | src/main/java/net/raphimc/viacosmicreach/protocol/types/ChunkSectionType.java:115-125 | a written block-entity record is skipped whole and leaves exactly what follows |
| ChunkSectionType.Read | src/main/java/net/raphimc/viacosmicreach/protocol/types/ChunkSectionType.java:67-133 | a section read in full has a full grid, full block light when present, and no block entities |
| ChunkSectionType.ReadLayeredSky | src/main/java/net/raphimc/viacosmicreach/protocol/types/ChunkSectionType.java:78-90 | a layered sky-light tag followed by readable layers gives those layers and what follows |
| ChunkSectionType.ReadOfParts | src/main/java/net/raphimc/viacosmicreach/protocol/types/ChunkSectionType.java:67-129 | proof step for the whole-section lemmas: four successful part reads, one after another, make a successful section read |
| ChunkSectionType.ReadWrittenSection | src/main/java/net/raphimc/viacosmicreach/protocol/types/ChunkSectionType.java:67-129 | blocks, then layered sky light, absent block light and no block entities, read back as a section of exactly those parts, leaving what follows |
| ChunkSectionType.ReadSectionWithWrittenLayers | src/main/java/net/raphimc/viacosmicreach/protocol/types/ChunkSectionType.java:67-129 | the same with written sky-light layers: a whole section round-trips through its parts |
| ChunkSectionType.Write | src/main/java/net/raphimc/viacosmicreach/protocol/types/ChunkSectionType.java:135-138 | writing a section always fails |
| Bytes.ToBigEndian | src/main/java/net/raphimc/viacosmicreach/protocol/types/BlockPositionType.java:37-39 | k bytes |
| Bytes.FromBigEndian | src/main/java/net/raphimc/viacosmicreach/protocol/types/BlockPositionType.java:32 | a value that fits the bytes read |
| Bytes.FromToBigEndian | src/main/java/net/raphimc/viacosmicreach/protocol/types/BlockPositionType.java:32-39 | reading written big-endian bytes gives the value back |
| Bytes.ToFromBigEndian | src/main/java/net/raphimc/viacosmicreach/protocol/types/BlockPositionType.java:32-39 | writing the value read gives the bytes back |
| Bytes.Wrap32 | src/main/java/net/raphimc/viacosmicreach/protocol/storage/TransactionStorage.java:32 | an int equal to the value modulo 2^32, and the value itself when it is an int |
| Bytes.Int32ToBytes | src/main/java/net/raphimc/viacosmicreach/protocol/types/BlockPositionType.java:37-39 | `writeInt` writes four bytes |
| Bytes.Int32MinusOneBytes | src/main/java/net/raphimc/viacosmicreach/protocol/types/StringType.java:46 | -1 is written as four 0xFF bytes |
| Bytes.BytesToInt32 | src/main/java/net/raphimc/viacosmicreach/protocol/types/BlockPositionType.java:32 | `readInt` gives an int |
| Bytes.Int16ToBytes | src/main/java/net/raphimc/viacosmicreach/netty/PacketIdCodec.java:31 | `writeShort` writes two bytes |
| Bytes.BytesToInt16 | src/main/java/net/raphimc/viacosmicreach/netty/PacketIdCodec.java:38 | `readShort` gives a short |
| Bytes.Int32RoundTrip | src/main/java/net/raphimc/viacosmicreach/protocol/types/BlockPositionType.java:32-39 | reading a written int gives it back |
| Bytes.Int32BytesRoundTrip | src/main/java/net/raphimc/viacosmicreach/protocol/types/BlockPositionType.java:32-39 | writing a read int gives the bytes back |
| Bytes.Int16RoundTrip | src/main/java/net/raphimc/viacosmicreach/netty/PacketIdCodec.java:31-38 | reading a written short gives it back |
| Bytes.Int16BytesRoundTrip | src/main/java/net/raphimc/viacosmicreach/netty/PacketIdCodec.java:31-38 | writing a read short gives the bytes back |
| Bytes.ReadInt32 | src/main/java/net/raphimc/viacosmicreach/protocol/types/StringType.java:33 | fails exactly with fewer than four bytes; otherwise the int whose bytes are the first four, and the rest |
| Bytes.ReadInt32Written | src/main/java/net/raphimc/viacosmicreach/protocol/types/StringType.java:33-49 | reading a written int gives it back and leaves what follows |
| VarInt.ToUnsigned32 | src/main/java/net/raphimc/viacosmicreach/netty/PacketIdCodec.java:38 | the 32-bit pattern of an int, which reads back as the int |
| VarInt.EncodeGroups | src/main/java/net/raphimc/viacosmicreach/netty/PacketIdCodec.java:38 | every group but the last carries the continuation bit |
| VarInt.EncodeGroupsLength | src/main/java/net/raphimc/viacosmicreach/netty/PacketIdCodec.java:38 | a value below 128^k needs at most k groups |
| VarInt.EncodeGroupsStep | src/main/java/net/raphimc/viacosmicreach/netty/PacketIdCodec.java:38 | a value of several groups starts with its flagged low seven bits, followed by the groups of the rest |
| VarInt.Encode | src/main/java/net/raphimc/viacosmicreach/netty/PacketIdCodec.java:38 | one to five bytes |
| VarInt.DecodeGroups | src/main/java/net/raphimc/viacosmicreach/netty/PacketIdCodec.java:31 | consumes a prefix of at most the remaining group budget |
| VarInt.DecodeGroupsContinued | src/main/java/net/raphimc/viacosmicreach/netty/PacketIdCodec.java:31 | a flagged group followed by groups worth v is worth its low bits plus 128 v |
| VarInt.Decode | src/main/java/net/raphimc/viacosmicreach/netty/PacketIdCodec.java:31 | an int read from one to five leading bytes; empty input fails |
| VarInt.DecodeEncodeGroups | src/main/java/net/raphimc/viacosmicreach/netty/PacketIdCodec.java:31-38 | reading written groups gives the value back |
| VarInt.DecodeEncode | src/main/java/net/raphimc/viacosmicreach/netty/PacketIdCodec.java:31-38 | reading a written VarInt gives the int back and leaves what follows |
| VarInt.NonMinimalZero | src/main/java/net/raphimc/viacosmicreach/netty/PacketIdCodec.java:31 | the redundant form `80 00` reads as 0, whose own form is `00` |
| StringType.Write | src/main/java/net/raphimc/viacosmicreach/protocol/types/StringType.java:43-52 | null is four 0xFF bytes; a string is its int length followed by its bytes |
| StringType.Read | src/main/java/net/raphimc/viacosmicreach/protocol/types/StringType.java:31-41 | length -1 gives null after 4 bytes; length n gives the next n bytes; a length below -1 fails; a length that fits succeeds |
| StringType.ReadWrite | src/main/java/net/raphimc/viacosmicreach/protocol/types/StringType.java:31-52 | reading what was written gives the value (null included) back and leaves what follows |
| BlockPositionType.Write | src/main/java/net/raphimc/viacosmicreach/protocol/types/BlockPositionType.java:35-40 | 12 bytes, the ints x, y, z in that order |
| BlockPositionType.Read | src/main/java/net/raphimc/viacosmicreach/protocol/types/BlockPositionType.java:30-33 | fails iff fewer than 12 bytes; otherwise the three ints x, y, z and the rest |
| BlockPositionType.ReadWrite | src/main/java/net/raphimc/viacosmicreach/protocol/types/BlockPositionType.java:30-40 | reading a written position gives it back and leaves what follows |
| BlockPositionType.WriteRead | src/main/java/net/raphimc/viacosmicreach/protocol/types/BlockPositionType.java:30-40 | writing a read position gives the 12 bytes back |
| LengthCodec.Encode | src/main/java/net/raphimc/viacosmicreach/netty/LengthCodec.java:28-32 | the int payload length followed by the payload |
| LengthCodec.Decode | src/main/java/net/raphimc/viacosmicreach/netty/LengthCodec.java:34-45 | fewer than 4 bytes or a declared length beyond the input: nothing emitted or consumed; a negative length fails; otherwise one frame of that length, the rest left |
| LengthCodec.DecodeEncode | src/main/java/net/raphimc/viacosmicreach/netty/LengthCodec.java:28-45 | decoding an encoded payload emits it and leaves what follows |
| LengthCodec.DecodeAll | src/main/java/net/raphimc/viacosmicreach/netty/LengthCodec.java:34-45 | the decode loop never leaves more bytes than it was given |
| LengthCodec.DecodeAllUnfold | src/main/java/net/raphimc/viacosmicreach/netty/LengthCodec.java:36-43 | a loop step that emits a frame is followed by the loop on the rest |
| LengthCodec.DecodeAllEncodeAll | src/main/java/net/raphimc/viacosmicreach/netty/LengthCodec.java:28-45 | a stream of encoded frames followed by an incomplete prefix decodes into the frames and keeps the prefix |
| PacketIdCodec.Encode | src/main/java/net/raphimc/viacosmicreach/netty/PacketIdCodec.java:29-33 | fails iff no VarInt leads the frame; otherwise its low 16 bits as a short, then the rest |
| PacketIdCodec.Decode | src/main/java/net/raphimc/viacosmicreach/netty/PacketIdCodec.java:35-41 | fails iff fewer than 2 bytes; otherwise the VarInt of the short, then the rest, with the matching length |
| PacketIdCodec.EncodeDecode | src/main/java/net/raphimc/viacosmicreach/netty/PacketIdCodec.java:29-41 | every wire frame of at least 2 bytes survives decode then encode |
| PacketIdCodec.DecodeEncode | src/main/java/net/raphimc/viacosmicreach/netty/PacketIdCodec.java:29-41 | a frame whose minimal VarInt id fits a short survives encode then decode |
| PacketIdCodec.NonMinimalIdIsNormalised | src/main/java/net/raphimc/viacosmicreach/netty/PacketIdCodec.java:31-38 | a redundantly written id comes back in minimal form, so the minimality condition is needed |
| PacketIdCodec.NonMinimalWire | src/main/java/net/raphimc/viacosmicreach/netty/PacketIdCodec.java:31-32 | the frame `80 00 07` becomes `00 00 07` on the wire |
| PacketIdCodec.NonMinimalZeroDecodes | src/main/java/net/raphimc/viacosmicreach/netty/PacketIdCodec.java:31 | the VarInt of `80 00 07` is 0 with `07` left |
| PacketIdCodec.ZeroWireDecodes | src/main/java/net/raphimc/viacosmicreach/netty/PacketIdCodec.java:37-40 | the wire frame `00 00 07` becomes `00 07` |
| PacketIdCodec.ZeroShort | src/main/java/net/raphimc/viacosmicreach/netty/PacketIdCodec.java:31-38 | 0 is the short `00 00` |
| PacketIdCodec.WideIdTruncated | src/main/java/net/raphimc/viacosmicreach/netty/PacketIdCodec.java:31 | an id of 65536 reaches the wire as 0 |
| Protocol.Init | src/main/java/net/raphimc/viacosmicreach/protocol/CosmicReachProtocol.java:483-490 | a connection starts with the default packet tables, no transactions, counter 1, no players, no client account and no chunks |
| Protocol.InitValid | src/main/java/net/raphimc/viacosmicreach/protocol/CosmicReachProtocol.java:483-490 | the initial session satisfies every store's invariant |
| Protocol.Mapping | src/main/java/net/raphimc/viacosmicreach/protocol/CosmicReachProtocol.java:83-88 | the name map holds exactly the names announced |
| Protocol.MappingKeepsLast | src/main/java/net/raphimc/viacosmicreach/protocol/CosmicReachProtocol.java:87 | a repeated name keeps the id of its last pair |
| Protocol.MappedIds | src/main/java/net/raphimc/viacosmicreach/protocol/CosmicReachProtocol.java:83-89 | the ids handed to the storage are exactly the map's values |
| Protocol.MappedIdsStep | src/main/java/net/raphimc/viacosmicreach/protocol/CosmicReachProtocol.java:87 | one more pair adds its id to the values iff its name is new |
| Protocol.OnProtocolSync | src/main/java/net/raphimc/viacosmicreach/protocol/CosmicReachProtocol.java:80-90 | a negative definition count fails when the name map is allocated; otherwise cancelled, succeeding iff the announced ids are accepted and then installing the tables built from them |
| Protocol.ProtocolSyncAnyOrder | src/main/java/net/raphimc/viacosmicreach/protocol/CosmicReachProtocol.java:83-89 | the installed tables do not depend on the order the map yields its ids in |
| Protocol.SameIdsSameTables | src/main/java/net/raphimc/viacosmicreach/protocol/CosmicReachProtocol.java:89 | two id lists with the same members build the same tables |
| Protocol.OnTransaction | src/main/java/net/raphimc/viacosmicreach/protocol/CosmicReachProtocol.java:91-94 | becomes a ping carrying the counter, parks the upstream id under it and changes nothing else |
| Protocol.OnDisconnect | src/main/java/net/raphimc/viacosmicreach/protocol/CosmicReachProtocol.java:95-118 | cancelled for an untracked player; otherwise removes its entity, announces the departure, removes it from the tab list and stops tracking it |
| Protocol.OnPlayer | src/main/java/net/raphimc/viacosmicreach/protocol/CosmicReachProtocol.java:119-161 | cancelled for a tracked player, so no id is spent; otherwise binds it and its account under the counter, advances the counter, and sends UUID(0, id), announcing the join only when it just joined |
| Protocol.OnMessage | src/main/java/net/raphimc/viacosmicreach/protocol/CosmicReachProtocol.java:162-173 | a chat line prefixed with `name> ` exactly when the sender is tracked, where a null text reads `null`; an untracked sender's text goes out as is, a null one as `stringToNbt(null)` |
| Protocol.OnPlayerPosition | src/main/java/net/raphimc/viacosmicreach/protocol/CosmicReachProtocol.java:174-208 | cancelled for an untracked player; the client's own position moves the tracker and becomes a player-position packet; anybody else becomes a teleport of its entity |
| Protocol.OnZone | src/main/java/net/raphimc/viacosmicreach/protocol/CosmicReachProtocol.java:209-216 | stores the zone's spawn point and announces the zone |
| Protocol.ColumnKeys | src/main/java/net/raphimc/viacosmicreach/protocol/CosmicReachProtocol.java:223-228 | exactly the chunks the column packet names |
| Protocol.MergeAll | src/main/java/net/raphimc/viacosmicreach/protocol/CosmicReachProtocol.java:223-229 | every chunk the packet names joins the dirty set, and no other |
| Protocol.MergeAllStep | src/main/java/net/raphimc/viacosmicreach/protocol/CosmicReachProtocol.java:223-229 | one more section changes only the slot it names |
| Protocol.MergeAllUntouched | src/main/java/net/raphimc/viacosmicreach/protocol/CosmicReachProtocol.java:223-229 | a slot the packet does not name is as before |
| Protocol.MergeAllLastWins | src/main/java/net/raphimc/viacosmicreach/protocol/CosmicReachProtocol.java:223-229 | a slot the packet names holds the section of its last entry |
| Protocol.MergeAllPreservesValid | src/main/java/net/raphimc/viacosmicreach/protocol/CosmicReachProtocol.java:223-229 | merging full sections keeps the chunk tracker valid |
| Protocol.OnChunkColumn | src/main/java/net/raphimc/viacosmicreach/protocol/CosmicReachProtocol.java:217-230 | cancelled after merging every section in order |
| Protocol.OnBlockReplace | src/main/java/net/raphimc/viacosmicreach/protocol/CosmicReachProtocol.java:231-239 | succeeds iff the block change does, and becomes a block update with the returned id |
| Protocol.IgnoredPacketsCancelled | src/main/java/net/raphimc/viacosmicreach/protocol/CosmicReachProtocol.java:240-263 | sound and container packets are cancelled without touching the session |
| Protocol.HandleClientbound | src/main/java/net/raphimc/viacosmicreach/protocol/CosmicReachProtocol.java:80-263 | each clientbound handler touches only its own store: packet tables only on sync, transactions only on a transaction, players only on player and disconnect, chunks only on column and block replace, the position only on a position, the zone spawn only on a zone |
| Protocol.TransformClientbound | src/main/java/net/raphimc/viacosmicreach/protocol/CosmicReachProtocol.java:497-503 | an unregistered id fails before any handler runs; otherwise the handler of the resolved packet runs |
| Protocol.ClientboundPreservesValid | src/main/java/net/raphimc/viacosmicreach/protocol/CosmicReachProtocol.java:80-263 | every clientbound handler keeps every store's invariant |
| Protocol.TransactionKeepsValid | src/main/java/net/raphimc/viacosmicreach/protocol/CosmicReachProtocol.java:91-94 | the transaction handler keeps the session valid |
| Protocol.DisconnectKeepsValid | src/main/java/net/raphimc/viacosmicreach/protocol/CosmicReachProtocol.java:95-118 | the disconnect handler keeps the session valid |
| Protocol.PlayerKeepsValid | src/main/java/net/raphimc/viacosmicreach/protocol/CosmicReachProtocol.java:119-161 | the player handler keeps the session valid |
| Protocol.PlayerPositionKeepsValid | src/main/java/net/raphimc/viacosmicreach/protocol/CosmicReachProtocol.java:174-208 | the position handler keeps the session valid |
| Protocol.BlockReplaceKeepsValid | src/main/java/net/raphimc/viacosmicreach/protocol/CosmicReachProtocol.java:231-239 | the block-replace handler keeps the session valid |
| Protocol.OnHello | src/main/java/net/raphimc/viacosmicreach/protocol/CosmicReachProtocol.java:266-370 | creates the offline account, makes it the client account and tracks it under the counter, sends the login upstream, and sends exactly: game profile, configuration, join game with that id, tab list, player info, spawn position, chunk-wait start; packet tables, transactions, chunks, position and zone are unchanged |
| Protocol.OnChat | src/main/java/net/raphimc/viacosmicreach/protocol/CosmicReachProtocol.java:383-398 | forwards the message with a null sender and echoes it prefixed with the client's name; fails without a client account |
| Protocol.OnChatCommand | src/main/java/net/raphimc/viacosmicreach/protocol/CosmicReachProtocol.java:399-414 | only `respawn` does something: it teleports to the zone's spawn point, failing without a zone |
| Protocol.Report | src/main/java/net/raphimc/viacosmicreach/protocol/CosmicReachProtocol.java:415-446 | the movement packets become the client's position report, plus the chunk-cache centre when announced; fails without a client account |
| Protocol.OnPong | src/main/java/net/raphimc/viacosmicreach/protocol/CosmicReachProtocol.java:447-450 | succeeds iff the ping id is pending, and forwards the parked upstream id |
| Protocol.HandleServerbound | src/main/java/net/raphimc/viacosmicreach/protocol/CosmicReachProtocol.java:265-462 | no serverbound handler touches the packet tables, chunks or zone spawn; only a pong touches transactions, only hello touches players, and only movement touches the position |
| Protocol.NullMessageFromPlayer | src/main/java/net/raphimc/viacosmicreach/protocol/CosmicReachProtocol.java:168 | a null message from a tracked player is shown as `name> null` |
| Protocol.ServerboundPreservesValid | src/main/java/net/raphimc/viacosmicreach/protocol/CosmicReachProtocol.java:265-462 | every serverbound handler keeps every store's invariant, while the entity counter is below the largest int |
| Protocol.HelloKeepsValid | src/main/java/net/raphimc/viacosmicreach/protocol/CosmicReachProtocol.java:266-370 | below the largest entity id the hello handler succeeds and keeps the session valid |
| Protocol.PongKeepsValid | src/main/java/net/raphimc/viacosmicreach/protocol/CosmicReachProtocol.java:447-450 | answering a pending ping keeps the session valid |
| Protocol.TransformServerbound | src/main/java/net/raphimc/viacosmicreach/protocol/CosmicReachProtocol.java:497-508 | the handler runs first; a forwarded packet then needs a registered id, which it is sent under |
| Protocol.TransactionRoundTrip | src/main/java/net/raphimc/viacosmicreach/protocol/CosmicReachProtocol.java:91-94 | a ping answered by its pong returns the upstream transaction id under the registered id and forgets the ping |
| Protocol.PlayerRejoinGetsNewId | src/main/java/net/raphimc/viacosmicreach/protocol/CosmicReachProtocol.java:117-136 | a tracked player announced again is cancelled; after a disconnect it comes back under a larger id |

## Left out

- Netty buffers, channel contexts and packet sending: every codec works on byte sequences, and
  every handler returns its packets instead of sending them.
- The Minecraft packets' byte layouts and their fixed contents are not spelled out:
  - registry and tag data;
  - login flags;
  - tab-list text;
  - the constant fields of entity packets.
- `TextUtil.stringToNbt` is not modelled: chat texts are plain strings, and the chat made from a
  null message text is the opaque packet `NullSystemChat`.
- The zone announcement carries the zone id and spawn point instead of the formatted text.
- Floats and doubles are exact reals. The `double` to `float` casts, single-precision rounding,
  NaN and the infinities are not modelled; `(int)` casts are truncation with saturation.
- UTF-8: a string is its byte sequence in `StringType`.
- The JSON and NBT resource loading of `CosmicReachMappingData` is not modelled: the load takes
  the three lists as parameters. The same holds for:
  - the dimension edits;
  - the plains-biome registry lookup (the biome id is a parameter);
  - `onMappingDataLoaded`.
- Minecraft's `BlockState.fromString` is not part of this model: a downstream state is its text.
- The savelib readers (single and layered block data, block-light layers) and the save-format
  tag constants are parameters of `ChunkSectionType.Read`, with whole grids as their results.
- The CRBin block-entity payload is skipped, as in the source.
- The chunk key is a pair of coordinates instead of the packed long.
- ViaVersion's chunk and light classes are not part of this model. `ChunkTracker.RemapSection` gives every present section a block-light array, all zeros without upstream block light, so its block-light mask bit is always set.
- `ChunkTracker.Tick`: the iteration order of the `HashSet` is not modelled; any order is allowed.
- `KeepAliveTask`, `ChunkTrackerTickTask` and `register` are not modelled: they are timer
  scheduling on the event loop.
- The handshake, login-acknowledged and configuration handlers only cancel and change the
  protocol state; protocol states are not modelled. The blanket cancellation of unregistered
  serverbound packets is modelled as "every other body is cancelled".
- `EntityTracker.AddPlayer`: on a refused entity id the source has already advanced the counter
  (`getAndIncrement` comes before the `put`); the error result carries no tracker, so that
  advance is not modelled. The exception ends the connection in the source.
- `Protocol.OnHello`: when `addPlayer` throws, the source has already made the new account the
  client account; the error result carries no session, so that state is not modelled.
- `Protocol.OnChunkColumn`: when a later section fails to read, the sections before it are
  already merged in the source; the error result carries no session, so those merges are not
  modelled.
- `Protocol.OnPlayer`: when `addPlayer` throws, the source has already sent the "has joined the
  game." chat for a player that just joined; the error result carries no packets, so that chat is
  not modelled.
- `Protocol.Report`: without a client account `writePlayerPosition` throws after `updatePosition`
  has already stored the new coordinates and chunk and possibly sent the chunk-cache centre; the
  error result carries no session and no packets, so the stored position and the sent centre are
  not modelled.
- `Protocol.ClientboundPreservesValid`: requires the transaction and entity counters to be below
  the largest int. Past that point the source wraps around and can reuse ids.
- `Protocol.ServerboundPreservesValid`: requires the entity counter to be below the largest int,
  for the same reason.
- `Protocol.TransformClientbound`: a body that does not match the resolved packet kind fails
  (`WrongBody`). In the source the body is read by the resolved kind's handler, so this case
  stands for reading a differently shaped packet.
- A null block state in `BLOCK_REPLACE` would throw in `fromString`; the model takes a string.
- `HashBiMap`'s refusal of an entity id still bound to another player is modelled. The account
  map's refusal of one `Account` object shared by two unique ids is not: accounts are values.
- `AtomicInteger` overflow is modelled by `Bytes.Wrap32`. The invariants of the two counters
  assume they have not yet reached the largest int.
- The `ViaCosmicReach` platform, plugin and version classes, and the `JsonObjectType`,
  `AccountType`, `ZoneStorage` and `CosmicReachTypes` types, are not part of this model.
