/** The packets the upstream server sends, with their numeric ids and the server's class names. */
module ClientboundPackets {
  import opened Wrappers
  import PacketRegistry

  datatype Clientbound =
    | ProtocolSync | Transaction | Disconnect | Player | Message | PlayerPosition | Zone
    | ChunkColumn | BlockReplace | PlaySound2D | PlaySound3D | ContainerSync
    | BlockEntityContainerSync | BlockEntityScreen | BlockEntityData

  function Id(p: Clientbound): int {
    match p
    case ProtocolSync => 1
    case Transaction => 2
    case Disconnect => 4
    case Player => 5
    case Message => 6
    case PlayerPosition => 7
    case Zone => 8
    case ChunkColumn => 9
    case BlockReplace => 13
    case PlaySound2D => 14
    case PlaySound3D => 15
    case ContainerSync => 17
    case BlockEntityContainerSync => 18
    case BlockEntityScreen => 19
    case BlockEntityData => 20
  }

  const PACKAGE: string := "finalforeach.cosmicreach.networking.netty.packets."

  /** The server class name is the package followed by a simple name unique to the packet. */
  function SimpleName(p: Clientbound): string {
    match p
    case ProtocolSync => "meta.ProtocolSyncPacket"
    case Transaction => "meta.TransactionPacket"
    case Disconnect => "meta.DisconnectPacket"
    case Player => "PlayerPacket"
    case Message => "MessagePacket"
    case PlayerPosition => "PlayerPositionPacket"
    case Zone => "ZonePacket"
    case ChunkColumn => "ChunkColumnPacket"
    case BlockReplace => "blocks.BlockReplacePacket"
    case PlaySound2D => "sounds.PlaySound2DPacket"
    case PlaySound3D => "sounds.PlaySound3DPacket"
    case ContainerSync => "ContainerSyncPacket"
    case BlockEntityContainerSync => "blocks.BlockEntityContainerSyncPacket"
    case BlockEntityScreen => "blocks.BlockEntityScreenPacket"
    case BlockEntityData => "blocks.BlockEntityDataPacket"
  }

  function ClassName(p: Clientbound): string {
    PACKAGE + SimpleName(p)
  }

  /** Every packet, in declaration order. */
  const ALL: seq<Clientbound> := [
    ProtocolSync, Transaction, Disconnect, Player, Message, PlayerPosition, Zone, ChunkColumn,
    BlockReplace, PlaySound2D, PlaySound3D, ContainerSync, BlockEntityContainerSync,
    BlockEntityScreen, BlockEntityData]

  /** The position of a packet in the declaration order. */
  function Ordinal(p: Clientbound): (i: nat)
    ensures i < |ALL| && ALL[i] == p
  {
    match p
    case ProtocolSync => 0
    case Transaction => 1
    case Disconnect => 2
    case Player => 3
    case Message => 4
    case PlayerPosition => 5
    case Zone => 6
    case ChunkColumn => 7
    case BlockReplace => 8
    case PlaySound2D => 9
    case PlaySound3D => 10
    case ContainerSync => 11
    case BlockEntityContainerSync => 12
    case BlockEntityScreen => 13
    case BlockEntityData => 14
  }

  /** The declaration order lists no packet twice. */
  lemma OrdinalOfDeclared()
    ensures forall i :: 0 <= i < |ALL| ==> Ordinal(ALL[i]) == i
  {
  }

  lemma IdsDiffer(a: Clientbound, b: Clientbound)
    requires a != b
    ensures Id(a) != Id(b)
  {
  }

  lemma SimpleNamesDiffer(a: Clientbound, b: Clientbound)
    requires a != b
    ensures SimpleName(a) != SimpleName(b)
  {
  }

  lemma ClassNamesDiffer(a: Clientbound, b: Clientbound)
    requires a != b
    ensures ClassName(a) != ClassName(b)
  {
    SimpleNamesDiffer(a, b);
    assert ClassName(a)[|PACKAGE|..] == SimpleName(a);
    assert ClassName(b)[|PACKAGE|..] == SimpleName(b);
  }

  /** The declaration order assigns ids and class names without clashes, all ids inside the
      128-slot registry. */
  lemma Declared()
    ensures PacketRegistry.IdsInRange(ALL, Id)
    ensures PacketRegistry.IdsDistinct(ALL, Id)
    ensures PacketRegistry.ClassNamesDistinct(ALL, ClassName)
  {
    OrdinalOfDeclared();
    forall i, j | 0 <= i < j < |ALL| ensures Id(ALL[i]) != Id(ALL[j]) && ClassName(ALL[i]) != ClassName(ALL[j]) {
      assert Ordinal(ALL[i]) != Ordinal(ALL[j]);
      IdsDiffer(ALL[i], ALL[j]);
      ClassNamesDiffer(ALL[i], ALL[j]);
    }
  }

  /** The declared ids in declaration order. */
  lemma DeclaredIds()
    ensures |ALL| == 15
    ensures forall i :: 0 <= i < |ALL| ==> Id(ALL[i]) == [1, 2, 4, 5, 6, 7, 8, 9, 13, 14, 15, 17, 18, 19, 20][i]
  {
  }

  /** `getPacket(int)`. */
  function GetPacket(id: int): (r: Option<Clientbound>)
    ensures r.Some? ==> Id(r.value) == id
    ensures r.None? <==> forall p :: Id(p) != id
  {
    Declared();
    var r := PacketRegistry.ById(ALL, Id, id);
    assert r.None? ==> forall p :: Id(p) != id by {
      if r.None? {
        forall p ensures Id(p) != id {
          assert ALL[Ordinal(p)] == p;
        }
      }
    }
    r
  }

  /** `getPacket(String)`. */
  function GetPacketByClass(name: string): (r: Option<Clientbound>)
    ensures r.None? <==> forall p :: ClassName(p) != name
  {
    Declared();
    var r := PacketRegistry.ByClass(ALL, Id, ClassName, name);
    assert r.None? ==> forall p :: ClassName(p) != name by {
      if r.None? {
        forall p ensures ClassName(p) != name {
          assert ALL[Ordinal(p)] == p;
        }
      }
    }
    r
  }

  /** Each packet is found again by its own id and by its own class name. */
  lemma LookupsFindDeclared(p: Clientbound)
    ensures GetPacket(Id(p)) == Some(p)
    ensures GetPacketByClass(ClassName(p)) == Some(p)
  {
    Declared();
    var i := Ordinal(p);
    PacketRegistry.ByIdOfDeclared(ALL, Id, i);
    PacketRegistry.ByClassOfDeclared(ALL, Id, ClassName, i);
  }
}
