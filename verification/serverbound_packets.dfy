/** The packets the proxy sends to the upstream server, with their numeric ids and the server's class names. */
module ServerboundPackets {
  import opened Wrappers
  import PacketRegistry

  datatype Serverbound =
    | Transaction | Login | Message | PlayerPosition | PlaceBlock | BreakBlock | InteractBlock
    | SlotInteract | ContainerSync | BlockEntityContainerSync

  function Id(p: Serverbound): int {
    match p
    case Transaction => 2
    case Login => 3
    case Message => 6
    case PlayerPosition => 7
    case PlaceBlock => 10
    case BreakBlock => 11
    case InteractBlock => 12
    case SlotInteract => 16
    case ContainerSync => 17
    case BlockEntityContainerSync => 18
  }

  const PACKAGE: string := "finalforeach.cosmicreach.networking.netty.packets."

  /** The server class name is the package followed by a simple name unique to the packet. */
  function SimpleName(p: Serverbound): string {
    match p
    case Transaction => "meta.TransactionPacket"
    case Login => "meta.LoginPacket"
    case Message => "MessagePacket"
    case PlayerPosition => "PlayerPositionPacket"
    case PlaceBlock => "blocks.PlaceBlockPacket"
    case BreakBlock => "blocks.BreakBlockPacket"
    case InteractBlock => "blocks.InteractBlockPacket"
    case SlotInteract => "SlotInteractPacket"
    case ContainerSync => "ContainerSyncPacket"
    case BlockEntityContainerSync => "blocks.BlockEntityContainerSyncPacket"
  }

  function ClassName(p: Serverbound): string {
    PACKAGE + SimpleName(p)
  }

  /** Every packet, in declaration order. */
  const ALL: seq<Serverbound> := [
    Transaction, Login, Message, PlayerPosition, PlaceBlock, BreakBlock, InteractBlock,
    SlotInteract, ContainerSync, BlockEntityContainerSync]

  /** The position of a packet in the declaration order. */
  function Ordinal(p: Serverbound): (i: nat)
    ensures i < |ALL| && ALL[i] == p
  {
    match p
    case Transaction => 0
    case Login => 1
    case Message => 2
    case PlayerPosition => 3
    case PlaceBlock => 4
    case BreakBlock => 5
    case InteractBlock => 6
    case SlotInteract => 7
    case ContainerSync => 8
    case BlockEntityContainerSync => 9
  }

  /** The declaration order lists no packet twice. */
  lemma OrdinalOfDeclared()
    ensures forall i :: 0 <= i < |ALL| ==> Ordinal(ALL[i]) == i
  {
  }

  lemma IdsDiffer(a: Serverbound, b: Serverbound)
    requires a != b
    ensures Id(a) != Id(b)
  {
  }

  lemma SimpleNamesDiffer(a: Serverbound, b: Serverbound)
    requires a != b
    ensures SimpleName(a) != SimpleName(b)
  {
  }

  lemma ClassNamesDiffer(a: Serverbound, b: Serverbound)
    requires a != b
    ensures ClassName(a) != ClassName(b)
  {
    SimpleNamesDiffer(a, b);
    assert ClassName(a)[|PACKAGE|..] == SimpleName(a);
    assert ClassName(b)[|PACKAGE|..] == SimpleName(b);
  }

  /** The declaration order assigns ids and class names without clashes, all ids inside the
      128-slot registry. */
  lemma Declared()
    ensures PacketRegistry.IdsInRange(ALL, Id)
    ensures PacketRegistry.IdsDistinct(ALL, Id)
    ensures PacketRegistry.ClassNamesDistinct(ALL, ClassName)
  {
    OrdinalOfDeclared();
    forall i, j | 0 <= i < j < |ALL| ensures Id(ALL[i]) != Id(ALL[j]) && ClassName(ALL[i]) != ClassName(ALL[j]) {
      assert Ordinal(ALL[i]) != Ordinal(ALL[j]);
      IdsDiffer(ALL[i], ALL[j]);
      ClassNamesDiffer(ALL[i], ALL[j]);
    }
  }

  /** The declared ids in declaration order. */
  lemma DeclaredIds()
    ensures |ALL| == 10
    ensures forall i :: 0 <= i < |ALL| ==> Id(ALL[i]) == [2, 3, 6, 7, 10, 11, 12, 16, 17, 18][i]
  {
  }

  /** `getPacket(int)`. */
  function GetPacket(id: int): (r: Option<Serverbound>)
    ensures r.Some? ==> Id(r.value) == id
    ensures r.None? <==> forall p :: Id(p) != id
  {
    Declared();
    var r := PacketRegistry.ById(ALL, Id, id);
    assert r.None? ==> forall p :: Id(p) != id by {
      if r.None? {
        forall p ensures Id(p) != id {
          assert ALL[Ordinal(p)] == p;
        }
      }
    }
    r
  }

  /** `getPacket(String)`. */
  function GetPacketByClass(name: string): (r: Option<Serverbound>)
    ensures r.None? <==> forall p :: ClassName(p) != name
  {
    Declared();
    var r := PacketRegistry.ByClass(ALL, Id, ClassName, name);
    assert r.None? ==> forall p :: ClassName(p) != name by {
      if r.None? {
        forall p ensures ClassName(p) != name {
          assert ALL[Ordinal(p)] == p;
        }
      }
    }
    r
  }

  /** Each packet is found again by its own id and by its own class name. */
  lemma LookupsFindDeclared(p: Serverbound)
    ensures GetPacket(Id(p)) == Some(p)
    ensures GetPacketByClass(ClassName(p)) == Some(p)
  {
    Declared();
    var i := Ordinal(p);
    PacketRegistry.ByIdOfDeclared(ALL, Id, i);
    PacketRegistry.ByClassOfDeclared(ALL, Id, ClassName, i);
  }
}
