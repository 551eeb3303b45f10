/** The per-connection packet id tables: which clientbound packet an upstream id denotes, and
    which id a serverbound packet is sent under. They start from the declared ids and can be
    replaced by the table the server announces at login. */
module ProtocolStorage {
  import opened Wrappers
  import CB = ClientboundPackets
  import SB = ServerboundPackets

  datatype StorageError =
    | MissingPacket(id: int)
    | NoClientboundPacket(id: int)
    | NoServerboundPacket(packet: SB.Serverbound)

  datatype Storage = Storage(clientbound: map<int, CB.Clientbound>, serverbound: map<SB.Serverbound, int>)

  /** The default constructor: every declared packet under its declared id. */
  function Default(): (s: Storage)
    ensures forall p :: CB.Id(p) in s.clientbound && s.clientbound[CB.Id(p)] == p
    ensures forall id :: id in s.clientbound ==> CB.Id(s.clientbound[id]) == id
    ensures forall p :: p in s.serverbound && s.serverbound[p] == SB.Id(p)
  {
    var cb := map p: CB.Clientbound | true :: CB.Id(p) := p;
    assert forall p :: CB.Id(p) in cb && cb[CB.Id(p)] == p by {
      forall p ensures CB.Id(p) in cb && cb[CB.Id(p)] == p {
        CB.LookupsFindDeclared(p);
        forall q | CB.Id(q) == CB.Id(p) ensures q == p {
          CB.LookupsFindDeclared(q);
        }
      }
    }
    Storage(cb, map p: SB.Serverbound | true :: SB.Id(p))
  }

  /** One entry of the announced table: the server's numeric id registers the clientbound
      packet and the serverbound packet declared with that id, whichever exist; an id that
      neither direction declares is refused. */
  function SyncStep(s: Storage, id: int): (r: Result<Storage, StorageError>)
    ensures r.Ok? <==> Known(id)
  {
    var cb := CB.GetPacket(id);
    var sb := SB.GetPacket(id);
    if cb.None? && sb.None? then Err(MissingPacket(id))
    else
      var clientbound := if cb.Some? then s.clientbound[id := cb.value] else s.clientbound;
      var serverbound := if sb.Some? then s.serverbound[sb.value := id] else s.serverbound;
      Ok(Storage(clientbound, serverbound))
  }

  /** The id is declared by at least one direction. */
  predicate Known(id: int) {
    CB.GetPacket(id).Some? || SB.GetPacket(id).Some?
  }

  /** The constructor taking the announced table, given as the ids of its entries in
      iteration order; the names are never consulted. */
  function Synced(ids: seq<int>): (r: Result<Storage, StorageError>)
    ensures r.Ok? <==> forall i :: 0 <= i < |ids| ==> Known(ids[i])
  {
    if |ids| == 0 then Ok(Storage(map[], map[]))
    else
      var init := ids[..|ids| - 1];
      var last := ids[|ids| - 1];
      AllKnownSnoc(ids, init);
      match Synced(init)
      case Err(e) => Err(e)
      case Ok(s) => SyncStep(s, last)
  }

  /** Every id of a non-empty list is known iff every id of its prefix and its last id are. */
  lemma AllKnownSnoc(ids: seq<int>, init: seq<int>)
    requires |ids| > 0 && init == ids[..|ids| - 1]
    ensures (forall i :: 0 <= i < |ids| ==> Known(ids[i])) <==>
              (forall i :: 0 <= i < |init| ==> Known(init[i])) && Known(ids[|ids| - 1])
  {
    AllSnoc(Known, ids, init);
  }

  lemma AllSnoc<T>(f: T -> bool, xs: seq<T>, init: seq<T>)
    requires |xs| > 0 && init == xs[..|xs| - 1]
    ensures (forall i :: 0 <= i < |xs| ==> f(xs[i])) <==>
              (forall i :: 0 <= i < |init| ==> f(init[i])) && f(xs[|xs| - 1])
  {
    assert forall i :: 0 <= i < |init| ==> init[i] == xs[i];
  }

  /** An announced table registers a clientbound packet for exactly the listed ids that
      the clientbound direction declares, each under its declared packet. */
  lemma {:induction false} SyncedClientbound(ids: seq<int>)
    requires Synced(ids).Ok?
    ensures var cb := Synced(ids).value.clientbound;
            forall id :: id in cb <==> id in ids && CB.GetPacket(id).Some?
    ensures var cb := Synced(ids).value.clientbound;
            forall id :: id in cb ==> CB.GetPacket(id) == Some(cb[id])
  {
    if |ids| > 0 {
      var init := ids[..|ids| - 1];
      assert forall id :: id in ids <==> id in init || id == ids[|ids| - 1];
      SyncedClientbound(init);
    }
  }

  /** An announced table registers a serverbound packet exactly when its declared id is
      listed, and always under that id. */
  lemma {:induction false} SyncedServerbound(ids: seq<int>)
    requires Synced(ids).Ok?
    ensures var sb := Synced(ids).value.serverbound;
            forall p :: p in sb <==> SB.Id(p) in ids
    ensures var sb := Synced(ids).value.serverbound;
            forall p :: p in sb ==> sb[p] == SB.Id(p)
  {
    if |ids| > 0 {
      var init := ids[..|ids| - 1];
      var last := ids[|ids| - 1];
      assert forall id :: id in ids <==> id in init || id == last;
      SyncedServerbound(init);
      forall p ensures SB.Id(p) == last <==> SB.GetPacket(last) == Some(p) {
        SB.LookupsFindDeclared(p);
      }
    }
  }

  /** Every entry of an announced table agrees with the declared ids: the table can leave
      packets out but never moves one to another id. */
  lemma SyncedAgreesWithDeclared(ids: seq<int>)
    requires Synced(ids).Ok?
    ensures var s := Synced(ids).value;
            && (forall id :: id in s.clientbound ==> CB.Id(s.clientbound[id]) == id)
            && (forall p :: p in s.serverbound ==> s.serverbound[p] == SB.Id(p))
  {
    SyncedClientbound(ids);
    SyncedServerbound(ids);
  }

  /** `getClientboundPacket`. */
  function ClientboundPacket(s: Storage, id: int): (r: Result<CB.Clientbound, StorageError>)
    ensures r.Ok? <==> id in s.clientbound
  {
    if id !in s.clientbound then Err(NoClientboundPacket(id)) else Ok(s.clientbound[id])
  }

  /** `getServerboundPacketId`. */
  function ServerboundPacketId(s: Storage, p: SB.Serverbound): (r: Result<int, StorageError>)
    ensures r.Ok? <==> p in s.serverbound
  {
    if p !in s.serverbound then Err(NoServerboundPacket(p)) else Ok(s.serverbound[p])
  }

  /** The default tables resolve every declared id to its packet and back. */
  lemma DefaultResolvesDeclared(cb: CB.Clientbound, sb: SB.Serverbound)
    ensures ClientboundPacket(Default(), CB.Id(cb)) == Ok(cb)
    ensures ServerboundPacketId(Default(), sb) == Ok(SB.Id(sb))
  {
  }

  /** An announced table listing every declared id of both directions gives the default
      tables. */
  lemma SyncedAllIsDefault(ids: seq<int>)
    requires forall p :: CB.Id(p) in ids
    requires forall p :: SB.Id(p) in ids
    requires forall i :: 0 <= i < |ids| ==> Known(ids[i])
    ensures Synced(ids) == Ok(Default())
  {
    var s := Synced(ids).value;
    SyncedClientbound(ids);
    SyncedServerbound(ids);
    SameClientbound(ids, s.clientbound);
    SameServerbound(ids, s.serverbound);
  }

  lemma SameServerbound(ids: seq<int>, sb: map<SB.Serverbound, int>)
    requires forall p :: p in sb <==> SB.Id(p) in ids
    requires forall p :: p in sb ==> sb[p] == SB.Id(p)
    requires forall p :: SB.Id(p) in ids
    ensures sb == Default().serverbound
  {
  }

  lemma SameClientbound(ids: seq<int>, sc: map<int, CB.Clientbound>)
    requires forall id :: id in sc <==> id in ids && CB.GetPacket(id).Some?
    requires forall id :: id in sc ==> CB.GetPacket(id) == Some(sc[id])
    requires forall p :: CB.Id(p) in ids
    ensures sc == Default().clientbound
  {
    var dc := Default().clientbound;
    DefaultInSynced(ids, sc);
    SyncedInDefault(ids, sc);
    assert forall id :: id in sc ==> id in dc;
    MapsEqual(sc, dc);
  }

  lemma MapsEqual<K, V>(a: map<K, V>, b: map<K, V>)
    requires forall k :: k in a ==> k in b
    requires forall k :: k in b ==> k in a && a[k] == b[k]
    ensures a == b
  {
  }

  lemma DefaultInSynced(ids: seq<int>, sc: map<int, CB.Clientbound>)
    requires forall id :: id in sc <==> id in ids && CB.GetPacket(id).Some?
    requires forall id :: id in sc ==> CB.GetPacket(id) == Some(sc[id])
    requires forall p :: CB.Id(p) in ids
    ensures forall id :: id in Default().clientbound ==> id in sc && sc[id] == Default().clientbound[id]
  {
    var dc := Default().clientbound;
    forall id | id in dc ensures id in sc && sc[id] == dc[id] {
      CB.LookupsFindDeclared(dc[id]);
    }
  }

  lemma SyncedInDefault(ids: seq<int>, sc: map<int, CB.Clientbound>)
    requires forall id :: id in sc ==> CB.GetPacket(id) == Some(sc[id])
    ensures forall id :: id in sc ==> id in Default().clientbound
  {
    forall id | id in sc ensures id in Default().clientbound {
      assert CB.Id(sc[id]) == id;
    }
  }

  /** An announced table whose ids all occur in an accepted one is accepted too. */
  lemma SyncedOkWhenCovered(ids1: seq<int>, ids2: seq<int>)
    requires Synced(ids2).Ok?
    requires forall id :: id in ids1 ==> id in ids2
    ensures Synced(ids1).Ok?
  {
    forall i | 0 <= i < |ids1| ensures Known(ids1[i]) {
      assert ids1[i] in ids1;
      var k :| 0 <= k < |ids2| && ids2[k] == ids1[i];
    }
  }

  /** The tables built from an announced table depend only on which ids it lists, not on
      their order or repetition. */
  lemma SyncedOrderIrrelevant(ids1: seq<int>, ids2: seq<int>)
    requires Synced(ids1).Ok? && Synced(ids2).Ok?
    requires forall id :: id in ids1 <==> id in ids2
    ensures Synced(ids1) == Synced(ids2)
  {
    SyncedClientbound(ids1);
    SyncedClientbound(ids2);
    SyncedServerbound(ids1);
    SyncedServerbound(ids2);
    SameSyncedClientbound(ids1, ids2, Synced(ids1).value.clientbound, Synced(ids2).value.clientbound);
    SameSyncedServerbound(ids1, ids2, Synced(ids1).value.serverbound, Synced(ids2).value.serverbound);
  }

  lemma SameSyncedClientbound(ids1: seq<int>, ids2: seq<int>, c1: map<int, CB.Clientbound>, c2: map<int, CB.Clientbound>)
    requires forall id :: id in c1 <==> id in ids1 && CB.GetPacket(id).Some?
    requires forall id :: id in c1 ==> CB.GetPacket(id) == Some(c1[id])
    requires forall id :: id in c2 <==> id in ids2 && CB.GetPacket(id).Some?
    requires forall id :: id in c2 ==> CB.GetPacket(id) == Some(c2[id])
    requires forall id :: id in ids1 <==> id in ids2
    ensures c1 == c2
  {
    forall id ensures id in c1 <==> id in c2 {
      assert id in ids1 <==> id in ids2;
    }
    forall id | id in c1 ensures c1[id] == c2[id] {
      assert Some(c1[id]) == CB.GetPacket(id) == Some(c2[id]);
    }
  }

  lemma SameSyncedServerbound(ids1: seq<int>, ids2: seq<int>, s1: map<SB.Serverbound, int>, s2: map<SB.Serverbound, int>)
    requires forall p :: p in s1 <==> SB.Id(p) in ids1
    requires forall p :: p in s1 ==> s1[p] == SB.Id(p)
    requires forall p :: p in s2 <==> SB.Id(p) in ids2
    requires forall p :: p in s2 ==> s2[p] == SB.Id(p)
    requires forall id :: id in ids1 <==> id in ids2
    ensures s1 == s2
  {
  }
}
