/** The players the proxy knows about: each tracked player's unique id is bound to a
    downstream entity id (a bidirectional map) and to its account. Entity ids come from a
    counter starting at 0. */
module EntityTracker {
  import opened Wrappers
  import opened Bytes
  import opened Account

  datatype TrackerError =
    | EntityIdTaken(entityId: int)
    | UnknownPlayer(uniqueId: string)

  /** `ids` and `owners` are the two directions of the player map. */
  datatype Tracker = Tracker(
    next: int,
    client: Option<Account>,
    ids: map<string, int>,
    owners: map<int, string>,
    accounts: map<string, Account>)

  const INITIAL: Tracker := Tracker(0, None, map[], map[], map[])

  /** The two directions are inverse to each other, accounts are stored under their own
      unique id for exactly the tracked players, and every entity id was handed out before
      the counter. */
  predicate Valid(t: Tracker) {
    && IsInt32(t.next) && 0 <= t.next
    && (forall u :: u in t.ids ==> t.ids[u] in t.owners && t.owners[t.ids[u]] == u)
    && (forall e :: e in t.owners ==> t.owners[e] in t.ids && t.ids[t.owners[e]] == e)
    && t.accounts.Keys == t.ids.Keys
    && (forall u :: u in t.accounts ==> t.accounts[u].uniqueId == u)
    && (forall u :: u in t.ids ==> 0 <= t.ids[u] < t.next)
  }

  /** `setClientPlayerAccount`. */
  function SetClient(t: Tracker, a: Option<Account>): (r: Tracker)
    ensures r.client == a
    ensures r.ids == t.ids && r.owners == t.owners && r.accounts == t.accounts && r.next == t.next
  {
    t.(client := a)
  }

  /** `addPlayer`: takes the counter as entity id and binds the account's unique id to it,
      replacing an earlier binding of the same unique id. The bidirectional map refuses an
      entity id already bound to another unique id. */
  function AddPlayer(t: Tracker, a: Account): (r: Result<(int, Tracker), TrackerError>)
    ensures r.Err? <==> t.next in t.owners && t.owners[t.next] != a.uniqueId
    ensures r.Ok? ==> r.value.0 == t.next
    ensures r.Ok? ==> var t1 := r.value.1;
              && t1.ids == t.ids[a.uniqueId := t.next]
              && t1.accounts == t.accounts[a.uniqueId := a]
              && t1.client == t.client
              && t1.next == Wrap32(t.next + 1)
  {
    var id := t.next;
    var u := a.uniqueId;
    if id in t.owners && t.owners[id] != u then Err(EntityIdTaken(id))
    else
      var owners := if u in t.ids then t.owners - {t.ids[u]} else t.owners;
      Ok((id, Tracker(Wrap32(id + 1), t.client, t.ids[u := id], owners[id := u], t.accounts[u := a])))
  }

  /** `removePlayer`: forgets the unique id in both maps; unknown ids are ignored. */
  function RemovePlayer(t: Tracker, u: string): (r: Tracker)
    ensures u !in r.ids && u !in r.accounts
    ensures forall v :: v != u ==> (v in r.ids <==> v in t.ids)
    ensures r.next == t.next && r.client == t.client
  {
    var owners := if u in t.ids then t.owners - {t.ids[u]} else t.owners;
    t.(ids := t.ids - {u}, owners := owners, accounts := t.accounts - {u})
  }

  /** `hasPlayer`. */
  function HasPlayer(t: Tracker, u: string): (b: bool)
    ensures Valid(t) ==> (b <==> u in t.accounts)
  {
    u in t.ids
  }

  /** `getEntityIdByUniquePlayerId`: unboxing the missing value fails. */
  function EntityIdOf(t: Tracker, u: string): (r: Result<int, TrackerError>)
    ensures r.Ok? <==> HasPlayer(t, u)
    ensures r.Ok? ==> r.value == t.ids[u]
  {
    if u in t.ids then Ok(t.ids[u]) else Err(UnknownPlayer(u))
  }

  /** `getUniquePlayerIdByEntityId`: the inverse view of the player map. */
  function UniqueIdOf(t: Tracker, entityId: int): (r: Option<string>)
    ensures Valid(t) ==> (r.Some? <==> exists u :: u in t.ids && t.ids[u] == entityId)
    ensures Valid(t) && r.Some? ==> HasPlayer(t, r.value) && t.ids[r.value] == entityId
  {
    if entityId in t.owners then Some(t.owners[entityId]) else None
  }

  /** `getAccountByUniquePlayerId`. */
  function AccountOf(t: Tracker, u: string): (r: Option<Account>)
    ensures Valid(t) ==> (r.Some? <==> HasPlayer(t, u))
    ensures Valid(t) && r.Some? ==> r.value.uniqueId == u
  {
    if u in t.accounts then Some(t.accounts[u]) else None
  }

  lemma InitialValid()
    ensures Valid(INITIAL)
  {
  }

  /** Before the counter reaches the largest int, adding succeeds, keeps the tracker valid
      and returns an entity id no tracked player had. */
  lemma AddPlayerPreservesValid(t: Tracker, a: Account)
    requires Valid(t) && t.next < INT32_MAX
    ensures AddPlayer(t, a).Ok?
    ensures Valid(AddPlayer(t, a).value.1)
    ensures forall u :: u in t.ids ==> t.ids[u] != AddPlayer(t, a).value.0
  {
    assert t.next !in t.owners;
    assert Wrap32(t.next + 1) == t.next + 1;
  }

  lemma RemovePlayerPreservesValid(t: Tracker, u: string)
    requires Valid(t)
    ensures Valid(RemovePlayer(t, u))
  {
  }

  /** In a valid tracker the entity-id lookup and its inverse undo each other. */
  lemma LookupsInverse(t: Tracker, u: string, entityId: int)
    requires Valid(t)
    ensures EntityIdOf(t, u) == Ok(entityId) <==> UniqueIdOf(t, entityId) == Some(u)
  {
  }

  /** Adding a player who is already tracked gives it a new entity id and retires the old
      one: the old id no longer resolves to anybody. */
  lemma ReAddRetiresOldId(t: Tracker, a: Account)
    requires Valid(t) && t.next < INT32_MAX
    requires HasPlayer(t, a.uniqueId)
    ensures var old_id := t.ids[a.uniqueId];
            var t1 := AddPlayer(t, a).value.1;
            && AddPlayer(t, a).value.0 != old_id
            && UniqueIdOf(t1, old_id) == None
            && EntityIdOf(t1, a.uniqueId) == Ok(t.next)
  {
  }

  /** Removing a player makes both lookups miss. */
  lemma RemovedIsGone(t: Tracker, u: string)
    requires Valid(t) && HasPlayer(t, u)
    ensures EntityIdOf(RemovePlayer(t, u), u).Err?
    ensures UniqueIdOf(RemovePlayer(t, u), t.ids[u]) == None
    ensures AccountOf(RemovePlayer(t, u), u) == None
  {
  }

  /** After adding, every lookup finds the new player: it is tracked, its entity id is the
      returned one, its account is the one added and the id resolves back to it. */
  lemma AddPlayerLookups(t: Tracker, a: Account)
    requires Valid(t) && t.next < INT32_MAX
    ensures var (id, t1) := AddPlayer(t, a).value;
            && HasPlayer(t1, a.uniqueId)
            && EntityIdOf(t1, a.uniqueId) == Ok(id)
            && AccountOf(t1, a.uniqueId) == Some(a)
            && UniqueIdOf(t1, id) == Some(a.uniqueId)
  {
    AddPlayerPreservesValid(t, a);
  }

  /** Removing leaves every other player's bindings as they were. */
  lemma RemoveKeepsOthers(t: Tracker, u: string, v: string)
    requires Valid(t) && v != u
    ensures EntityIdOf(RemovePlayer(t, u), v) == EntityIdOf(t, v)
    ensures AccountOf(RemovePlayer(t, u), v) == AccountOf(t, v)
  {
  }

  /** The counter only grows, so a player removed and added again gets a larger id. */
  lemma RemoveThenAddLarger(t: Tracker, a: Account)
    requires Valid(t) && t.next < INT32_MAX && HasPlayer(t, a.uniqueId)
    ensures var t1 := RemovePlayer(t, a.uniqueId);
            AddPlayer(t1, a).Ok? && AddPlayer(t1, a).value.0 > t.ids[a.uniqueId]
  {
    RemovePlayerPreservesValid(t, a.uniqueId);
    AddPlayerPreservesValid(RemovePlayer(t, a.uniqueId), a);
  }
}
