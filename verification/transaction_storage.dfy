/** Pending keep-alive transactions: each upstream transaction id is parked under a fresh
    downstream ping id until the matching pong comes back. */
module TransactionStorage {
  import opened Wrappers
  import opened Bytes

  datatype TransactionError = NoTransaction(javaId: int)

  /** `next` is the AtomicInteger counter, `pending` maps ping ids to upstream ids. */
  datatype Transactions = Transactions(next: int, pending: map<int, int>)

  const INITIAL: Transactions := Transactions(1, map[])

  /** The counter is a positive Java int and every pending ping id was handed out before it. */
  predicate Valid(t: Transactions) {
    && IsInt32(t.next) && 1 <= t.next
    && forall id :: id in t.pending ==> 1 <= id < t.next
  }

  /** `createJavaTransactionId`: returns the counter, advances it (wrapping like a Java int)
      and parks the upstream id under the returned ping id. */
  function Create(t: Transactions, cosmicReachId: int): (r: (int, Transactions))
    ensures r.0 == t.next
    ensures r.0 in r.1.pending && r.1.pending[r.0] == cosmicReachId
    ensures forall id :: id != r.0 ==> (id in r.1.pending <==> id in t.pending)
    ensures forall id :: id != r.0 && id in t.pending ==> r.1.pending[id] == t.pending[id]
  {
    (t.next, Transactions(Wrap32(t.next + 1), t.pending[t.next := cosmicReachId]))
  }

  /** `getAndRemoveCosmicReachTransactionId`: fails for an unknown ping id, otherwise returns
      the parked upstream id and forgets it. */
  function GetAndRemove(t: Transactions, javaId: int): (r: Result<(int, Transactions), TransactionError>)
    ensures r.Err? <==> javaId !in t.pending
    ensures r.Ok? ==> r.value.0 == t.pending[javaId]
    ensures r.Ok? ==> r.value.1.next == t.next && javaId !in r.value.1.pending
    ensures r.Ok? ==> forall id :: id != javaId ==> (id in r.value.1.pending <==> id in t.pending)
    ensures r.Ok? ==> r.value.1.pending == t.pending - {javaId}
  {
    if javaId !in t.pending then Err(NoTransaction(javaId))
    else Ok((t.pending[javaId], Transactions(t.next, t.pending - {javaId})))
  }

  lemma InitialValid()
    ensures Valid(INITIAL)
  {
  }

  /** Creating keeps the storage valid until the counter reaches the largest int. */
  lemma CreatePreservesValid(t: Transactions, cosmicReachId: int)
    requires Valid(t) && t.next < INT32_MAX
    ensures Valid(Create(t, cosmicReachId).1)
  {
    assert Wrap32(t.next + 1) == t.next + 1;
  }

  /** A valid storage hands out an id not already pending, so answering it restores the
      pending map exactly. */
  lemma CreateThenAnswer(t: Transactions, cosmicReachId: int)
    requires Valid(t)
    ensures var (id, t1) := Create(t, cosmicReachId);
            GetAndRemove(t1, id) == Ok((cosmicReachId, Transactions(t1.next, t.pending)))
  {
    var (id, t1) := Create(t, cosmicReachId);
    assert id !in t.pending;
    assert t1.pending - {id} == t.pending;
  }

  /** An answered ping id cannot be answered again. */
  lemma AnswerOnce(t: Transactions, javaId: int)
    requires javaId in t.pending
    ensures GetAndRemove(GetAndRemove(t, javaId).value.1, javaId) == Err(NoTransaction(javaId))
  {
  }

  /** Ids are handed out consecutively from 1: the k-th creation on a fresh storage returns k. */
  lemma {:induction false} ConsecutiveIds(ids: seq<int>)
    requires |ids| < INT32_MAX
    ensures CreateAll(INITIAL, ids).next == |ids| + 1
    ensures forall k :: 1 <= k <= |ids| ==> k in CreateAll(INITIAL, ids).pending && CreateAll(INITIAL, ids).pending[k] == ids[k - 1]
  {
    if |ids| > 0 {
      var init := ids[..|ids| - 1];
      ConsecutiveIds(init);
      assert Wrap32(|ids| + 1) == |ids| + 1;
    }
  }

  /** Creates one transaction per upstream id, in order. */
  function CreateAll(t: Transactions, ids: seq<int>): Transactions {
    if |ids| == 0 then t
    else Create(CreateAll(t, ids[..|ids| - 1]), ids[|ids| - 1]).1
  }
}
