/** The lookup scheme both packet enums share: a 128-slot array filled by id in declaration
    order and a class-name -> id map filled the same way, so a later declaration overwrites an
    earlier one with the same key. */
module PacketRegistry {
  import opened Wrappers

  const REGISTRY_SIZE: int := 128

  /** The static initialiser stores every packet at its id, so every id must fit the array. */
  predicate IdsInRange<K>(all: seq<K>, id: K -> int) {
    forall i :: 0 <= i < |all| ==> 0 <= id(all[i]) < REGISTRY_SIZE
  }

  /** No two declared packets share an id. */
  predicate IdsDistinct<K>(all: seq<K>, id: K -> int) {
    forall i, j :: 0 <= i < j < |all| ==> id(all[i]) != id(all[j])
  }

  /** No two declared packets share a class name. */
  predicate ClassNamesDistinct<K>(all: seq<K>, className: K -> string) {
    forall i, j :: 0 <= i < j < |all| ==> className(all[i]) != className(all[j])
  }

  /** The last declared packet satisfying `p`, if any. */
  function Last<K>(all: seq<K>, p: K -> bool): (r: Option<K>)
    ensures r.Some? ==> exists i :: 0 <= i < |all| && all[i] == r.value && p(all[i])
    ensures r.None? <==> forall i :: 0 <= i < |all| ==> !p(all[i])
  {
    if |all| == 0 then None
    else if p(all[|all| - 1]) then Some(all[|all| - 1])
    else
      var r := Last(all[..|all| - 1], p);
      assert forall i :: 0 <= i < |all| - 1 ==> all[..|all| - 1][i] == all[i];
      r
  }

  /** `getPacket(int)`: nothing outside the array, otherwise the array slot. */
  function ById<K>(all: seq<K>, id: K -> int, n: int): (r: Option<K>)
    ensures r.Some? ==> 0 <= n < REGISTRY_SIZE && id(r.value) == n && r.value in all
    ensures r.None? <==> n < 0 || REGISTRY_SIZE <= n || forall i :: 0 <= i < |all| ==> id(all[i]) != n
  {
    if n < 0 || n >= REGISTRY_SIZE then None
    else Last(all, k => id(k) == n)
  }

  /** `getPacket(String)`: the class name's registered id, then that id's array slot. */
  function ByClass<K>(all: seq<K>, id: K -> int, className: K -> string, name: string): (r: Option<K>)
    requires IdsInRange(all, id)
    ensures r.None? <==> forall i :: 0 <= i < |all| ==> className(all[i]) != name
  {
    match Last(all, k => className(k) == name)
    case None => None
    case Some(k) =>
      var r := ById(all, id, id(k));
      assert r.Some?;
      r
  }

  /** With distinct ids, the array holds each declared packet at its id. */
  lemma ByIdOfDeclared<K>(all: seq<K>, id: K -> int, i: int)
    requires IdsInRange(all, id) && IdsDistinct(all, id)
    requires 0 <= i < |all|
    ensures ById(all, id, id(all[i])) == Some(all[i])
  {
    var r := ById(all, id, id(all[i]));
    var j :| 0 <= j < |all| && all[j] == r.value && id(all[j]) == id(all[i]);
    assert j == i;
  }

  /** With distinct ids and class names, each declared packet is found by its class name. */
  lemma ByClassOfDeclared<K>(all: seq<K>, id: K -> int, className: K -> string, i: int)
    requires IdsInRange(all, id) && IdsDistinct(all, id) && ClassNamesDistinct(all, className)
    requires 0 <= i < |all|
    ensures ByClass(all, id, className, className(all[i])) == Some(all[i])
  {
    var c := Last(all, k => className(k) == className(all[i]));
    var j :| 0 <= j < |all| && all[j] == c.value && className(all[j]) == className(all[i]);
    assert j == i;
    ByIdOfDeclared(all, id, i);
  }
}
