/** The process-wide block-state catalogs: the upstream catalog (descriptor -> index in the
    upstream block-state list), the downstream catalog (descriptor -> index in the downstream
    block-state list) and the upstream-index -> downstream-index cross-map, with the load-time
    checks that abort loading. Lookups that miss return -1, the maps' default return value. */
module MappingData {
  import opened Wrappers
  import opened BlockState

  const MISSING: int := -1

  /** A downstream block state. Its parser belongs to another library; it is taken as the
      identity on the descriptor text, which makes it injective. */
  datatype McBlockState = McBlockState(text: string)

  function McFromString(s: string): McBlockState {
    McBlockState(s)
  }

  datatype LoadError =
    | BadDescriptor(descriptor: string)
    | UnknownCosmicReachState(key: string)
    | UnknownMinecraftState(value: string)
    | DuplicateMapping(key: string)

  datatype Catalog = Catalog(
    cosmicReach: map<BlockState, int>,
    minecraft: map<McBlockState, int>,
    cross: map<int, int>,
    plainsBiome: int)

  /** `Object2IntMap.getInt` with default -1. */
  function GetInt<K(!new)>(m: map<K, int>, k: K): (r: int)
    ensures k !in m ==> r == MISSING
    ensures k in m ==> r == m[k]
  {
    if k in m then m[k] else MISSING
  }

  /** The index map of a list filled front to back: every key maps to the position of its
      last occurrence. */
  function Index<K(!new)>(keys: seq<K>): (m: map<K, int>)
    ensures forall k :: k in m <==> k in keys
    ensures forall k :: k in m ==> 0 <= m[k] < |keys| && keys[m[k]] == k
    ensures forall k, j :: k in m && m[k] < j < |keys| ==> keys[j] != k
  {
    if |keys| == 0 then map[]
    else
      var init := keys[..|keys| - 1];
      var m := Index(init);
      assert forall k :: k in keys <==> k in init || k == keys[|keys| - 1];
      m[keys[|keys| - 1] := |keys| - 1]
  }

  /** Distinct keys never share an index. */
  lemma IndexInjective<K(!new)>(keys: seq<K>, a: K, b: K)
    requires a in Index(keys) && b in Index(keys)
    requires Index(keys)[a] == Index(keys)[b]
    ensures a == b
  {
  }

  /** Parses every descriptor of a list; the first that fails aborts. */
  function ParseAll(descs: seq<string>): (r: Result<seq<BlockState>, LoadError>)
    ensures r.Ok? <==> forall i :: 0 <= i < |descs| ==> FromString(descs[i]).Ok?
    ensures r.Ok? ==> |r.value| == |descs| && forall i :: 0 <= i < |descs| ==> FromString(descs[i]) == Ok(r.value[i])
    ensures r.Err? ==> exists i :: 0 <= i < |descs| && FromString(descs[i]).Err? && r.error == BadDescriptor(descs[i])
                                  && forall j :: 0 <= j < i ==> FromString(descs[j]).Ok?
  {
    MapAll(d => FromString(d).MapFailure(_ => BadDescriptor(d)), descs)
  }

  /** One cross-map entry: its key, the key parsed as an upstream state, and its target. */
  datatype Entry = Entry(key: string, state: Result<BlockState, ParseError>, target: string)

  /** The downstream descriptors, parsed one by one. */
  function McParseAll(descs: seq<string>): (r: seq<McBlockState>)
    ensures |r| == |descs| && forall i :: 0 <= i < |descs| ==> r[i] == McFromString(descs[i])
  {
    seq(|descs|, i requires 0 <= i < |descs| => McFromString(descs[i]))
  }

  /** Parses the keys of the raw file entries. */
  function ToEntries(raw: seq<(string, string)>): (es: seq<Entry>)
    ensures |es| == |raw|
    ensures forall i :: 0 <= i < |raw| ==> es[i] == Entry(raw[i].0, FromString(raw[i].0), raw[i].1)
  {
    seq(|raw|, i requires 0 <= i < |raw| => Entry(raw[i].0, FromString(raw[i].0), raw[i].1))
  }

  /** Whether one cross-map entry passes the per-entry checks: its key parses to a known
      upstream state, and its target is empty or a known downstream state. */
  predicate EntryOk(up: map<BlockState, int>, down: map<McBlockState, int>, e: Entry) {
    && e.state.Ok?
    && e.state.value in up
    && (e.target == "" || McFromString(e.target) in down)
  }

  /** The upstream index of a checked entry. */
  function EntryId(up: map<BlockState, int>, down: map<McBlockState, int>, e: Entry): int
    requires EntryOk(up, down, e)
  {
    up[e.state.value]
  }

  /** Every entry passes its checks, and no two entries with non-empty targets name the same
      upstream index. */
  predicate CrossValid(up: map<BlockState, int>, down: map<McBlockState, int>, es: seq<Entry>) {
    && (forall i :: 0 <= i < |es| ==> EntryOk(up, down, es[i]))
    && (forall i, j :: 0 <= i < j < |es| && es[i].target != "" && es[j].target != "" ==>
          EntryId(up, down, es[i]) != EntryId(up, down, es[j]))
  }

  /** One iteration of the cross-map loop. The unknown-key check runs before the
      empty-target skip. */
  function CrossStep(up: map<BlockState, int>, down: map<McBlockState, int>, m: map<int, int>, e: Entry)
    : (r: Result<map<int, int>, LoadError>)
  {
    var key := e.state;
    if key.Err? then Err(BadDescriptor(e.key))
    else if key.value !in up then Err(UnknownCosmicReachState(e.key))
    else if e.target == "" then Ok(m)
    else if McFromString(e.target) !in down then Err(UnknownMinecraftState(e.target))
    else if up[key.value] in m then Err(DuplicateMapping(e.key))
    else Ok(m[up[key.value] := down[McFromString(e.target)]])
  }

  /** A non-empty entry maps its upstream index to its target's downstream index. */
  predicate Maps(up: map<BlockState, int>, down: map<McBlockState, int>, m: map<int, int>, e: Entry)
    requires EntryOk(up, down, e)
  {
    e.target != "" ==> EntryId(up, down, e) in m && m[EntryId(up, down, e)] == down[McFromString(e.target)]
  }

  /** The cross-map built from the entries in order; the first failing entry aborts. A
      successful result holds one pair per entry with a non-empty target and nothing else. */
  function BuildCross(up: map<BlockState, int>, down: map<McBlockState, int>, es: seq<Entry>)
    : (r: Result<map<int, int>, LoadError>)
    ensures r.Ok? ==> forall i :: 0 <= i < |es| ==> EntryOk(up, down, es[i]) && Maps(up, down, r.value, es[i])
    ensures r.Ok? ==> forall k :: k in r.value ==>
              exists i :: 0 <= i < |es| && EntryOk(up, down, es[i]) && es[i].target != "" && EntryId(up, down, es[i]) == k
  {
    if |es| == 0 then Ok(map[])
    else
      var init := es[..|es| - 1];
      var m :- BuildCross(up, down, init);
      var r := CrossStep(up, down, m, es[|es| - 1]);
      assert forall i :: 0 <= i < |init| ==> es[i] == init[i];
      if r.Ok? then
        assert forall k :: k in r.value ==>
          exists i :: 0 <= i < |es| && EntryOk(up, down, es[i]) && es[i].target != "" && EntryId(up, down, es[i]) == k by {
          forall k | k in r.value
            ensures exists i :: 0 <= i < |es| && EntryOk(up, down, es[i]) && es[i].target != "" && EntryId(up, down, es[i]) == k
          {
            if k in m {
              var i :| 0 <= i < |init| && EntryOk(up, down, init[i]) && init[i].target != "" && EntryId(up, down, init[i]) == k;
              assert es[i] == init[i];
            } else {
              assert EntryId(up, down, es[|es| - 1]) == k;
            }
          }
        }
        r
      else r
  }

  /** No entry with a non-empty target in `es` names upstream index `id`. */
  predicate IdFree(up: map<BlockState, int>, down: map<McBlockState, int>, es: seq<Entry>, id: int)
    requires forall i :: 0 <= i < |es| ==> EntryOk(up, down, es[i])
  {
    forall i :: 0 <= i < |es| && es[i].target != "" ==> EntryId(up, down, es[i]) != id
  }

  /** Validity of a list extended by one entry, in terms of the shorter list. */
  lemma CrossValidSnoc(up: map<BlockState, int>, down: map<McBlockState, int>, init: seq<Entry>, e: Entry)
    ensures CrossValid(up, down, init + [e]) <==>
              && CrossValid(up, down, init)
              && EntryOk(up, down, e)
              && (e.target != "" ==> IdFree(up, down, init, EntryId(up, down, e)))
  {
    var es := init + [e];
    assert forall i :: 0 <= i < |init| ==> es[i] == init[i];
    assert es[|init|] == e;
    if CrossValid(up, down, init) && EntryOk(up, down, e) && (e.target != "" ==> IdFree(up, down, init, EntryId(up, down, e))) {
      forall i, j | 0 <= i < j < |es| && es[i].target != "" && es[j].target != ""
        ensures EntryId(up, down, es[i]) != EntryId(up, down, es[j])
      {
        if j == |init| {
          assert es[i] == init[i];
        }
      }
    }
    if CrossValid(up, down, es) && e.target != "" {
      forall i | 0 <= i < |init| && init[i].target != ""
        ensures EntryId(up, down, init[i]) != EntryId(up, down, e)
      {
        assert es[i] == init[i];
      }
    }
  }

  /** Loading the cross-map succeeds exactly when every entry passes its checks and no two
      entries with non-empty targets share an upstream index. */
  lemma {:induction false} BuildCrossSucceedsIffValid(up: map<BlockState, int>, down: map<McBlockState, int>, es: seq<Entry>)
    ensures BuildCross(up, down, es).Ok? <==> CrossValid(up, down, es)
  {
    if |es| > 0 {
      var init := es[..|es| - 1];
      var e := es[|es| - 1];
      assert es == init + [e];
      BuildCrossSucceedsIffValid(up, down, init);
      CrossValidSnoc(up, down, init, e);
      var r := BuildCross(up, down, init);
      if r.Ok? && EntryOk(up, down, e) && e.target != "" {
        var id := EntryId(up, down, e);
        if id in r.value {
          var i :| 0 <= i < |init| && EntryOk(up, down, init[i]) && init[i].target != "" && EntryId(up, down, init[i]) == id;
          assert !IdFree(up, down, init, id);
        } else {
          forall i | 0 <= i < |init| && init[i].target != "" ensures EntryId(up, down, init[i]) != id {
            assert Maps(up, down, r.value, init[i]);
          }
        }
      }
    }
  }

  /** `CosmicReachMappingData.load` (catalog part): the upstream list, the downstream list
      and the cross-map entries, in file order. */
  function Load(cosmicReachDescs: seq<string>, minecraftDescs: seq<string>, entries: seq<(string, string)>, plainsBiome: int)
    : (r: Result<Catalog, LoadError>)
    ensures r.Ok? ==> r.value.plainsBiome == plainsBiome
    ensures r.Ok? ==> forall i :: 0 <= i < |cosmicReachDescs| ==> FromString(cosmicReachDescs[i]).Ok?
  {
    var states :- ParseAll(cosmicReachDescs);
    var up := Index(states);
    var down := Index(McParseAll(minecraftDescs));
    var cross :- BuildCross(up, down, ToEntries(entries));
    Ok(Catalog(up, down, cross, plainsBiome))
  }

  /** A cross-map built over catalogs whose indices lie in range has its pairs in range. */
  lemma CrossInRange(up: map<BlockState, int>, down: map<McBlockState, int>, es: seq<Entry>, nUp: int, nDown: int)
    requires forall st :: st in up ==> 0 <= up[st] < nUp
    requires forall st :: st in down ==> 0 <= down[st] < nDown
    requires BuildCross(up, down, es).Ok?
    ensures var m := BuildCross(up, down, es).value;
            forall k :: k in m ==> 0 <= k < nUp && 0 <= m[k] < nDown
  {
    var m := BuildCross(up, down, es).value;
    forall k | k in m ensures 0 <= k < nUp && 0 <= m[k] < nDown {
      var i :| 0 <= i < |es| && EntryOk(up, down, es[i]) && es[i].target != "" && EntryId(up, down, es[i]) == k;
      assert Maps(up, down, m, es[i]);
    }
  }

  /** After a successful load every cross-map pair links a valid upstream index to a valid
      downstream index. */
  lemma LoadedCrossInRange(cosmicReachDescs: seq<string>, minecraftDescs: seq<string>, entries: seq<(string, string)>, plainsBiome: int)
    requires Load(cosmicReachDescs, minecraftDescs, entries, plainsBiome).Ok?
    ensures var c := Load(cosmicReachDescs, minecraftDescs, entries, plainsBiome).value;
            forall k :: k in c.cross ==> 0 <= k < |cosmicReachDescs| && 0 <= c.cross[k] < |minecraftDescs|
  {
    var states := ParseAll(cosmicReachDescs).value;
    var up := Index(states);
    var down := Index(McParseAll(minecraftDescs));
    CrossInRange(up, down, ToEntries(entries), |cosmicReachDescs|, |minecraftDescs|);
  }

  /** `getCosmicReachBlockStates().getInt`: the index of the last list entry that parses to
      the state, or -1 when none does. */
  lemma UpstreamLookup(cosmicReachDescs: seq<string>, minecraftDescs: seq<string>, entries: seq<(string, string)>, plainsBiome: int, st: BlockState)
    requires Load(cosmicReachDescs, minecraftDescs, entries, plainsBiome).Ok?
    ensures var c := Load(cosmicReachDescs, minecraftDescs, entries, plainsBiome).value;
            var id := GetInt(c.cosmicReach, st);
            && (id == MISSING <==> forall i :: 0 <= i < |cosmicReachDescs| ==> FromString(cosmicReachDescs[i]) != Ok(st))
            && (id != MISSING ==> 0 <= id < |cosmicReachDescs| && FromString(cosmicReachDescs[id]) == Ok(st)
                                  && forall j :: id < j < |cosmicReachDescs| ==> FromString(cosmicReachDescs[j]) != Ok(st))
  {
    LoadCatalogs(cosmicReachDescs, minecraftDescs, entries, plainsBiome);
    var states := ParseAll(cosmicReachDescs).value;
    IndexLookup(states, st);
  }

  /** `getMinecraftBlockStates().getInt`: the index of the last list entry with that
      descriptor, or -1 when none has it. */
  lemma DownstreamLookup(cosmicReachDescs: seq<string>, minecraftDescs: seq<string>, entries: seq<(string, string)>, plainsBiome: int, text: string)
    requires Load(cosmicReachDescs, minecraftDescs, entries, plainsBiome).Ok?
    ensures var c := Load(cosmicReachDescs, minecraftDescs, entries, plainsBiome).value;
            var id := GetInt(c.minecraft, McFromString(text));
            && (id == MISSING <==> text !in minecraftDescs)
            && (id != MISSING ==> 0 <= id < |minecraftDescs| && minecraftDescs[id] == text
                                  && forall j :: id < j < |minecraftDescs| ==> minecraftDescs[j] != text)
  {
    LoadCatalogs(cosmicReachDescs, minecraftDescs, entries, plainsBiome);
    var mcs := McParseAll(minecraftDescs);
    IndexLookup(mcs, McFromString(text));
    assert text in minecraftDescs <==> McFromString(text) in mcs by {
      if text in minecraftDescs {
        var i :| 0 <= i < |minecraftDescs| && minecraftDescs[i] == text;
        assert mcs[i] == McFromString(text);
      }
    }
  }

  /** The two catalogs of a successful load index the two parsed lists. */
  lemma LoadCatalogs(cosmicReachDescs: seq<string>, minecraftDescs: seq<string>, entries: seq<(string, string)>, plainsBiome: int)
    requires Load(cosmicReachDescs, minecraftDescs, entries, plainsBiome).Ok?
    ensures ParseAll(cosmicReachDescs).Ok?
    ensures var c := Load(cosmicReachDescs, minecraftDescs, entries, plainsBiome).value;
            && c.cosmicReach == Index(ParseAll(cosmicReachDescs).value)
            && c.minecraft == Index(McParseAll(minecraftDescs))
  {
  }

  /** `getInt` on an index map: the last position of the key, or -1 when it is absent. */
  lemma IndexLookup<K(!new)>(keys: seq<K>, k: K)
    ensures var id := GetInt(Index(keys), k);
            && (id == MISSING <==> k !in keys)
            && (id != MISSING ==> 0 <= id < |keys| && keys[id] == k && forall j :: id < j < |keys| ==> keys[j] != k)
  {
  }
}
