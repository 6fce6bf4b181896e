/** Conversion of the flat legacy capacity body, provider -> instance type -> pool, into the tree. */
module LegacyPools {
  import opened Results
  import opened Dicts
  import opened Folds
  import opened JsonValues
  import opened ResourceMaps

  /** Python's `str` and `int` on JSON values, whatever they compute; `int` may refuse. */
  datatype Py = Py(text: Json -> string, integer: Json -> Option<int>)

  /** Python's floor division. */
  function FloorDiv(a: int, b: int): (q: int)
    requires b != 0
    ensures b > 0 ==> q * b <= a < q * b + b
    ensures b < 0 ==> q * b + b < a <= q * b
  {
    if b > 0 then a / b else (-a) / (-b)
  }

  /** An instance type with its legacy pool, under its provider. */
  datatype Flat = Flat(provider: string, instanceType: string, pool: Dict<Json>)

  /** A legacy entry reduced to what goes into the tree. */
  datatype Placed = Placed(provider: string, region: string, zone: string, fabricType: string, instanceType: string,
    pool: MachinePool)

  function FlatPools(provider: string): ((string, Json)) -> seq<Flat> {
    (e: (string, Json)) =>
      if e.1.JObj? && Has(e.1.members, "total") then [Flat(provider, e.0, e.1.members)] else []
  }

  function FlatProviders(): ((string, Json)) -> seq<Flat> {
    (e: (string, Json)) => if e.1.JObj? then Collect(e.1.members, FlatPools(e.0)) else []
  }

  /** The well-formed entries in document order; anything else is skipped. */
  function FlatEntries(raw: Dict<Json>): seq<Flat> {
    Collect(raw, FlatProviders())
  }

  /** One entry of the loop body; None where the source raises. */
  function Convert(py: Py, e: Flat): Option<Placed> {
    var meta := GetOr(e.pool, "metadata", JObj([]));
    if !meta.JObj? then None
    else
      var m := meta.members;
      var gpusPer :- py.integer(GetOr(m, "gpus_per_instance", JInt(1)));
      var total :- py.integer(GetOr(e.pool, "total", JInt(0)));
      var family :- OptionalText(Get(m, "instance_family"));
      var price :- OptionalReal(Get(m, "price_per_instance_hour"));
      Some(Placed(e.provider,
                  py.text(GetOr(m, "region", JStr("default"))),
                  py.text(GetOr(m, "zone", JStr("default"))),
                  py.text(GetOr(m, "fabric_type", JStr("default"))),
                  e.instanceType,
                  MachinePool(family, py.text(GetOr(m, "gpu_type", JStr(e.instanceType))), None, gpusPer,
                              if gpusPer != 0 then FloorDiv(total, gpusPer) else 0, price, None)))
  }

  // Growing the tree: setdefault down the levels, then one assignment.

  function Child<V>(d: Dict<V>, key: string, empty: V): V {
    match Get(d, key)
    case Some(v) => v
    case None => empty
  }

  function IntoFabric(f: NetworkFabric, p: Placed): NetworkFabric {
    f.(pools := Put(f.pools, p.instanceType, p.pool))
  }

  function IntoZone(zone: Zone, p: Placed): Zone {
    Zone(Put(zone.fabrics, "default",
      IntoFabric(Child(zone.fabrics, "default", NetworkFabric(p.fabricType, false, [])), p)))
  }

  function IntoRegion(region: Region, p: Placed): Region {
    Region(Put(region.zones, p.zone, IntoZone(Child(region.zones, p.zone, Zone([])), p)))
  }

  function IntoCloud(cloud: Cloud, p: Placed): Cloud {
    Cloud(Put(cloud.regions, p.region, IntoRegion(Child(cloud.regions, p.region, Region([])), p)))
  }

  function Grow(tree: Dict<Cloud>, p: Placed): Dict<Cloud> {
    Put(tree, p.provider, IntoCloud(Child(tree, p.provider, Cloud([])), p))
  }

  function ConvertAll(py: Py, entries: seq<Flat>): Option<seq<Placed>> {
    if entries == [] then Some([])
    else
      var before :- ConvertAll(py, entries[..|entries| - 1]);
      var last :- Convert(py, entries[|entries| - 1]);
      Some(before + [last])
  }

  function GrowAll(placed: seq<Placed>): Dict<Cloud> {
    if placed == [] then [] else Grow(GrowAll(placed[..|placed| - 1]), placed[|placed| - 1])
  }

  /** The entries converted and inserted one after the other; None where the source raises. */
  function GrowEntries(py: Py, entries: seq<Flat>): Option<Dict<Cloud>> {
    if entries == [] then Some([])
    else
      var tree :- GrowEntries(py, entries[..|entries| - 1]);
      var p :- Convert(py, entries[|entries| - 1]);
      Some(Grow(tree, p))
  }

  function LegacyTree(py: Py, raw: Dict<Json>): Option<Dict<Cloud>> {
    GrowEntries(py, FlatEntries(raw))
  }

  lemma GrowEntriesSnoc(py: Py, entries: seq<Flat>, e: Flat)
    ensures GrowEntries(py, entries + [e]) ==
      if GrowEntries(py, entries).None? || Convert(py, e).None? then None
      else Some(Grow(GrowEntries(py, entries).value, Convert(py, e).value))
  {
    assert (entries + [e])[..|entries|] == entries;
  }

  lemma Shift<T>(a: seq<T>, b: seq<T>)
    requires b != []
    ensures a + b == (a + b[..|b| - 1]) + [b[|b| - 1]]
  {
  }

  lemma {:induction false} FailureStays(py: Py, entries: seq<Flat>, more: seq<Flat>)
    requires GrowEntries(py, entries).None?
    ensures GrowEntries(py, entries + more).None?
    decreases |more|
  {
    if more == [] {
      assert entries + more == entries;
    } else {
      var before, last := more[..|more| - 1], more[|more| - 1];
      FailureStays(py, entries, before);
      GrowEntriesSnoc(py, entries + before, last);
      Shift(entries, more);
    }
  }

  /** The inner loop: the pools of one provider, inserted into the tree grown so far. */
  method GrowProvider(py: Py, provider: string, pools: Dict<Json>, tree0: Dict<Cloud>,
      ghost before: seq<Flat>) returns (r: Option<Dict<Cloud>>)
    requires GrowEntries(py, before) == Some(tree0)
    ensures r == GrowEntries(py, before + Collect(pools, FlatPools(provider)))
  {
    var tree := tree0;
    assert before + Collect(pools[..0], FlatPools(provider)) == before;
    for j := 0 to |pools|
      invariant GrowEntries(py, before + Collect(pools[..j], FlatPools(provider))) == Some(tree)
    {
      var instanceType, pool := pools[j].0, pools[j].1;
      ghost var sofar := before + Collect(pools[..j], FlatPools(provider));
      EntriesSnoc(before, pools, j, provider);
      if pool.JObj? && Has(pool.members, "total") {
        var entry := Flat(provider, instanceType, pool.members);
        GrowEntriesSnoc(py, sofar, entry);
        var p := Convert(py, entry);
        if p.None? {
          RestOfEntries(before, pools, j, provider);
          FailureStays(py, sofar + [entry], Collect(pools[j + 1..], FlatPools(provider)));
          return None;
        }
        tree := Grow(tree, p.value);
      } else {
        assert sofar + [] == sofar;
      }
    }
    assert pools[..|pools|] == pools;
    return Some(tree);
  }

  /** The outer loop over providers; a provider whose value is no object is skipped. */
  method LegacyFlatPoolsToClouds(py: Py, raw: Dict<Json>) returns (r: Option<(seq<string>, Dict<Cloud>)>)
    ensures r == match LegacyTree(py, raw) case Some(t) => Some((["reserved"], t)) case None => None
  {
    var tree: Dict<Cloud> := [];
    for i := 0 to |raw|
      invariant GrowEntries(py, FlatEntries(raw[..i])) == Some(tree)
    {
      var provider, byType := raw[i].0, raw[i].1;
      ghost var before := FlatEntries(raw[..i]);
      assert raw[..i + 1][..i] == raw[..i];
      assert before + [] == before;
      if byType.JObj? {
        var grown := GrowProvider(py, provider, byType.members, tree, before);
        if grown.None? {
          CollectAround(raw, i, FlatProviders());
          FailureStays(py, FlatEntries(raw[..i + 1]), FlatEntries(raw[i + 1..]));
          return None;
        }
        tree := grown.value;
      }
    }
    assert raw[..|raw|] == raw;
    return Some((["reserved"], tree));
  }

  lemma EntriesSnoc(before: seq<Flat>, pools: Dict<Json>, j: nat, provider: string)
    requires j < |pools|
    ensures before + Collect(pools[..j + 1], FlatPools(provider)) ==
      before + Collect(pools[..j], FlatPools(provider)) + FlatPools(provider)(pools[j])
  {
    assert pools[..j + 1][..j] == pools[..j];
  }

  lemma RestOfEntries(before: seq<Flat>, pools: Dict<Json>, j: nat, provider: string)
    requires j < |pools|
    ensures before + Collect(pools, FlatPools(provider)) ==
      before + Collect(pools[..j], FlatPools(provider)) + FlatPools(provider)(pools[j]) +
        Collect(pools[j + 1..], FlatPools(provider))
  {
    var f := FlatPools(provider);
    CollectAround(pools, j, f);
    Regroup(before, Collect(pools[..j], f), f(pools[j]), Collect(pools[j + 1..], f));
  }

  lemma Regroup<T>(a: seq<T>, b: seq<T>, c: seq<T>, d: seq<T>)
    ensures a + (b + c + d) == a + b + c + d
  {
  }

  /** Inserting while converting is converting everything and then inserting. */
  lemma {:induction false} GrowEntriesSplits(py: Py, entries: seq<Flat>)
    ensures GrowEntries(py, entries) ==
      match ConvertAll(py, entries) case Some(placed) => Some(GrowAll(placed)) case None => None
    decreases |entries|
  {
    if entries != [] {
      var n := |entries| - 1;
      GrowEntriesSplits(py, entries[..n]);
      if ConvertAll(py, entries).Some? {
        var placed := ConvertAll(py, entries).value;
        assert placed[..|placed| - 1] == ConvertAll(py, entries[..n]).value;
      }
    }
  }
}
