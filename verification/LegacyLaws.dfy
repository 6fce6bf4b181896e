/** What the legacy conversion keeps and what it rounds away. */
module LegacyLaws {
  import opened Results
  import opened Dicts
  import opened Folds
  import opened JsonValues
  import opened ResourceMaps
  import opened SummaryLaws
  import opened LegacyPools

  /** Where a pool sits, leaving out the attributes shared by its fabric. */
  datatype Spot = Spot(cloud: string, region: string, zone: string, fabricId: string, instanceType: string,
    pool: MachinePool)

  function ToSpot(at: PoolAt): Spot {
    Spot(at.cloud, at.region, at.zone, at.fabricId, at.instanceType, at.pool)
  }

  function SpotAt(): PoolAt -> seq<Spot> { (at: PoolAt) => [ToSpot(at)] }

  function Spots(tree: Dict<Cloud>): seq<Spot> {
    Collect(MachinePools(tree), SpotAt())
  }

  function SpotOfPlaced(): Placed -> seq<Spot> {
    (p: Placed) => [Spot(p.provider, p.region, p.zone, "default", p.instanceType, p.pool)]
  }

  /** The dicts the insertion of `p` goes through, with the defaults it would create. */
  function CloudOf(tree: Dict<Cloud>, p: Placed): Cloud { Child(tree, p.provider, Cloud([])) }
  function RegionOf(tree: Dict<Cloud>, p: Placed): Region { Child(CloudOf(tree, p).regions, p.region, Region([])) }
  function ZoneOf(tree: Dict<Cloud>, p: Placed): Zone { Child(RegionOf(tree, p).zones, p.zone, Zone([])) }
  function FabricOf(tree: Dict<Cloud>, p: Placed): NetworkFabric {
    Child(ZoneOf(tree, p).fabrics, "default", NetworkFabric(p.fabricType, false, []))
  }

  function NewPool(tree: Dict<Cloud>, p: Placed): PoolAt {
    PoolAt(p.provider, p.region, p.zone, "default", FabricOf(tree, p).fabricType, FabricOf(tree, p).rdma,
      p.instanceType, p.pool)
  }

  /** Replacing or adding one child changes a flattened dict by the change of that child. */
  lemma ChildGrows<V, B>(d: Dict<V>, key: string, empty: V, value: V, f: ((string, V)) -> seq<B>, more: multiset<B>)
    requires f((key, empty)) == []
    requires multiset(f((key, value))) == multiset(f((key, Child(d, key, empty)))) + more
    ensures multiset(Collect(Put(d, key, value), f)) == multiset(Collect(d, f)) + more
  {
    CollectPut(d, key, value, f);
    Cancel(multiset(Collect(Put(d, key, value), f)), multiset(f((key, Child(d, key, empty)))),
      multiset(Collect(d, f)) + more);
  }

  lemma Cancel<T>(a: multiset<T>, common: multiset<T>, b: multiset<T>)
    requires a + common == b + common
    ensures a == b
  {
    forall x | x in a + b ensures a[x] == b[x] {
      assert (a + common)[x] == (b + common)[x];
    }
  }

  lemma FabricAddsOne(c: string, r: string, z: string, f: NetworkFabric, p: Placed)
    requires !Has(f.pools, p.instanceType)
    ensures multiset(FabricPools(c, r, z, "default", IntoFabric(f, p))) == multiset(FabricPools(c, r, z, "default", f))
      + multiset{PoolAt(c, r, z, "default", f.fabricType, f.rdma, p.instanceType, p.pool)}
  {
    CollectPut(f.pools, p.instanceType, p.pool, AtPool(c, r, z, "default", f.fabricType, f.rdma));
  }

  lemma ZoneAddsOne(c: string, r: string, z: string, zone: Zone, p: Placed, fabric: NetworkFabric, at: PoolAt)
    requires fabric == Child(zone.fabrics, "default", NetworkFabric(p.fabricType, false, []))
    requires multiset(FabricPools(c, r, z, "default", IntoFabric(fabric, p))) ==
      multiset(FabricPools(c, r, z, "default", fabric)) + multiset{at}
    ensures multiset(ZonePools(c, r, z, IntoZone(zone, p))) == multiset(ZonePools(c, r, z, zone)) + multiset{at}
  {
    ChildGrows(zone.fabrics, "default", NetworkFabric(p.fabricType, false, []), IntoFabric(fabric, p),
      AtFabric(c, r, z), multiset{at});
  }

  lemma RegionAddsOne(c: string, r: string, region: Region, p: Placed, zone: Zone, at: PoolAt)
    requires zone == Child(region.zones, p.zone, Zone([]))
    requires multiset(ZonePools(c, r, p.zone, IntoZone(zone, p))) ==
      multiset(ZonePools(c, r, p.zone, zone)) + multiset{at}
    ensures multiset(RegionPools(c, r, IntoRegion(region, p))) == multiset(RegionPools(c, r, region)) + multiset{at}
  {
    ChildGrows(region.zones, p.zone, Zone([]), IntoZone(zone, p), AtZone(c, r), multiset{at});
  }

  lemma CloudAddsOne(c: string, cloud: Cloud, p: Placed, region: Region, at: PoolAt)
    requires region == Child(cloud.regions, p.region, Region([]))
    requires multiset(RegionPools(c, p.region, IntoRegion(region, p))) ==
      multiset(RegionPools(c, p.region, region)) + multiset{at}
    ensures multiset(CloudPools(c, IntoCloud(cloud, p))) == multiset(CloudPools(c, cloud)) + multiset{at}
  {
    ChildGrows(cloud.regions, p.region, Region([]), IntoRegion(region, p), AtRegion(c), multiset{at});
  }

  /** Inserting a pool under a fresh instance type adds that pool to the tree and changes nothing else. */
  lemma {:induction false} GrowAddsOne(tree: Dict<Cloud>, p: Placed)
    requires !Has(FabricOf(tree, p).pools, p.instanceType)
    ensures multiset(MachinePools(Grow(tree, p))) == multiset(MachinePools(tree)) + multiset{NewPool(tree, p)}
  {
    var at := NewPool(tree, p);
    FabricAddsOne(p.provider, p.region, p.zone, FabricOf(tree, p), p);
    ZoneAddsOne(p.provider, p.region, p.zone, ZoneOf(tree, p), p, FabricOf(tree, p), at);
    RegionAddsOne(p.provider, p.region, RegionOf(tree, p), p, ZoneOf(tree, p), at);
    CloudAddsOne(p.provider, CloudOf(tree, p), p, RegionOf(tree, p), at);
    ChildGrows(tree, p.provider, Cloud([]), IntoCloud(CloudOf(tree, p), p), AtCloud(), multiset{at});
  }

  lemma ChildMembers<V, B>(d: Dict<V>, key: string, empty: V, f: ((string, V)) -> seq<B>, y: B)
    requires f((key, empty)) == [] && y in f((key, Child(d, key, empty)))
    ensures y in Collect(d, f)
  {
    var v := Get(d, key).value;
    var i :| 0 <= i < |d| && d[i] == (key, v);
    CollectMembers(d, f, y);
  }

  /** A pool already at the place of insertion shows up in the traversal. */
  lemma TakenPlaceIsVisible(tree: Dict<Cloud>, p: Placed) returns (at: PoolAt)
    requires Has(FabricOf(tree, p).pools, p.instanceType)
    ensures at in MachinePools(tree) && at.cloud == p.provider && at.instanceType == p.instanceType
  {
    var c, r, z := p.provider, p.region, p.zone;
    var fabric, zone, region, cloud := FabricOf(tree, p), ZoneOf(tree, p), RegionOf(tree, p), CloudOf(tree, p);
    var i :| 0 <= i < |fabric.pools| && fabric.pools[i].0 == p.instanceType;
    at := PoolAt(c, r, z, "default", fabric.fabricType, fabric.rdma, p.instanceType, fabric.pools[i].1);
    CollectMembers(fabric.pools, AtPool(c, r, z, "default", fabric.fabricType, fabric.rdma), at);
    ChildMembers(zone.fabrics, "default", NetworkFabric(p.fabricType, false, []), AtFabric(c, r, z), at);
    ChildMembers(region.zones, z, Zone([]), AtZone(c, r), at);
    ChildMembers(cloud.regions, r, Region([]), AtRegion(c), at);
    ChildMembers(tree, c, Cloud([]), AtCloud(), at);
  }

  ghost predicate DistinctPlaced(placed: seq<Placed>) {
    forall i, j | 0 <= i < j < |placed| ::
      placed[i].provider != placed[j].provider || placed[i].instanceType != placed[j].instanceType
  }

  /** Every placed entry becomes exactly one pool: none overwrites another and nothing else appears. */
  lemma {:induction false} GrowAllKeepsEach(placed: seq<Placed>)
    requires DistinctPlaced(placed)
    ensures multiset(Spots(GrowAll(placed))) == multiset(Collect(placed, SpotOfPlaced()))
    decreases |placed|
  {
    if placed != [] {
      var n := |placed| - 1;
      var before, p := GrowAll(placed[..n]), placed[n];
      GrowAllKeepsEach(placed[..n]);
      if Has(FabricOf(before, p).pools, p.instanceType) {
        var i := TakenMeansPlaced(placed[..n], p, before);
        assert false;
      }
      GrowAddsOne(before, p);
      var at := NewPool(before, p);
      assert multiset(MachinePools(before) + [at]) == multiset(MachinePools(before)) + multiset{at};
      CollectRearranged(MachinePools(Grow(before, p)), MachinePools(before) + [at], SpotAt());
      CollectConcat(MachinePools(before), [at], SpotAt());
      CollectOne(at, SpotAt());
    }
  }

  /** An insertion would overwrite only an entry placed before under the same provider and instance type. */
  lemma TakenMeansPlaced(placed: seq<Placed>, p: Placed, tree: Dict<Cloud>) returns (i: nat)
    requires multiset(Spots(tree)) == multiset(Collect(placed, SpotOfPlaced()))
    requires Has(FabricOf(tree, p).pools, p.instanceType)
    ensures i < |placed| && placed[i].provider == p.provider && placed[i].instanceType == p.instanceType
  {
    var at := TakenPlaceIsVisible(tree, p);
    var spot := ToSpot(at);
    CollectMembers(MachinePools(tree), SpotAt(), spot);
    var m :| 0 <= m < |MachinePools(tree)| && MachinePools(tree)[m] == at;
    assert spot in SpotAt()(MachinePools(tree)[m]);
    assert spot in multiset(Spots(tree));
    CollectMembers(placed, SpotOfPlaced(), spot);
    i :| 0 <= i < |placed| && spot in SpotOfPlaced()(placed[i]);
  }

  // From the document to the placed entries.

  /** Keys are unique, as in a parsed document. */
  ghost predicate ProperDocument(raw: Dict<Json>) {
    && UniqueKeys(raw)
    && forall i | 0 <= i < |raw| && raw[i].1.JObj? :: UniqueKeys(raw[i].1.members)
  }

  ghost predicate DistinctEntries(entries: seq<Flat>) {
    forall i, j | 0 <= i < j < |entries| ::
      entries[i].provider != entries[j].provider || entries[i].instanceType != entries[j].instanceType
  }

  lemma {:induction false} FlatPoolsDistinct(provider: string, pools: Dict<Json>)
    requires UniqueKeys(pools)
    ensures DistinctEntries(Collect(pools, FlatPools(provider)))
    ensures forall e | e in Collect(pools, FlatPools(provider)) :: e.provider == provider && Has(pools, e.instanceType)
    decreases |pools|
  {
    if pools != [] {
      var n := |pools| - 1;
      var before := Collect(pools[..n], FlatPools(provider));
      FlatPoolsDistinct(provider, pools[..n]);
      forall e | e in before ensures Has(pools, e.instanceType) && e.instanceType != pools[n].0 {
        var i :| 0 <= i < n && pools[..n][i].0 == e.instanceType;
        assert pools[i].0 == e.instanceType;
      }
      assert pools[n].0 == pools[n].0 && Has(pools, pools[n].0);
      forall i | 0 <= i < |before| ensures before[i].instanceType != pools[n].0 { assert before[i] in before; }
    }
  }

  lemma {:induction false} FlatEntriesDistinct(raw: Dict<Json>)
    requires ProperDocument(raw)
    ensures DistinctEntries(FlatEntries(raw))
    ensures forall e | e in FlatEntries(raw) :: Has(raw, e.provider)
    decreases |raw|
  {
    if raw != [] {
      var n := |raw| - 1;
      var before, last := FlatEntries(raw[..n]), FlatProviders()(raw[n]);
      FlatEntriesDistinct(raw[..n]);
      assert FlatEntries(raw) == before + last;
      if raw[n].1.JObj? { FlatPoolsDistinct(raw[n].0, raw[n].1.members); }
      forall e | e in before ensures Has(raw, e.provider) && e.provider != raw[n].0 {
        var i :| 0 <= i < n && raw[..n][i].0 == e.provider;
        assert raw[i].0 == e.provider;
      }
      assert raw[n].0 == raw[n].0 && Has(raw, raw[n].0);
      forall i | 0 <= i < |before| ensures before[i].provider != raw[n].0 { assert before[i] in before; }
      forall j | 0 <= j < |last| ensures last[j].provider == raw[n].0 { assert last[j] in last; }
    }
  }

  lemma {:induction false} ConvertedInPlace(py: Py, entries: seq<Flat>, placed: seq<Placed>)
    requires ConvertAll(py, entries) == Some(placed)
    ensures |placed| == |entries|
    ensures forall i | 0 <= i < |entries| :: Convert(py, entries[i]) == Some(placed[i])
    decreases |entries|
  {
    if entries != [] {
      var n := |entries| - 1;
      ConvertedInPlace(py, entries[..n], ConvertAll(py, entries[..n]).value);
    }
  }

  lemma ConvertKeepsNames(py: Py, e: Flat, p: Placed)
    requires Convert(py, e) == Some(p)
    ensures p.provider == e.provider && p.instanceType == e.instanceType
  {
  }

  lemma DistinctCarriesOver(entries: seq<Flat>, placed: seq<Placed>)
    requires DistinctEntries(entries) && |placed| == |entries|
    requires forall i | 0 <= i < |placed| ::
      placed[i].provider == entries[i].provider && placed[i].instanceType == entries[i].instanceType
    ensures DistinctPlaced(placed)
  {
  }

  lemma PlacedDistinct(py: Py, raw: Dict<Json>, placed: seq<Placed>)
    requires ProperDocument(raw) && ConvertAll(py, FlatEntries(raw)) == Some(placed)
    ensures DistinctPlaced(placed)
  {
    var entries := FlatEntries(raw);
    FlatEntriesDistinct(raw);
    ConvertedInPlace(py, entries, placed);
    forall i | 0 <= i < |placed|
      ensures placed[i].provider == entries[i].provider && placed[i].instanceType == entries[i].instanceType
    {
      ConvertKeepsNames(py, entries[i], placed[i]);
    }
    DistinctCarriesOver(entries, placed);
  }

  /** The pools of the converted tree are exactly the well-formed entries of the document, one pool each. */
  lemma {:induction false} ConversionKeepsEveryPool(py: Py, raw: Dict<Json>, placed: seq<Placed>)
    requires ProperDocument(raw) && ConvertAll(py, FlatEntries(raw)) == Some(placed)
    ensures |placed| == |FlatEntries(raw)|
    ensures LegacyTree(py, raw).Some?
    ensures multiset(Spots(LegacyTree(py, raw).value)) == multiset(Collect(placed, SpotOfPlaced()))
  {
    PlacedDistinct(py, raw, placed);
    ConvertedInPlace(py, FlatEntries(raw), placed);
    GrowEntriesSplits(py, FlatEntries(raw));
    GrowAllKeepsEach(placed);
  }

  /** The field of a metadata object as `or` reads it. */
  function MetaOr(e: Flat, key: string, default: Json): Json {
    GetOr(Meta(e), key, default)
  }

  /** What an entry is read as: its names and counts from the metadata, with their defaults. */
  ghost predicate PlacedAs(py: Py, e: Flat, p: Placed) {
    && p.provider == e.provider && p.instanceType == e.instanceType
    && p.region == py.text(MetaOr(e, "region", JStr("default")))
    && p.zone == py.text(MetaOr(e, "zone", JStr("default")))
    && p.fabricType == py.text(MetaOr(e, "fabric_type", JStr("default")))
    && p.pool.gpuType == py.text(MetaOr(e, "gpu_type", JStr(e.instanceType)))
    && Some(p.pool.gpusPerInstance) == py.integer(MetaOr(e, "gpus_per_instance", JInt(1)))
    && OptionalText(Get(Meta(e), "instance_family")) == Some(p.pool.instanceFamily)
    && OptionalReal(Get(Meta(e), "price_per_instance_hour")) == Some(p.pool.price)
    && p.pool.gpuMemoryGb == None && p.pool.interconnect == None
    && match py.integer(GetOr(e.pool, "total", JInt(0)))
       case None => false
       case Some(total) =>
         var per := p.pool.gpusPerInstance;
         if per == 0 then p.pool.totalInstances == 0
         else if per > 0 then p.pool.totalInstances * per <= total < p.pool.totalInstances * per + per
         else p.pool.totalInstances * per + per < total <= p.pool.totalInstances * per
  }

  lemma ConvertedAs(py: Py, e: Flat, p: Placed)
    requires Convert(py, e) == Some(p)
    ensures PlacedAs(py, e, p)
  {
    assert GetOr(e.pool, "metadata", JObj([])) == JObj(Meta(e));
  }

  lemma EntryIsListed(raw: Dict<Json>, i: nat, j: nat)
    requires i < |raw| && raw[i].1.JObj? && j < |raw[i].1.members|
    requires raw[i].1.members[j].1.JObj? && Has(raw[i].1.members[j].1.members, "total")
    ensures Flat(raw[i].0, raw[i].1.members[j].0, raw[i].1.members[j].1.members) in FlatEntries(raw)
  {
    var pools := raw[i].1.members;
    var e := Flat(raw[i].0, pools[j].0, pools[j].1.members);
    assert e in FlatPools(raw[i].0)(pools[j]);
    CollectMembers(pools, FlatPools(raw[i].0), e);
    assert e in FlatProviders()(raw[i]);
    CollectMembers(raw, FlatProviders(), e);
  }

  /**
   Every entry of a legacy document, an object with a total under a provider that
   is an object, stands in the converted tree as the entry is read: under its
   provider, region and zone, in the fabric "default" without RDMA.
   */
  lemma {:induction false} LegacyEntryIsFound(py: Py, raw: Dict<Json>, tree: Dict<Cloud>, i: nat, j: nat)
    returns (p: Placed, at: PoolAt)
    requires ProperDocument(raw) && LegacyTree(py, raw) == Some(tree)
    requires i < |raw| && raw[i].1.JObj? && j < |raw[i].1.members|
    requires raw[i].1.members[j].1.JObj? && Has(raw[i].1.members[j].1.members, "total")
    ensures PlacedAs(py, Flat(raw[i].0, raw[i].1.members[j].0, raw[i].1.members[j].1.members), p)
    ensures at in MachinePools(tree) && at.fabricId == "default"
    ensures at.cloud == raw[i].0 && at.region == p.region && at.zone == p.zone
    ensures at.instanceType == raw[i].1.members[j].0 && at.pool == p.pool
  {
    var e := Flat(raw[i].0, raw[i].1.members[j].0, raw[i].1.members[j].1.members);
    var entries := FlatEntries(raw);
    EntryIsListed(raw, i, j);
    GrowEntriesSplits(py, entries);
    var placed := ConvertAll(py, entries).value;
    ConvertedInPlace(py, entries, placed);
    var k :| 0 <= k < |entries| && entries[k] == e;
    p := placed[k];
    ConvertedAs(py, e, p);
    ConversionKeepsEveryPool(py, raw, placed);
    at := PlacedIsFound(tree, placed, k);
  }

  lemma PlacedIsFound(tree: Dict<Cloud>, placed: seq<Placed>, k: nat) returns (at: PoolAt)
    requires k < |placed| && multiset(Spots(tree)) == multiset(Collect(placed, SpotOfPlaced()))
    ensures at in MachinePools(tree)
    ensures ToSpot(at) == Spot(placed[k].provider, placed[k].region, placed[k].zone, "default",
      placed[k].instanceType, placed[k].pool)
  {
    var p := placed[k];
    var spot := Spot(p.provider, p.region, p.zone, "default", p.instanceType, p.pool);
    assert spot in SpotOfPlaced()(p);
    CollectMembers(placed, SpotOfPlaced(), spot);
    assert spot in multiset(Spots(tree));
    CollectMembers(MachinePools(tree), SpotAt(), spot);
    var m :| 0 <= m < |MachinePools(tree)| && spot in SpotAt()(MachinePools(tree)[m]);
    at := MachinePools(tree)[m];
  }

  /** A fabric's attributes come from the first entry of its zone, and no RDMA from any. */
  lemma {:induction false} FirstEntryNamesFabric(tree: Dict<Cloud>, p: Placed)
    ensures FabricOf(Grow(tree, p), p).rdma == FabricOf(tree, p).rdma
    ensures FabricOf(Grow(tree, p), p).fabricType == FabricOf(tree, p).fabricType
    ensures !Has(ZoneOf(tree, p).fabrics, "default") ==> FabricOf(Grow(tree, p), p).fabricType == p.fabricType
    ensures !Has(ZoneOf(tree, p).fabrics, "default") ==> !FabricOf(Grow(tree, p), p).rdma
  {
    GrownCloud(tree, p);
    GrownRegion(CloudOf(tree, p), p);
    GrownZone(RegionOf(tree, p), p);
    GrownFabric(ZoneOf(tree, p), p);
  }

  lemma GrownCloud(tree: Dict<Cloud>, p: Placed)
    ensures CloudOf(Grow(tree, p), p) == IntoCloud(CloudOf(tree, p), p)
  {
    GetPut(tree, p.provider, IntoCloud(CloudOf(tree, p), p), p.provider);
  }

  lemma GrownRegion(cloud: Cloud, p: Placed)
    ensures Child(IntoCloud(cloud, p).regions, p.region, Region([])) ==
      IntoRegion(Child(cloud.regions, p.region, Region([])), p)
  {
    GetPut(cloud.regions, p.region, IntoRegion(Child(cloud.regions, p.region, Region([])), p), p.region);
  }

  lemma GrownZone(region: Region, p: Placed)
    ensures Child(IntoRegion(region, p).zones, p.zone, Zone([])) == IntoZone(Child(region.zones, p.zone, Zone([])), p)
  {
    GetPut(region.zones, p.zone, IntoZone(Child(region.zones, p.zone, Zone([])), p), p.zone);
  }

  lemma GrownFabric(zone: Zone, p: Placed)
    ensures
      var empty := NetworkFabric(p.fabricType, false, []);
      Child(IntoZone(zone, p).fabrics, "default", empty) == IntoFabric(Child(zone.fabrics, "default", empty), p)
  {
    var empty := NetworkFabric(p.fabricType, false, []);
    GetPut(zone.fabrics, "default", IntoFabric(Child(zone.fabrics, "default", empty), p), "default");
  }

  // GPUs.

  function Meta(e: Flat): Dict<Json> {
    var meta := GetOr(e.pool, "metadata", JObj([]));
    if meta.JObj? then meta.members else []
  }

  /** The entry's raw GPU total, as the conversion reads it. */
  function TotalOf(py: Py, e: Flat): int {
    var t := py.integer(GetOr(e.pool, "total", JInt(0)));
    if t.Some? then t.value else 0
  }

  function PerInstanceOf(py: Py, e: Flat): int {
    var g := py.integer(GetOr(Meta(e), "gpus_per_instance", JInt(1)));
    if g.Some? then g.value else 0
  }

  /** The GPUs that fill whole instances. */
  function WholeOf(py: Py, e: Flat): int {
    if PerInstanceOf(py, e) > 0 then TotalOf(py, e) - TotalOf(py, e) % PerInstanceOf(py, e) else 0
  }

  function RawTotal(py: Py): Flat -> int { (e: Flat) => TotalOf(py, e) }
  function PerInstance(py: Py): Flat -> int { (e: Flat) => PerInstanceOf(py, e) }
  function WholeInstances(py: Py): Flat -> int { (e: Flat) => WholeOf(py, e) }

  ghost predicate Countable(py: Py, entries: seq<Flat>) {
    forall i | 0 <= i < |entries| :: PerInstanceOf(py, entries[i]) > 0
  }

  lemma {:induction false} ConvertedGpus(py: Py, e: Flat, p: Placed)
    requires Convert(py, e) == Some(p) && PerInstanceOf(py, e) > 0
    ensures p.pool.TotalGpus() == WholeOf(py, e)
  {
    var total, g := TotalOf(py, e), PerInstanceOf(py, e);
    var meta := GetOr(e.pool, "metadata", JObj([]));
    assert meta.JObj? && Meta(e) == meta.members;
    assert p.pool.gpusPerInstance == g;
    assert p.pool.totalInstances == FloorDiv(total, g) == total / g;
    assert total == total / g * g + total % g;
  }

  function SpotGpus(): Spot -> int { (s: Spot) => s.pool.TotalGpus() }

  lemma SumOfSpots(tree: Dict<Cloud>)
    ensures Sum(Spots(tree), SpotGpus()) == Sum(MachinePools(tree), PoolGpus())
  {
    var items := MachinePools(tree);
    forall i | 0 <= i < |items| ensures Sum(SpotAt()(items[i]), SpotGpus()) == PoolGpus()(items[i]) {
      SumOne(ToSpot(items[i]), SpotGpus());
    }
    SumCollect(items, SpotAt(), SpotGpus(), PoolGpus());
  }

  function PlacedGpus(): Placed -> int { (p: Placed) => p.pool.TotalGpus() }

  lemma SumOfPlaced(py: Py, entries: seq<Flat>, placed: seq<Placed>)
    requires |placed| == |entries| && Countable(py, entries)
    requires forall i | 0 <= i < |entries| :: Convert(py, entries[i]) == Some(placed[i])
    ensures Sum(Collect(placed, SpotOfPlaced()), SpotGpus()) == Sum(entries, WholeInstances(py))
  {
    forall i | 0 <= i < |placed| ensures PlacedGpus()(placed[i]) == WholeInstances(py)(entries[i]) {
      ConvertedGpus(py, entries[i], placed[i]);
    }
    SumOfPlacedSpots(placed);
    SumPointwise(placed, PlacedGpus(), entries, WholeInstances(py));
  }

  lemma SumOfPlacedSpots(placed: seq<Placed>)
    ensures Sum(Collect(placed, SpotOfPlaced()), SpotGpus()) == Sum(placed, PlacedGpus())
  {
    forall i | 0 <= i < |placed| ensures Sum(SpotOfPlaced()(placed[i]), SpotGpus()) == PlacedGpus()(placed[i]) {
      SumOne(SpotOfPlaced()(placed[i])[0], SpotGpus());
    }
    SumCollect(placed, SpotOfPlaced(), SpotGpus(), PlacedGpus());
  }

  lemma {:induction false} RoundingIsBounded(py: Py, entries: seq<Flat>)
    requires Countable(py, entries)
    ensures Sum(entries, WholeInstances(py)) <= Sum(entries, RawTotal(py))
    ensures entries != [] ==>
      Sum(entries, RawTotal(py)) - Sum(entries, WholeInstances(py)) < Sum(entries, PerInstance(py))
    decreases |entries|
  {
    if entries != [] {
      var n := |entries| - 1;
      RoundingIsBounded(py, entries[..n]);
    }
  }

  lemma OneMarketSummary(rm: ResourceMap)
    requires |rm.market| == 1
    ensures TotalOver(SummaryOf(rm), EntryGpus()) == Sum(MachinePools(rm.clouds), PoolGpus())
  {
    SummaryConserves(rm);
  }

  /**
   The summary of a converted document counts every well-formed entry in whole
   instances: never more GPUs than the document, and short by less than one
   instance for each entry.
   */
  lemma {:induction false} LegacySummaryGpus(py: Py, raw: Dict<Json>, rm: ResourceMap)
    requires ProperDocument(raw) && Countable(py, FlatEntries(raw))
    requires LegacyTree(py, raw) == Some(rm.clouds) && rm.market == ["reserved"]
    ensures
      var entries, gpus := FlatEntries(raw), TotalOver(SummaryOf(rm), EntryGpus());
      && gpus == Sum(entries, WholeInstances(py))
      && gpus <= Sum(entries, RawTotal(py))
      && (entries != [] ==> Sum(entries, RawTotal(py)) - gpus < Sum(entries, PerInstance(py)))
  {
    OneMarketSummary(rm);
    TreeGpus(py, raw, rm.clouds);
    RoundingIsBounded(py, FlatEntries(raw));
  }

  lemma TreeGpus(py: Py, raw: Dict<Json>, tree: Dict<Cloud>)
    requires ProperDocument(raw) && LegacyTree(py, raw) == Some(tree) && Countable(py, FlatEntries(raw))
    ensures Sum(MachinePools(tree), PoolGpus()) == Sum(FlatEntries(raw), WholeInstances(py))
  {
    var entries := FlatEntries(raw);
    GrowEntriesSplits(py, entries);
    var placed := ConvertAll(py, entries).value;
    ConversionKeepsEveryPool(py, raw, placed);
    ConvertedInPlace(py, entries, placed);
    SumOfSpots(tree);
    SumRearranged(Spots(tree), Collect(placed, SpotOfPlaced()), SpotGpus());
    SumOfPlaced(py, entries, placed);
  }
}
