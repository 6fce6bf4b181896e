/** The five-level capacity tree, its traversal, and its flat scheduling summary. */
module ResourceMaps {
  import opened Results
  import opened Dicts
  import opened Folds

  datatype MachinePool = MachinePool(
    instanceFamily: Option<string>,
    gpuType: string,
    gpuMemoryGb: Option<int>,
    gpusPerInstance: int,
    totalInstances: int,
    price: Option<real>,
    interconnect: Option<string>)
  {
    function TotalGpus(): int { totalInstances * gpusPerInstance }
  }

  datatype NetworkFabric = NetworkFabric(fabricType: string, rdma: bool, pools: Dict<MachinePool>)
  datatype Zone = Zone(fabrics: Dict<NetworkFabric>)
  datatype Region = Region(zones: Dict<Zone>)
  datatype Cloud = Cloud(regions: Dict<Region>)
  datatype ResourceMap = ResourceMap(version: int, updatedAt: int, market: seq<string>, clouds: Dict<Cloud>)

  /** One pool with the path and the fabric attributes it is found under. */
  datatype PoolAt = PoolAt(
    cloud: string, region: string, zone: string,
    fabricId: string, fabricType: string, rdma: bool,
    instanceType: string, pool: MachinePool)

  function AtPool(c: string, r: string, z: string, fid: string, kind: string, rdma: bool): ((string,
      MachinePool)) -> seq<PoolAt> {
    (e: (string, MachinePool)) => [PoolAt(c, r, z, fid, kind, rdma, e.0, e.1)]
  }

  function FabricPools(c: string, r: string, z: string, fid: string, fabric: NetworkFabric): seq<PoolAt> {
    Collect(fabric.pools, AtPool(c, r, z, fid, fabric.fabricType, fabric.rdma))
  }

  function AtFabric(c: string, r: string, z: string): ((string, NetworkFabric)) -> seq<PoolAt> {
    (e: (string, NetworkFabric)) => FabricPools(c, r, z, e.0, e.1)
  }

  function ZonePools(c: string, r: string, z: string, zone: Zone): seq<PoolAt> {
    Collect(zone.fabrics, AtFabric(c, r, z))
  }

  function AtZone(c: string, r: string): ((string, Zone)) -> seq<PoolAt> {
    (e: (string, Zone)) => ZonePools(c, r, e.0, e.1)
  }

  function RegionPools(c: string, r: string, region: Region): seq<PoolAt> {
    Collect(region.zones, AtZone(c, r))
  }

  function AtRegion(c: string): ((string, Region)) -> seq<PoolAt> {
    (e: (string, Region)) => RegionPools(c, e.0, e.1)
  }

  function CloudPools(c: string, cloud: Cloud): seq<PoolAt> {
    Collect(cloud.regions, AtRegion(c))
  }

  function AtCloud(): ((string, Cloud)) -> seq<PoolAt> {
    (e: (string, Cloud)) => CloudPools(e.0, e.1)
  }

  /** Every machine pool of the tree, level by level in dict order. */
  function MachinePools(clouds: Dict<Cloud>): seq<PoolAt> {
    Collect(clouds, AtCloud())
  }

  datatype PoolDetail = PoolDetail(
    fabricId: string, fabricType: string, rdma: bool,
    instanceType: string, instanceFamily: Option<string>,
    total: int, totalInstances: int, gpusPerInstance: int,
    price: Option<real>)

  datatype Entry = Entry(
    total: int, totalInstances: int,
    gpuType: string, market: string, cloud: string, region: string, zone: string,
    pools: seq<PoolDetail>)

  type Summary = map<string, Entry>

  /** One turn of the inner loop: a pool offered in a market. */
  datatype Offer = Offer(market: string, at: PoolAt)

  function JoinKey(market: string, cloud: string, region: string, zone: string, gpu: string): string {
    market + "|" + cloud + "|" + region + "|" + zone + "|" + gpu
  }

  function KeyOf(o: Offer): string {
    JoinKey(o.market, o.at.cloud, o.at.region, o.at.zone, o.at.pool.gpuType)
  }

  function DetailOf(at: PoolAt): PoolDetail {
    PoolDetail(at.fabricId, at.fabricType, at.rdma, at.instanceType, at.pool.instanceFamily,
               at.pool.TotalGpus(), at.pool.totalInstances, at.pool.gpusPerInstance, at.pool.price)
  }

  function InMarkets(markets: seq<string>): PoolAt -> seq<Offer> {
    (at: PoolAt) => OffersIn(markets, at)
  }

  function OffersIn(markets: seq<string>, at: PoolAt): (r: seq<Offer>)
    ensures |r| == |markets| && forall i | 0 <= i < |markets| :: r[i] == Offer(markets[i], at)
  {
    if markets == [] then [] else OffersIn(markets[..|markets| - 1], at) + [Offer(markets[|markets| - 1], at)]
  }

  /** The turns of the two loops in order: pools outside, markets inside. */
  function Offers(items: seq<PoolAt>, markets: seq<string>): seq<Offer> {
    Collect(items, InMarkets(markets))
  }

  function Record(summary: Summary, o: Offer): Summary {
    var key, pool := KeyOf(o), o.at.pool;
    if key in summary then
      var e := summary[key];
      summary[key := e.(total := e.total + pool.TotalGpus(), totalInstances := e.totalInstances + pool.totalInstances,
                        pools := e.pools + [DetailOf(o.at)])]
    else
      summary[key := Entry(pool.TotalGpus(), pool.totalInstances, pool.gpuType, o.market,
                           o.at.cloud, o.at.region, o.at.zone, [DetailOf(o.at)])]
  }

  function RecordAll(offers: seq<Offer>): Summary {
    if offers == [] then map[] else Record(RecordAll(offers[..|offers| - 1]), offers[|offers| - 1])
  }

  function SummaryOf(rm: ResourceMap): Summary {
    RecordAll(Offers(MachinePools(rm.clouds), rm.market))
  }

  /** The text of a summary key. */
  predicate NamedBy(key: string, market: string, cloud: string, region: string, zone: string, gpu: string) {
    key == market + "|" + cloud + "|" + region + "|" + zone + "|" + gpu
  }

  /** The detail of a pool, field by field. */
  predicate Shows(d: PoolDetail, at: PoolAt) {
    && d.fabricId == at.fabricId && d.fabricType == at.fabricType && d.rdma == at.rdma
    && d.instanceType == at.instanceType && d.instanceFamily == at.pool.instanceFamily
    && d.total == at.pool.totalInstances * at.pool.gpusPerInstance
    && d.totalInstances == at.pool.totalInstances && d.gpusPerInstance == at.pool.gpusPerInstance
    && d.price == at.pool.price
  }

  /** The body of the loops: a new entry, or three updates of the entry that is there. */
  method AddOffer(summary: Summary, market: string, at: PoolAt) returns (r: Summary)
    ensures r == Record(summary, Offer(market, at))
  {
    var envKey := JoinKey(market, at.cloud, at.region, at.zone, at.pool.gpuType);
    var detail := DetailOf(at);
    if envKey !in summary {
      r := summary[envKey := Entry(at.pool.TotalGpus(), at.pool.totalInstances, at.pool.gpuType, market,
                                   at.cloud, at.region, at.zone, [detail])];
    } else {
      var entry := summary[envKey];
      entry := entry.(total := entry.total + at.pool.TotalGpus());
      entry := entry.(totalInstances := entry.totalInstances + at.pool.totalInstances);
      entry := entry.(pools := entry.pools + [detail]);
      r := summary[envKey := entry];
    }
  }

  method SchedulingSummary(rm: ResourceMap) returns (summary: Summary)
    ensures summary == SummaryOf(rm)
  {
    summary := map[];
    var items := MachinePools(rm.clouds);
    for i := 0 to |items|
      invariant summary == RecordAll(Offers(items[..i], rm.market))
    {
      var at := items[i];
      ghost var before := Offers(items[..i], rm.market);
      assert before + OffersIn(rm.market[..0], at) == before;
      for j := 0 to |rm.market|
        invariant summary == RecordAll(before + OffersIn(rm.market[..j], at))
      {
        var market := rm.market[j];
        RecordNext(before, rm.market, j, at);
        summary := AddOffer(summary, market, at);
      }
      assert rm.market[..|rm.market|] == rm.market;
      assert items[..i + 1][..i] == items[..i];
    }
    assert items[..|items|] == items;
  }

  lemma RecordNext(before: seq<Offer>, markets: seq<string>, j: nat, at: PoolAt)
    requires j < |markets|
    ensures RecordAll(before + OffersIn(markets[..j + 1], at)) ==
      Record(RecordAll(before + OffersIn(markets[..j], at)), Offer(markets[j], at))
  {
    var more := OffersIn(markets[..j], at);
    assert markets[..j + 1][..j] == markets[..j];
    assert OffersIn(markets[..j + 1], at) == more + [Offer(markets[j], at)];
    var all := before + (more + [Offer(markets[j], at)]);
    assert all[..|all| - 1] == before + more;
  }
}
