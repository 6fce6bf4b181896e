/** What the traversal of the capacity tree yields. */
module TreeWalk {
  import opened Dicts
  import opened Folds
  import opened ResourceMaps

  /** The pool at a place of the tree. */
  ghost predicate FoundAt(clouds: Dict<Cloud>, at: PoolAt) {
    exists cloud, region, zone, fabric ::
      && (at.cloud, cloud) in clouds && (at.region, region) in cloud.regions && (at.zone, zone) in region.zones
      && (at.fabricId, fabric) in zone.fabrics && (at.instanceType, at.pool) in fabric.pools
      && at.fabricType == fabric.fabricType && at.rdma == fabric.rdma
  }

  lemma InFabric(c: string, r: string, z: string, fid: string, fabric: NetworkFabric, at: PoolAt)
    ensures at in FabricPools(c, r, z, fid, fabric) <==>
      && at.cloud == c && at.region == r && at.zone == z && at.fabricId == fid
      && at.fabricType == fabric.fabricType && at.rdma == fabric.rdma && (at.instanceType, at.pool) in fabric.pools
  {
    var f := AtPool(c, r, z, fid, fabric.fabricType, fabric.rdma);
    CollectMembers(fabric.pools, f, at);
    if at in FabricPools(c, r, z, fid, fabric) {
      var i :| 0 <= i < |fabric.pools| && at in f(fabric.pools[i]);
      assert at == PoolAt(c, r, z, fid, fabric.fabricType, fabric.rdma, fabric.pools[i].0, fabric.pools[i].1);
    }
    if (at.instanceType, at.pool) in fabric.pools {
      var i :| 0 <= i < |fabric.pools| && fabric.pools[i] == (at.instanceType, at.pool);
      if at.cloud == c && at.region == r && at.zone == z && at.fabricId == fid &&
         at.fabricType == fabric.fabricType && at.rdma == fabric.rdma {
        assert at in f(fabric.pools[i]);
      }
    }
  }

  lemma InZone(c: string, r: string, z: string, zone: Zone, at: PoolAt)
    ensures at in ZonePools(c, r, z, zone) <==>
      exists fabric :: (at.fabricId, fabric) in zone.fabrics && at in FabricPools(c, r, z, at.fabricId, fabric)
  {
    CollectMembers(zone.fabrics, AtFabric(c, r, z), at);
    if at in ZonePools(c, r, z, zone) {
      var i :| 0 <= i < |zone.fabrics| && at in AtFabric(c, r, z)(zone.fabrics[i]);
      InFabric(c, r, z, zone.fabrics[i].0, zone.fabrics[i].1, at);
      assert (at.fabricId, zone.fabrics[i].1) in zone.fabrics;
    }
    if fabric :| (at.fabricId, fabric) in zone.fabrics && at in FabricPools(c, r, z, at.fabricId, fabric) {
      assert at in AtFabric(c, r, z)((at.fabricId, fabric));
    }
  }

  lemma InRegion(c: string, r: string, region: Region, at: PoolAt)
    ensures at in RegionPools(c, r, region) <==>
      exists zone :: (at.zone, zone) in region.zones && at in ZonePools(c, r, at.zone, zone)
  {
    CollectMembers(region.zones, AtZone(c, r), at);
    if at in RegionPools(c, r, region) {
      var i :| 0 <= i < |region.zones| && at in AtZone(c, r)(region.zones[i]);
      var z, zone := region.zones[i].0, region.zones[i].1;
      InZone(c, r, z, zone, at);
      var fabric :| (at.fabricId, fabric) in zone.fabrics && at in FabricPools(c, r, z, at.fabricId, fabric);
      InFabric(c, r, z, at.fabricId, fabric, at);
      assert (at.zone, zone) in region.zones;
    }
    if zone :| (at.zone, zone) in region.zones && at in ZonePools(c, r, at.zone, zone) {
      assert at in AtZone(c, r)((at.zone, zone));
    }
  }

  lemma ZoneNames(c: string, r: string, z: string, zone: Zone, at: PoolAt)
    requires at in ZonePools(c, r, z, zone)
    ensures at.cloud == c && at.region == r && at.zone == z
  {
    InZone(c, r, z, zone, at);
    var fabric :| (at.fabricId, fabric) in zone.fabrics && at in FabricPools(c, r, z, at.fabricId, fabric);
    InFabric(c, r, z, at.fabricId, fabric, at);
  }

  lemma InCloud(c: string, cloud: Cloud, at: PoolAt)
    ensures at in CloudPools(c, cloud) <==>
      exists region :: (at.region, region) in cloud.regions && at in RegionPools(c, at.region, region)
  {
    CollectMembers(cloud.regions, AtRegion(c), at);
    if at in CloudPools(c, cloud) {
      var i :| 0 <= i < |cloud.regions| && at in AtRegion(c)(cloud.regions[i]);
      var r, region := cloud.regions[i].0, cloud.regions[i].1;
      InRegion(c, r, region, at);
      var zone :| (at.zone, zone) in region.zones && at in ZonePools(c, r, at.zone, zone);
      ZoneNames(c, r, at.zone, zone, at);
      assert (at.region, region) in cloud.regions;
    }
    if region :| (at.region, region) in cloud.regions && at in RegionPools(c, at.region, region) {
      assert at in AtRegion(c)((at.region, region));
    }
  }

  lemma CloudName(c: string, cloud: Cloud, at: PoolAt)
    requires at in CloudPools(c, cloud)
    ensures at.cloud == c
  {
    InCloud(c, cloud, at);
    var region :| (at.region, region) in cloud.regions && at in RegionPools(c, at.region, region);
    InRegion(c, at.region, region, at);
    var zone :| (at.zone, zone) in region.zones && at in ZonePools(c, at.region, at.zone, zone);
    ZoneNames(c, at.region, at.zone, zone, at);
  }

  lemma InTree(clouds: Dict<Cloud>, at: PoolAt)
    ensures at in MachinePools(clouds) <==>
      exists cloud :: (at.cloud, cloud) in clouds && at in CloudPools(at.cloud, cloud)
  {
    CollectMembers(clouds, AtCloud(), at);
    if at in MachinePools(clouds) {
      var i :| 0 <= i < |clouds| && at in AtCloud()(clouds[i]);
      CloudName(clouds[i].0, clouds[i].1, at);
      assert (at.cloud, clouds[i].1) in clouds;
    }
    if cloud :| (at.cloud, cloud) in clouds && at in CloudPools(at.cloud, cloud) {
      assert at in AtCloud()((at.cloud, cloud));
    }
  }

  lemma TreeHasPool(clouds: Dict<Cloud>, at: PoolAt)
    requires at in MachinePools(clouds)
    ensures FoundAt(clouds, at)
  {
    InTree(clouds, at);
    var cloud :| (at.cloud, cloud) in clouds && at in CloudPools(at.cloud, cloud);
    InCloud(at.cloud, cloud, at);
    var region :| (at.region, region) in cloud.regions && at in RegionPools(at.cloud, at.region, region);
    InRegion(at.cloud, at.region, region, at);
    var zone :| (at.zone, zone) in region.zones && at in ZonePools(at.cloud, at.region, at.zone, zone);
    InZone(at.cloud, at.region, at.zone, zone, at);
    var fabric :| (at.fabricId, fabric) in zone.fabrics &&
      at in FabricPools(at.cloud, at.region, at.zone, at.fabricId, fabric);
    InFabric(at.cloud, at.region, at.zone, at.fabricId, fabric, at);
  }

  /**
   The traversal yields exactly the pools of the tree, each with the names on its path and
   its fabric's attributes.
   */
  lemma {:induction false} TraversalFindsPools(clouds: Dict<Cloud>, at: PoolAt)
    ensures at in MachinePools(clouds) <==> FoundAt(clouds, at)
  {
    if at in MachinePools(clouds) { TreeHasPool(clouds, at); }
    if FoundAt(clouds, at) {
      var cloud, region, zone, fabric :|
        && (at.cloud, cloud) in clouds && (at.region, region) in cloud.regions && (at.zone, zone) in region.zones
        && (at.fabricId, fabric) in zone.fabrics && (at.instanceType, at.pool) in fabric.pools
        && at.fabricType == fabric.fabricType && at.rdma == fabric.rdma;
      InFabric(at.cloud, at.region, at.zone, at.fabricId, fabric, at);
      InZone(at.cloud, at.region, at.zone, zone, at);
      InRegion(at.cloud, at.region, region, at);
      InCloud(at.cloud, cloud, at);
      InTree(clouds, at);
    }
  }

  // Nothing is visited twice.

  ghost predicate UniqueZone(zone: Zone) {
    UniqueKeys(zone.fabrics) && forall i | 0 <= i < |zone.fabrics| :: UniqueKeys(zone.fabrics[i].1.pools)
  }

  ghost predicate UniqueRegion(region: Region) {
    UniqueKeys(region.zones) && forall i | 0 <= i < |region.zones| :: UniqueZone(region.zones[i].1)
  }

  ghost predicate UniqueCloud(cloud: Cloud) {
    UniqueKeys(cloud.regions) && forall i | 0 <= i < |cloud.regions| :: UniqueRegion(cloud.regions[i].1)
  }

  /** Keys are unique at every level, as in dicts. */
  ghost predicate UniqueTree(clouds: Dict<Cloud>) {
    UniqueKeys(clouds) && forall i | 0 <= i < |clouds| :: UniqueCloud(clouds[i].1)
  }

  lemma FabricVisitsOnce(c: string, r: string, z: string, fid: string, fabric: NetworkFabric)
    requires UniqueKeys(fabric.pools)
    ensures Distinct(FabricPools(c, r, z, fid, fabric))
  {
    CollectDistinct(fabric.pools, AtPool(c, r, z, fid, fabric.fabricType, fabric.rdma));
  }

  lemma ZoneVisitsOnce(c: string, r: string, z: string, zone: Zone)
    requires UniqueZone(zone)
    ensures Distinct(ZonePools(c, r, z, zone))
  {
    var f := AtFabric(c, r, z);
    forall i | 0 <= i < |zone.fabrics| ensures Distinct(f(zone.fabrics[i])) {
      FabricVisitsOnce(c, r, z, zone.fabrics[i].0, zone.fabrics[i].1);
    }
    forall i, j, at | 0 <= i < j < |zone.fabrics| && at in f(zone.fabrics[i]) ensures at !in f(zone.fabrics[j]) {
      InFabric(c, r, z, zone.fabrics[i].0, zone.fabrics[i].1, at);
      InFabric(c, r, z, zone.fabrics[j].0, zone.fabrics[j].1, at);
    }
    CollectDistinct(zone.fabrics, f);
  }

  lemma RegionVisitsOnce(c: string, r: string, region: Region)
    requires UniqueRegion(region)
    ensures Distinct(RegionPools(c, r, region))
  {
    var f := AtZone(c, r);
    forall i | 0 <= i < |region.zones| ensures Distinct(f(region.zones[i])) {
      ZoneVisitsOnce(c, r, region.zones[i].0, region.zones[i].1);
    }
    forall i, j, at | 0 <= i < j < |region.zones| && at in f(region.zones[i]) ensures at !in f(region.zones[j]) {
      ZoneNames(c, r, region.zones[i].0, region.zones[i].1, at);
      if at in f(region.zones[j]) { ZoneNames(c, r, region.zones[j].0, region.zones[j].1, at); }
    }
    CollectDistinct(region.zones, f);
  }

  lemma RegionName(c: string, r: string, region: Region, at: PoolAt)
    requires at in RegionPools(c, r, region)
    ensures at.region == r
  {
    InRegion(c, r, region, at);
    var zone :| (at.zone, zone) in region.zones && at in ZonePools(c, r, at.zone, zone);
    ZoneNames(c, r, at.zone, zone, at);
  }

  lemma CloudVisitsOnce(c: string, cloud: Cloud)
    requires UniqueCloud(cloud)
    ensures Distinct(CloudPools(c, cloud))
  {
    var f := AtRegion(c);
    forall i | 0 <= i < |cloud.regions| ensures Distinct(f(cloud.regions[i])) {
      RegionVisitsOnce(c, cloud.regions[i].0, cloud.regions[i].1);
    }
    forall i, j, at | 0 <= i < j < |cloud.regions| && at in f(cloud.regions[i]) ensures at !in f(cloud.regions[j]) {
      RegionName(c, cloud.regions[i].0, cloud.regions[i].1, at);
      if at in f(cloud.regions[j]) { RegionName(c, cloud.regions[j].0, cloud.regions[j].1, at); }
    }
    CollectDistinct(cloud.regions, f);
  }

  /** The traversal visits no pool twice. */
  lemma {:induction false} TraversalVisitsOnce(clouds: Dict<Cloud>)
    requires UniqueTree(clouds)
    ensures Distinct(MachinePools(clouds))
  {
    var f := AtCloud();
    forall i | 0 <= i < |clouds| ensures Distinct(f(clouds[i])) { CloudVisitsOnce(clouds[i].0, clouds[i].1); }
    forall i, j, at | 0 <= i < j < |clouds| && at in f(clouds[i]) ensures at !in f(clouds[j]) {
      CloudName(clouds[i].0, clouds[i].1, at);
      if at in f(clouds[j]) { CloudName(clouds[j].0, clouds[j].1, at); }
    }
    CollectDistinct(clouds, f);
  }
}
