/** Publishing a map and reading it back through a store that reorders object members. */
module ResourceMapLaws {
  import opened Results
  import opened Dicts
  import opened Folds
  import opened JsonValues
  import opened Shuffles
  import opened ResourceMaps
  import opened SummaryLaws
  import opened LegacyPools
  import opened ResourceMapStore

  /** Shuffling an object adds no fields. */
  lemma FieldsStayAllowed(ma: Dict<Json>, mb: Dict<Json>, allowed: set<string>)
    requires Shuffled(JObj(ma), JObj(mb)) && OnlyFields(ma, allowed)
    ensures OnlyFields(mb, allowed)
  {
    forall j | 0 <= j < |mb| ensures mb[j].0 in allowed {
      assert Has(mb, mb[j].0);
      var i :| 0 <= i < |ma| && ma[i].0 == mb[j].0;
    }
  }

  lemma InterconnectReadsBack(link: Option<string>, j: Json)
    requires Shuffled(match link case None => JNull case Some(t) => JObj([("type", JStr(t))]), j)
    ensures DecodeInterconnect(Some(j)) == Some(link)
  {
    if link.Some? {
      var ma := [("type", JStr(link.value))];
      MemberOfShuffled(ma, j.members, 0);
      FieldsStayAllowed(ma, j.members, {"type"});
    }
  }

  ghost predicate HoldsFields(mb: Dict<Json>, p: MachinePool) {
    && Get(mb, "instance_family") == Some(TextJson(p.instanceFamily))
    && Get(mb, "gpu_type") == Some(JStr(p.gpuType))
    && OptionalInt(Get(mb, "gpu_memory_gb")) == Some(p.gpuMemoryGb)
    && Get(mb, "gpus_per_instance") == Some(JInt(p.gpusPerInstance))
    && Get(mb, "total_instances") == Some(JInt(p.totalInstances))
    && OptionalReal(Get(mb, "price_per_instance_hour")) == Some(p.price)
  }

  lemma PoolFieldsFound(p: MachinePool, mb: Dict<Json>)
    requires LeavesFound(PoolFields(p), mb)
    ensures HoldsFields(mb, p)
  {
    var ma := PoolFields(p);
    assert ma[0].0 == "instance_family" && ma[1].0 == "gpu_type" && ma[2].0 == "gpu_memory_gb";
    assert ma[3].0 == "gpus_per_instance" && ma[4].0 == "total_instances" && ma[5].0 == "price_per_instance_hour";
  }

  lemma LinkFound(p: MachinePool, mb: Dict<Json>)
    requires Shuffled(PoolJson(p), JObj(mb))
    ensures DecodeInterconnect(Get(mb, "intra_machine_interconnect")) == Some(p.interconnect)
  {
    MemberOfShuffled(PoolFields(p), mb, 6);
    InterconnectReadsBack(p.interconnect, Get(mb, "intra_machine_interconnect").value);
  }

  lemma PoolFromFields(p: MachinePool, family: Option<Json>, gpuType: Option<Json>, memory: Option<Json>,
                       per: Option<Json>, instances: Option<Json>, price: Option<Json>, link: Option<Json>)
    requires family == Some(TextJson(p.instanceFamily)) && gpuType == Some(JStr(p.gpuType))
    requires OptionalInt(memory) == Some(p.gpuMemoryGb) && per == Some(JInt(p.gpusPerInstance))
    requires instances == Some(JInt(p.totalInstances)) && OptionalReal(price) == Some(p.price)
    requires DecodeInterconnect(link) == Some(p.interconnect)
    ensures PoolOf(family, gpuType, memory, per, instances, price, link) == Some(p)
  {
  }

  lemma PoolDecodes(p: MachinePool, mb: Dict<Json>)
    requires HoldsFields(mb, p) && OnlyFields(mb, POOL_FIELDS)
    requires DecodeInterconnect(Get(mb, "intra_machine_interconnect")) == Some(p.interconnect)
    ensures DecodePool(JObj(mb)) == Some(p)
  {
    PoolFromFields(p, Get(mb, "instance_family"), Get(mb, "gpu_type"), Get(mb, "gpu_memory_gb"),
                   Get(mb, "gpus_per_instance"), Get(mb, "total_instances"),
                   Get(mb, "price_per_instance_hour"), Get(mb, "intra_machine_interconnect"));
  }

  lemma PoolFieldsAllowed(p: MachinePool, mb: Dict<Json>)
    requires Shuffled(PoolJson(p), JObj(mb))
    ensures OnlyFields(mb, POOL_FIELDS)
  {
    assert OnlyFields(PoolFields(p), POOL_FIELDS);
    FieldsStayAllowed(PoolFields(p), mb, POOL_FIELDS);
  }

  lemma PoolLeavesFound(p: MachinePool, mb: Dict<Json>)
    requires Shuffled(PoolJson(p), JObj(mb))
    ensures HoldsFields(mb, p)
  {
    LeavesOfShuffled(PoolFields(p), mb);
    PoolFieldsFound(p, mb);
  }

  lemma {:induction false} PoolReadsBack(p: MachinePool, j: Json)
    requires Shuffled(PoolJson(p), j)
    ensures DecodePool(j) == Some(p)
  {
    PoolLeavesFound(p, j.members);
    LinkFound(p, j.members);
    PoolFieldsAllowed(p, j.members);
    PoolDecodes(p, j.members);
  }

  lemma FabricLeavesFound(f: NetworkFabric, mb: Dict<Json>)
    requires Shuffled(FabricJson(f), JObj(mb))
    ensures Get(mb, "fabric_type") == Some(JStr(f.fabricType))
    ensures Get(mb, "gpu_direct_rdma") == Some(JBool(f.rdma))
    ensures OnlyFields(mb, {"fabric_type", "gpu_direct_rdma", "machine_pools"})
  {
    LeafOfShuffled(FabricFields(f), mb, 0);
    LeafOfShuffled(FabricFields(f), mb, 1);
    FieldsStayAllowed(FabricFields(f), mb, {"fabric_type", "gpu_direct_rdma", "machine_pools"});
  }

  lemma FabricPoolsFound(f: NetworkFabric, mb: Dict<Json>)
    requires Shuffled(FabricJson(f), JObj(mb))
    ensures
      var pools := DecodeChildren(mb, "machine_pools", DecodePool);
      pools.Some? && SameDict(f.pools, pools.value, SamePool)
  {
    MemberOfShuffled(FabricFields(f), mb, 2);
    PoolsReadBack(f.pools, Get(mb, "machine_pools").value.members);
  }

  lemma FabricReadsBack(f: NetworkFabric, j: Json)
    requires Shuffled(FabricJson(f), j)
    ensures DecodeFabric(j).Some? && SameFabric(f, DecodeFabric(j).value)
  {
    FabricLeavesFound(f, j.members);
    FabricPoolsFound(f, j.members);
  }

  lemma PoolsReadBack(d: Dict<MachinePool>, members: Dict<Json>)
    requires Shuffled(JObj(MapDict(d, PoolJson)), JObj(members))
    ensures DecodeDict(members, DecodePool).Some? && SameDict(d, DecodeDict(members, DecodePool).value, SamePool)
  {
    ShuffledDict(d, PoolJson, members);
    forall i, j | 0 <= i < |d| && 0 <= j < |members| && d[i].0 == members[j].0
      ensures DecodePool(members[j].1).Some? && SamePool(d[i].1, DecodePool(members[j].1).value)
    {
      ShuffledValue(d, PoolJson, members, i, j);
      PoolReadsBack(d[i].1, members[j].1);
    }
    DictReadsBack(d, members, DecodePool, SamePool);
  }

  lemma ZoneReadsBack(z: Zone, j: Json)
    requires Shuffled(ZoneJson(z), j)
    ensures DecodeZone(j).Some? && SameZone(z, DecodeZone(j).value)
  {
    var ma := [("network_fabrics", JObj(MapDict(z.fabrics, FabricJson)))];
    MemberOfShuffled(ma, j.members, 0);
    FieldsStayAllowed(ma, j.members, {"network_fabrics"});
    FabricsReadBack(z.fabrics, Get(j.members, "network_fabrics").value.members);
  }

  lemma FabricsReadBack(d: Dict<NetworkFabric>, members: Dict<Json>)
    requires Shuffled(JObj(MapDict(d, FabricJson)), JObj(members))
    ensures DecodeDict(members, DecodeFabric).Some? && SameDict(d, DecodeDict(members, DecodeFabric).value, SameFabric)
  {
    ShuffledDict(d, FabricJson, members);
    forall i, j | 0 <= i < |d| && 0 <= j < |members| && d[i].0 == members[j].0
      ensures DecodeFabric(members[j].1).Some? && SameFabric(d[i].1, DecodeFabric(members[j].1).value)
    {
      ShuffledValue(d, FabricJson, members, i, j);
      FabricReadsBack(d[i].1, members[j].1);
    }
    DictReadsBack(d, members, DecodeFabric, SameFabric);
  }

  lemma RegionReadsBack(r: Region, j: Json)
    requires Shuffled(RegionJson(r), j)
    ensures DecodeRegion(j).Some? && SameRegion(r, DecodeRegion(j).value)
  {
    var ma := [("zones", JObj(MapDict(r.zones, ZoneJson)))];
    MemberOfShuffled(ma, j.members, 0);
    FieldsStayAllowed(ma, j.members, {"zones"});
    ZonesReadBack(r.zones, Get(j.members, "zones").value.members);
  }

  lemma ZonesReadBack(d: Dict<Zone>, members: Dict<Json>)
    requires Shuffled(JObj(MapDict(d, ZoneJson)), JObj(members))
    ensures DecodeDict(members, DecodeZone).Some? && SameDict(d, DecodeDict(members, DecodeZone).value, SameZone)
  {
    ShuffledDict(d, ZoneJson, members);
    forall i, j | 0 <= i < |d| && 0 <= j < |members| && d[i].0 == members[j].0
      ensures DecodeZone(members[j].1).Some? && SameZone(d[i].1, DecodeZone(members[j].1).value)
    {
      ShuffledValue(d, ZoneJson, members, i, j);
      ZoneReadsBack(d[i].1, members[j].1);
    }
    DictReadsBack(d, members, DecodeZone, SameZone);
  }

  lemma CloudReadsBack(c: Cloud, j: Json)
    requires Shuffled(CloudJson(c), j)
    ensures DecodeCloud(j).Some? && SameCloud(c, DecodeCloud(j).value)
  {
    var ma := [("regions", JObj(MapDict(c.regions, RegionJson)))];
    MemberOfShuffled(ma, j.members, 0);
    FieldsStayAllowed(ma, j.members, {"regions"});
    RegionsReadBack(c.regions, Get(j.members, "regions").value.members);
  }

  lemma RegionsReadBack(d: Dict<Region>, members: Dict<Json>)
    requires Shuffled(JObj(MapDict(d, RegionJson)), JObj(members))
    ensures DecodeDict(members, DecodeRegion).Some? && SameDict(d, DecodeDict(members, DecodeRegion).value, SameRegion)
  {
    ShuffledDict(d, RegionJson, members);
    forall i, j | 0 <= i < |d| && 0 <= j < |members| && d[i].0 == members[j].0
      ensures DecodeRegion(members[j].1).Some? && SameRegion(d[i].1, DecodeRegion(members[j].1).value)
    {
      ShuffledValue(d, RegionJson, members, i, j);
      RegionReadsBack(d[i].1, members[j].1);
    }
    DictReadsBack(d, members, DecodeRegion, SameRegion);
  }

  lemma CloudsReadBack(d: Dict<Cloud>, members: Dict<Json>)
    requires Shuffled(JObj(MapDict(d, CloudJson)), JObj(members))
    ensures DecodeDict(members, DecodeCloud).Some? && SameClouds(d, DecodeDict(members, DecodeCloud).value)
  {
    ShuffledDict(d, CloudJson, members);
    forall i, j | 0 <= i < |d| && 0 <= j < |members| && d[i].0 == members[j].0
      ensures DecodeCloud(members[j].1).Some? && SameCloud(d[i].1, DecodeCloud(members[j].1).value)
    {
      ShuffledValue(d, CloudJson, members, i, j);
      CloudReadsBack(d[i].1, members[j].1);
    }
    DictReadsBack(d, members, DecodeCloud, SameCloud);
  }

  // Every map built from dicts has a document, so the round trip is about all of them.

  lemma ProperDict<V>(d: Dict<V>, encode: V -> Json)
    requires UniqueKeys(d) && forall i | 0 <= i < |d| :: Proper(encode(d[i].1))
    ensures Proper(JObj(MapDict(d, encode)))
  {
    var m := MapDict(d, encode);
    assert UniqueKeys(m) by { MapDictKeys(d, encode); }
    forall i | 0 <= i < |m| ensures Proper(m[i].1) { assert m[i].1 == encode(d[i].1); }
    ObjectIsProper(m);
  }

  lemma ObjectIsProper(m: Dict<Json>)
    requires UniqueKeys(m) && forall i | 0 <= i < |m| :: Proper(m[i].1)
    ensures Proper(JObj(m))
  {
  }

  lemma PoolKeysUnique(p: MachinePool)
    ensures UniqueKeys(PoolFields(p))
  {
    var m := PoolFields(p);
    assert |m[0].0| == 15 && |m[1].0| == 8 && |m[2].0| == 13 && |m[3].0| == 17 && |m[4].0| == 15 && |m[5].0| == 23 &&
      |m[6].0| == 26;
    assert m[0].0[0] == 'i' && m[4].0[0] == 't';
  }

  lemma PoolProper(p: MachinePool)
    ensures Proper(PoolJson(p))
  {
    PoolKeysUnique(p);
  }

  lemma FabricProper(f: NetworkFabric)
    requires SameFabric(f, f)
    ensures Proper(FabricJson(f))
  {
    forall i | 0 <= i < |f.pools| ensures Proper(PoolJson(f.pools[i].1)) { PoolProper(f.pools[i].1); }
    ProperDict(f.pools, PoolJson);
    var m := FabricFields(f);
    assert |m[0].0| == 11 && |m[1].0| == 15 && |m[2].0| == 13;
  }

  lemma ZoneProper(z: Zone)
    requires SameZone(z, z)
    ensures Proper(ZoneJson(z))
  {
    forall i | 0 <= i < |z.fabrics| ensures Proper(FabricJson(z.fabrics[i].1)) { FabricProper(z.fabrics[i].1); }
    ProperDict(z.fabrics, FabricJson);
  }

  lemma RegionProper(r: Region)
    requires SameRegion(r, r)
    ensures Proper(RegionJson(r))
  {
    forall i | 0 <= i < |r.zones| ensures Proper(ZoneJson(r.zones[i].1)) { ZoneProper(r.zones[i].1); }
    ProperDict(r.zones, ZoneJson);
  }

  lemma CloudProper(c: Cloud)
    requires SameCloud(c, c)
    ensures Proper(CloudJson(c))
  {
    forall i | 0 <= i < |c.regions| ensures Proper(RegionJson(c.regions[i].1)) { RegionProper(c.regions[i].1); }
    ProperDict(c.regions, RegionJson);
  }

  /** The document of a map whose dicts have unique keys is itself one that the store may keep. */
  lemma {:induction false} BodyIsProper(rm: ResourceMap)
    requires SameClouds(rm.clouds, rm.clouds)
    ensures Proper(BodyJson(rm)) && Shuffled(BodyJson(rm), BodyJson(rm))
  {
    forall i | 0 <= i < |rm.clouds| ensures Proper(CloudJson(rm.clouds[i].1)) { CloudProper(rm.clouds[i].1); }
    ProperDict(rm.clouds, CloudJson);
    assert |"clouds"| == 6 && |"market"| == 6 && "clouds"[0] == 'c' && "market"[0] == 'm';
    assert Proper(BodyJson(rm));
    ProperIsShuffledSelf(BodyJson(rm));
  }

  /** The market list after one trip through the store. */
  function ReadMarket(market: seq<string>): seq<string> {
    if market == [] then ["reserved"] else market
  }

  /**
   Whatever order the store gives the members of objects, a published map reads back as an
   equal tree with its market list.
   */
  lemma {:induction false} BodyReadsBack(py: Py, rm: ResourceMap, j: Json)
    requires Shuffled(BodyJson(rm), j)
    ensures j.JObj? && BodyFromJson(py, j.members).Some?
    ensures var (market, clouds) := BodyFromJson(py, j.members).value;
      market == ReadMarket(rm.market) && SameClouds(rm.clouds, clouds)
  {
    BodyMarketFound(rm, j.members);
    BodyCloudsFound(rm, j.members);
  }

  lemma BodyMarketFound(rm: ResourceMap, mb: Dict<Json>)
    requires Shuffled(BodyJson(rm), JObj(mb))
    ensures DecodeMarket(GetOr(mb, "market", JArr([JStr("reserved")]))) == Some(ReadMarket(rm.market))
  {
    MemberOfShuffled(BodyFields(rm), mb, 0);
    MarketReadsBack(rm.market, Get(mb, "market").value);
  }

  lemma BodyCloudsFound(rm: ResourceMap, mb: Dict<Json>)
    requires Shuffled(BodyJson(rm), JObj(mb))
    ensures Has(mb, "clouds")
    ensures var body := GetOr(mb, "clouds", JObj([]));
      body.JObj? && DecodeDict(body.members, DecodeCloud).Some?
      && SameClouds(rm.clouds, DecodeDict(body.members, DecodeCloud).value)
  {
    MemberOfShuffled(BodyFields(rm), mb, 1);
    var body := Get(mb, "clouds").value;
    CloudsReadBack(rm.clouds, body.members);
  }

  lemma MarketReadsBack(market: seq<string>, stored: Json)
    requires Shuffled(JArr(Texts(market)), stored)
    ensures stored.JArr?
    ensures stored.items == [] <==> market == []
    ensures DecodeMarket(stored) == Some(market)
    ensures DecodeMarket(JArr([JStr("reserved")])) == Some(["reserved"])
  {
    forall i | 0 <= i < |market| ensures stored.items[i] == JStr(market[i]) {
      assert Shuffled(Texts(market)[i], stored.items[i]);
    }
    assert DecodeTexts(stored.items).value == market;
    assert DecodeTexts([JStr("reserved")]).value == ["reserved"];
  }

  // Equal trees have the same pools.

  lemma SameFabricPools(c: string, r: string, z: string, fid: string, a: NetworkFabric, b: NetworkFabric)
    requires SameFabric(a, b)
    ensures multiset(FabricPools(c, r, z, fid, a)) == multiset(FabricPools(c, r, z, fid, b))
  {
    CollectSameDict(a.pools, b.pools, SamePool, AtPool(c, r, z, fid, a.fabricType, a.rdma));
  }

  lemma SameZonePools(c: string, r: string, z: string, a: Zone, b: Zone)
    requires SameZone(a, b)
    ensures multiset(ZonePools(c, r, z, a)) == multiset(ZonePools(c, r, z, b))
  {
    forall i, j | 0 <= i < |a.fabrics| && 0 <= j < |b.fabrics| && a.fabrics[i].0 == b.fabrics[j].0 &&
      SameFabric(a.fabrics[i].1, b.fabrics[j].1)
      ensures multiset(AtFabric(c, r, z)(a.fabrics[i])) == multiset(AtFabric(c, r, z)(b.fabrics[j]))
    {
      SameFabricPools(c, r, z, a.fabrics[i].0, a.fabrics[i].1, b.fabrics[j].1);
    }
    CollectSameDict(a.fabrics, b.fabrics, SameFabric, AtFabric(c, r, z));
  }

  lemma SameRegionPools(c: string, r: string, a: Region, b: Region)
    requires SameRegion(a, b)
    ensures multiset(RegionPools(c, r, a)) == multiset(RegionPools(c, r, b))
  {
    forall i, j | 0 <= i < |a.zones| && 0 <= j < |b.zones| && a.zones[i].0 == b.zones[j].0 &&
      SameZone(a.zones[i].1, b.zones[j].1)
      ensures multiset(AtZone(c, r)(a.zones[i])) == multiset(AtZone(c, r)(b.zones[j]))
    {
      SameZonePools(c, r, a.zones[i].0, a.zones[i].1, b.zones[j].1);
    }
    CollectSameDict(a.zones, b.zones, SameZone, AtZone(c, r));
  }

  lemma SameCloudPools(c: string, a: Cloud, b: Cloud)
    requires SameCloud(a, b)
    ensures multiset(CloudPools(c, a)) == multiset(CloudPools(c, b))
  {
    forall i, j | 0 <= i < |a.regions| && 0 <= j < |b.regions| && a.regions[i].0 == b.regions[j].0 &&
      SameRegion(a.regions[i].1, b.regions[j].1)
      ensures multiset(AtRegion(c)(a.regions[i])) == multiset(AtRegion(c)(b.regions[j]))
    {
      SameRegionPools(c, a.regions[i].0, a.regions[i].1, b.regions[j].1);
    }
    CollectSameDict(a.regions, b.regions, SameRegion, AtRegion(c));
  }

  /** Equal trees hold the same pools at the same places, whatever their dict order. */
  lemma {:induction false} SameTreePools(a: Dict<Cloud>, b: Dict<Cloud>)
    requires SameClouds(a, b)
    ensures multiset(MachinePools(a)) == multiset(MachinePools(b))
  {
    forall i, j | 0 <= i < |a| && 0 <= j < |b| && a[i].0 == b[j].0 && SameCloud(a[i].1, b[j].1)
      ensures multiset(AtCloud()(a[i])) == multiset(AtCloud()(b[j]))
    {
      SameCloudPools(a[i].0, a[i].1, b[j].1);
    }
    CollectSameDict(a, b, SameCloud, AtCloud());
  }

  /**
   Publishing keeps the summary: whatever order the store gives the members of
   objects, the map read back has the same summary keys with the same totals and
   the same pools up to order as the published one, an empty market list counting
   as ["reserved"].
   */
  lemma {:induction false} PublishedSummary(py: Py, rm: ResourceMap, stored: Dict<Json>, version: int, now: int)
    requires Shuffled(BodyJson(rm), JObj(stored))
    ensures
      var back := ToModel(py, Row(version, stored, now));
      && back.Some?
      && back.value.version == version && back.value.updatedAt == now
      && SameClouds(rm.clouds, back.value.clouds)
      && SameSummary(SummaryOf(rm.(market := ReadMarket(rm.market))), SummaryOf(back.value))
  {
    BodyReadsBack(py, rm, JObj(stored));
    var back := ToModel(py, Row(version, stored, now)).value;
    SameTreePools(rm.clouds, back.clouds);
    SummaryIgnoresOrder(MachinePools(rm.clouds), MachinePools(back.clouds), ReadMarket(rm.market));
  }

  lemma NoMarketsNoOffers(items: seq<PoolAt>)
    ensures Offers(items, []) == []
    decreases |items|
  {
    if items != [] { NoMarketsNoOffers(items[..|items| - 1]); }
  }

  /** Exactly which maps keep their own summary through the store: those that list a market, and those without pools. */
  lemma {:induction false} SummarySurvivesIff(py: Py, rm: ResourceMap, stored: Dict<Json>, version: int, now: int)
    requires Shuffled(BodyJson(rm), JObj(stored))
    ensures
      var back := ToModel(py, Row(version, stored, now));
      back.Some? && (SameSummary(SummaryOf(rm), SummaryOf(back.value)) <==>
        rm.market != [] || MachinePools(rm.clouds) == [])
  {
    PublishedSummary(py, rm, stored, version, now);
    var back := ToModel(py, Row(version, stored, now)).value;
    if rm.market == [] {
      var items := MachinePools(rm.clouds);
      NoMarketsNoOffers(items);
      var normal := SummaryOf(rm.(market := ["reserved"]));
      if items == [] {
        assert normal == map[] == SummaryOf(rm);
      } else {
        OfferShows(items, "reserved");
        assert normal != map[];
      }
    }
  }

  lemma OfferShows(items: seq<PoolAt>, market: string)
    requires items != []
    ensures KeyOf(Offer(market, items[0])) in RecordAll(Offers(items, [market]))
  {
    var offers, o := Offers(items, [market]), Offer(market, items[0]);
    CollectMembers(items, InMarkets([market]), o);
    assert OffersIn([market], items[0])[0] == o;
    var i :| 0 <= i < |offers| && offers[i] == o;
    SummaryClosedForm(offers);
  }

  /** A map that went through the store once keeps its market list and its summary on every further trip. */
  lemma {:induction false} SecondTripIsStable(py: Py, rm: ResourceMap, stored: Dict<Json>, version: int, now: int,
      again: Dict<Json>, version': int, now': int)
    requires Shuffled(BodyJson(rm), JObj(stored))
    requires ToModel(py, Row(version, stored, now)).Some?
    requires Shuffled(BodyJson(ToModel(py, Row(version, stored, now)).value), JObj(again))
    ensures
      var once, twice := ToModel(py, Row(version, stored, now)).value, ToModel(py, Row(version', again, now'));
      && twice.Some? && twice.value.market == once.market
      && SameClouds(once.clouds, twice.value.clouds)
      && SameSummary(SummaryOf(once), SummaryOf(twice.value))
  {
    var once := ToModel(py, Row(version, stored, now)).value;
    MarketAfterTrip(py, rm, stored, version, now);
    MarketAfterTrip(py, once, again, version', now');
    PublishedSummary(py, once, again, version', now');
    assert once.(market := ReadMarket(once.market)) == once;
  }

  lemma MarketAfterTrip(py: Py, rm: ResourceMap, stored: Dict<Json>, version: int, now: int)
    requires Shuffled(BodyJson(rm), JObj(stored))
    ensures ToModel(py, Row(version, stored, now)).Some?
    ensures ToModel(py, Row(version, stored, now)).value.market == ReadMarket(rm.market)
  {
    BodyReadsBack(py, rm, JObj(stored));
  }
}
