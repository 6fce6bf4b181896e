/**
 The stored form of a resource map, said of the document itself: where each field stands
 and what a reader accepts.
 */
module StoredMaps {
  import opened Results
  import opened Dicts
  import opened JsonValues
  import opened ResourceMaps
  import opened TreeWalk
  import opened LegacyPools
  import opened ResourceMapStore
  import opened Shuffles

  // Where each field stands.

  /** The value under a path of member names. */
  function Dig(j: Json, path: seq<string>): Option<Json> {
    if path == [] then Some(j)
    else if !j.JObj? then None
    else
      match Get<Json>(j.members, path[0])
      case None => None
      case Some(v) => Dig(v, path[1..])
  }

  lemma DigInto(members: Dict<Json>, key: string, v: Json, rest: seq<string>)
    requires Get(members, key) == Some(v)
    ensures Dig(JObj(members), [key] + rest) == Dig(v, rest)
  {
    assert ([key] + rest)[1..] == rest;
  }

  lemma DigTwo(members: Dict<Json>, name: string, children: Dict<Json>, key: string, v: Json, rest: seq<string>)
    requires Get(members, name) == Some(JObj(children)) && Get(children, key) == Some(v)
    ensures Dig(JObj(members), [name, key] + rest) == Dig(v, rest)
  {
    assert [name, key] + rest == [name] + ([key] + rest);
    DigInto(members, name, JObj(children), [key] + rest);
    DigInto(children, key, v, rest);
  }

  lemma ChildEncoded<V>(d: Dict<V>, encode: V -> Json, key: string, v: V)
    requires UniqueKeys(d) && (key, v) in d
    ensures Get(MapDict(d, encode), key) == Some(encode(v))
  {
    var i :| 0 <= i < |d| && d[i] == (key, v);
    MapDictKeys(d, encode);
    GetOfUnique(MapDict(d, encode), i);
  }

  lemma DigChild<V>(d: Dict<V>, encode: V -> Json, name: string, key: string, v: V, rest: seq<string>)
    requires UniqueKeys(d) && (key, v) in d
    ensures Dig(JObj([(name, JObj(MapDict(d, encode)))]), [name, key] + rest) == Dig(encode(v), rest)
  {
    var children := MapDict(d, encode);
    ChildEncoded(d, encode, key, v);
    assert Get([(name, JObj(children))], name) == Some(JObj(children));
    DigTwo([(name, JObj(children))], name, children, key, encode(v), rest);
  }

  lemma CloudsFound(rm: ResourceMap)
    ensures Get(BodyFields(rm), "clouds") == Some(JObj(MapDict(rm.clouds, CloudJson)))
    ensures Get(BodyFields(rm), "market") == Some(JArr(Texts(rm.market)))
  {
    assert "clouds"[0] == 'c' && "market"[0] == 'm';
    GetOfUnique(BodyFields(rm), 0);
    GetOfUnique(BodyFields(rm), 1);
  }

  lemma DigCloud(rm: ResourceMap, c: string, cloud: Cloud, rest: seq<string>)
    requires UniqueKeys(rm.clouds) && (c, cloud) in rm.clouds
    ensures Dig(BodyJson(rm), ["clouds", c] + rest) == Dig(CloudJson(cloud), rest)
  {
    CloudsFound(rm);
    ChildEncoded(rm.clouds, CloudJson, c, cloud);
    DigTwo(BodyFields(rm), "clouds", MapDict(rm.clouds, CloudJson), c, CloudJson(cloud), rest);
  }

  lemma FabricFieldsFound(f: NetworkFabric)
    ensures Get(FabricFields(f), "fabric_type") == Some(JStr(f.fabricType))
    ensures Get(FabricFields(f), "gpu_direct_rdma") == Some(JBool(f.rdma))
    ensures Get(FabricFields(f), "machine_pools") == Some(JObj(MapDict(f.pools, PoolJson)))
  {
    assert |"fabric_type"| == 11 && |"gpu_direct_rdma"| == 15 && |"machine_pools"| == 13;
    GetOfUnique(FabricFields(f), 0);
    GetOfUnique(FabricFields(f), 1);
    GetOfUnique(FabricFields(f), 2);
  }

  lemma PoolKeysUnique(p: MachinePool)
    ensures UniqueKeys(PoolFields(p))
  {
    assert |"instance_family"| == 15 && |"gpu_type"| == 8 && |"gpu_memory_gb"| == 13 && |"gpus_per_instance"| == 17;
    assert |"total_instances"| == 15 && |"price_per_instance_hour"| == 23 && |"intra_machine_interconnect"| == 26;
    assert "instance_family"[0] == 'i' && "total_instances"[0] == 't';
  }

  /** A document of a pool: its seven fields, null where the pool has none. */
  ghost predicate IsPoolDocument(j: Json, p: MachinePool) {
    && Dig(j, ["gpu_type"]) == Some(JStr(p.gpuType))
    && Dig(j, ["gpus_per_instance"]) == Some(JInt(p.gpusPerInstance))
    && Dig(j, ["total_instances"]) == Some(JInt(p.totalInstances))
    && Dig(j, ["instance_family"]) == Some(if p.instanceFamily.Some? then JStr(p.instanceFamily.value) else JNull)
    && Dig(j, ["gpu_memory_gb"]) == Some(if p.gpuMemoryGb.Some? then JInt(p.gpuMemoryGb.value) else JNull)
    && Dig(j, ["price_per_instance_hour"]) == Some(if p.price.Some? then JReal(p.price.value) else JNull)
    && (if p.interconnect.Some? then Dig(j, ["intra_machine_interconnect", "type"]) == Some(JStr(p.interconnect.value))
        else Dig(j, ["intra_machine_interconnect"]) == Some(JNull))
  }

  lemma DigField(members: Dict<Json>, key: string, v: Json)
    requires Get(members, key) == Some(v)
    ensures Dig(JObj(members), [key]) == Some(v)
  {
    assert [key][1..] == [];
  }

  lemma DigField2(members: Dict<Json>, key: string, inner: Dict<Json>, key2: string, v: Json)
    requires Get(members, key) == Some(JObj(inner)) && Get(inner, key2) == Some(v)
    ensures Dig(JObj(members), [key, key2]) == Some(v)
  {
    assert [key, key2][1..] == [key2];
    DigField(inner, key2, v);
  }

  lemma PoolFieldAt(p: MachinePool, i: nat)
    requires i < 7
    ensures Dig(PoolJson(p), [PoolFields(p)[i].0]) == Some(PoolFields(p)[i].1)
  {
    PoolKeysUnique(p);
    GetOfUnique(PoolFields(p), i);
    DigField(PoolFields(p), PoolFields(p)[i].0, PoolFields(p)[i].1);
  }

  lemma LinkField(p: MachinePool)
    requires p.interconnect.Some?
    ensures Dig(PoolJson(p), ["intra_machine_interconnect", "type"]) == Some(JStr(p.interconnect.value))
  {
    PoolKeysUnique(p);
    GetOfUnique(PoolFields(p), 6);
    var inner := [("type", JStr(p.interconnect.value))];
    assert Get(inner, "type") == Some(JStr(p.interconnect.value));
    DigField2(PoolFields(p), "intra_machine_interconnect", inner, "type", JStr(p.interconnect.value));
  }

  lemma PoolDocument(p: MachinePool)
    ensures IsPoolDocument(PoolJson(p), p)
  {
    PoolFieldAt(p, 0);
    PoolFieldAt(p, 1);
    PoolFieldAt(p, 2);
    PoolFieldAt(p, 3);
    PoolFieldAt(p, 4);
    PoolFieldAt(p, 5);
    PoolFieldAt(p, 6);
    if p.interconnect.Some? { LinkField(p); }
  }

  /** The path of a fabric in the stored document. */
  function FabricPath(at: PoolAt): seq<string> {
    ["clouds", at.cloud] + (["regions", at.region] + (["zones", at.zone] + ["network_fabrics", at.fabricId]))
  }

  lemma DigFabric(rm: ResourceMap, at: PoolAt, cloud: Cloud, region: Region, zone: Zone, fabric: NetworkFabric,
      rest: seq<string>)
    requires UniqueTree(rm.clouds)
    requires (at.cloud, cloud) in rm.clouds && (at.region, region) in cloud.regions
    requires (at.zone, zone) in region.zones && (at.fabricId, fabric) in zone.fabrics
    ensures Dig(BodyJson(rm), FabricPath(at) + rest) == Dig(FabricJson(fabric), rest)
    ensures UniqueKeys(fabric.pools)
  {
    var r3 := ["network_fabrics", at.fabricId] + rest;
    var r2 := ["zones", at.zone] + r3;
    var r1 := ["regions", at.region] + r2;
    assert FabricPath(at) + rest == ["clouds", at.cloud] + r1;
    assert UniqueCloud(cloud) && UniqueRegion(region) && UniqueZone(zone);
    DigCloud(rm, at.cloud, cloud, r1);
    DigChild(cloud.regions, RegionJson, "regions", at.region, region, r2);
    DigChild(region.zones, ZoneJson, "zones", at.zone, zone, r3);
    DigChild(zone.fabrics, FabricJson, "network_fabrics", at.fabricId, fabric, rest);
  }

  /** The document under a pool's path. */
  ghost predicate StandsAt(doc: Json, at: PoolAt) {
    && Dig(doc, FabricPath(at) + ["fabric_type"]) == Some(JStr(at.fabricType))
    && Dig(doc, FabricPath(at) + ["gpu_direct_rdma"]) == Some(JBool(at.rdma))
    && Dig(doc, FabricPath(at) + ["machine_pools", at.instanceType]).Some?
    && IsPoolDocument(Dig(doc, FabricPath(at) + ["machine_pools", at.instanceType]).value, at.pool)
  }

  /**
   Every pool of a published map stands in the document under the names on its path, with
   its fields under their names.
   */
  lemma {:induction false} DocumentHoldsPools(rm: ResourceMap, at: PoolAt)
    requires UniqueTree(rm.clouds) && FoundAt(rm.clouds, at)
    ensures StandsAt(BodyJson(rm), at)
  {
    var cloud, region, zone, fabric :|
      && (at.cloud, cloud) in rm.clouds && (at.region, region) in cloud.regions && (at.zone, zone) in region.zones
      && (at.fabricId, fabric) in zone.fabrics && (at.instanceType, at.pool) in fabric.pools
      && at.fabricType == fabric.fabricType && at.rdma == fabric.rdma;
    DigFabric(rm, at, cloud, region, zone, fabric, ["fabric_type"]);
    DigFabric(rm, at, cloud, region, zone, fabric, ["gpu_direct_rdma"]);
    DigFabric(rm, at, cloud, region, zone, fabric, ["machine_pools", at.instanceType]);
    FabricFieldsFound(fabric);
    DigField(FabricFields(fabric), "fabric_type", JStr(fabric.fabricType));
    DigField(FabricFields(fabric), "gpu_direct_rdma", JBool(fabric.rdma));
    ChildEncoded(fabric.pools, PoolJson, at.instanceType, at.pool);
    DigField2(FabricFields(fabric), "machine_pools", MapDict(fabric.pools, PoolJson), at.instanceType,
      PoolJson(at.pool));
    PoolDocument(at.pool);
  }

  /** And the market list stands under its own name. */
  lemma {:induction false} DocumentHoldsMarkets(rm: ResourceMap)
    ensures match Dig(BodyJson(rm), ["market"])
      case Some(JArr(items)) => |items| == |rm.market| && forall i | 0 <= i < |items| :: items[i] == JStr(rm.market[i])
      case _ => false
  {
    CloudsFound(rm);
    DigField(BodyFields(rm), "market", JArr(Texts(rm.market)));
  }

  // What a reader accepts.

  /** An optional field: absent or null, or of its type. */
  ghost predicate ReadsText(v: Option<Json>, r: Option<string>) {
    if r.Some? then v == Some(JStr(r.value)) else v == None || v == Some(JNull)
  }

  ghost predicate ReadsInt(v: Option<Json>, r: Option<int>) {
    if r.Some? then v == Some(JInt(r.value)) else v == None || v == Some(JNull)
  }

  ghost predicate ReadsReal(v: Option<Json>, r: Option<real>) {
    if r.Some? then v == Some(JReal(r.value)) || (v.Some? && v.value.JInt? && v.value.n as real == r.value)
    else v == None || v == Some(JNull)
  }

  /** An interconnect: absent or null, or an object with just a text type. */
  ghost predicate ReadsLink(v: Option<Json>, r: Option<string>) {
    if r.None? then v == None || v == Some(JNull)
    else
      && v.Some? && v.value.JObj? && Get(v.value.members, "type") == Some(JStr(r.value))
      && forall i | 0 <= i < |v.value.members| :: v.value.members[i].0 == "type"
  }

  ghost predicate IsPool(m: Dict<Json>, p: MachinePool) {
    && Get(m, "gpu_type") == Some(JStr(p.gpuType))
    && Get(m, "gpus_per_instance") == Some(JInt(p.gpusPerInstance))
    && Get(m, "total_instances") == Some(JInt(p.totalInstances))
    && ReadsText(Get(m, "instance_family"), p.instanceFamily)
    && ReadsInt(Get(m, "gpu_memory_gb"), p.gpuMemoryGb)
    && ReadsReal(Get(m, "price_per_instance_hour"), p.price)
    && ReadsLink(Get(m, "intra_machine_interconnect"), p.interconnect)
  }

  ghost predicate OnlyPoolFields(m: Dict<Json>) {
    forall i | 0 <= i < |m| :: m[i].0 in
      {"instance_family", "gpu_type", "gpu_memory_gb", "gpus_per_instance",
       "total_instances", "price_per_instance_hour", "intra_machine_interconnect"}
  }

  lemma OptionalFields(v: Option<Json>, t: Option<string>, n: Option<int>, x: Option<real>)
    ensures OptionalText(v) == Some(t) <==> ReadsText(v, t)
    ensures OptionalInt(v) == Some(n) <==> ReadsInt(v, n)
    ensures OptionalReal(v) == Some(x) <==> ReadsReal(v, x)
  {
  }

  lemma LinkField2(v: Option<Json>, r: Option<string>)
    ensures DecodeInterconnect(v) == Some(r) <==> ReadsLink(v, r)
  {
  }

  lemma PoolOfMeans(family: Option<Json>, gpuType: Option<Json>, memory: Option<Json>, per: Option<Json>,
                    instances: Option<Json>, price: Option<Json>, link: Option<Json>, p: MachinePool)
    ensures PoolOf(family, gpuType, memory, per, instances, price, link) == Some(p) <==>
      && OptionalText(family) == Some(p.instanceFamily) && gpuType == Some(JStr(p.gpuType))
      && OptionalInt(memory) == Some(p.gpuMemoryGb) && per == Some(JInt(p.gpusPerInstance))
      && instances == Some(JInt(p.totalInstances)) && OptionalReal(price) == Some(p.price)
      && DecodeInterconnect(link) == Some(p.interconnect)
  {
  }

  /**
   Exactly which documents read as a pool: objects with no other fields, the three
   required ones, and the optional ones of their types.
   */
  lemma {:induction false} PoolReadsIff(j: Json, p: MachinePool)
    ensures DecodePool(j) == Some(p) <==> j.JObj? && OnlyPoolFields(j.members) && IsPool(j.members, p)
  {
    if j.JObj? {
      var m := j.members;
      PoolOfMeans(Get(m, "instance_family"), Get(m, "gpu_type"), Get(m, "gpu_memory_gb"), Get(m, "gpus_per_instance"),
                  Get(m, "total_instances"), Get(m, "price_per_instance_hour"), Get(m, "intra_machine_interconnect"),
                    p);
      OptionalFields(Get(m, "instance_family"), p.instanceFamily, None, None);
      OptionalFields(Get(m, "gpu_memory_gb"), None, p.gpuMemoryGb, None);
      OptionalFields(Get(m, "price_per_instance_hour"), None, None, p.price);
      LinkField2(Get(m, "intra_machine_interconnect"), p.interconnect);
    }
  }

  /** The children under a name: an object whose members all read, in their order; none when the name is absent. */
  ghost predicate ReadsChildren<V>(m: Dict<Json>, name: string, decode: Json -> Option<V>, r: Dict<V>) {
    match Get<Json>(m, name)
    case None => r == []
    case Some(JObj(d)) => |r| == |d| && forall i | 0 <= i < |d| :: r[i].0 == d[i].0 && decode(d[i].1) == Some(r[i].1)
    case Some(_) => false
  }

  lemma ChildrenRead<V>(m: Dict<Json>, name: string, decode: Json -> Option<V>, r: Dict<V>)
    ensures DecodeChildren(m, name, decode) == Some(r) <==> ReadsChildren(m, name, decode, r)
  {
    match Get<Json>(m, name)
    case Some(JObj(d)) =>
      if ReadsChildren(m, name, decode, r) && DecodeDict(d, decode).Some? {
        assert DecodeDict(d, decode).value == r;
      }
    case _ =>
  }

  /** Exactly which documents read as a fabric: a text type, RDMA off unless given, and the pools. */
  lemma {:induction false} FabricReadsIff(j: Json, f: NetworkFabric)
    ensures DecodeFabric(j) == Some(f) <==>
      && j.JObj?
      && (forall i | 0 <= i < |j.members| :: j.members[i].0 in {"fabric_type", "gpu_direct_rdma", "machine_pools"})
      && Get(j.members, "fabric_type") == Some(JStr(f.fabricType))
      && (Get(j.members, "gpu_direct_rdma") == Some(JBool(f.rdma)) ||
        (Get(j.members, "gpu_direct_rdma") == None && !f.rdma))
      && ReadsChildren(j.members, "machine_pools", DecodePool, f.pools)
  {
    if j.JObj? { ChildrenRead(j.members, "machine_pools", DecodePool, f.pools); }
  }

  /** Exactly which documents read as a zone, a region and a cloud: their children under their only name. */
  lemma {:induction false} LevelsReadIff(j: Json, zone: Zone, region: Region, cloud: Cloud)
    ensures DecodeZone(j) == Some(zone) <==>
      && j.JObj?
      && (forall i | 0 <= i < |j.members| :: j.members[i].0 == "network_fabrics")
      && ReadsChildren(j.members, "network_fabrics", DecodeFabric, zone.fabrics)
    ensures DecodeRegion(j) == Some(region) <==>
      && j.JObj?
      && (forall i | 0 <= i < |j.members| :: j.members[i].0 == "zones")
      && ReadsChildren(j.members, "zones", DecodeZone, region.zones)
    ensures DecodeCloud(j) == Some(cloud) <==>
      && j.JObj?
      && (forall i | 0 <= i < |j.members| :: j.members[i].0 == "regions")
      && ReadsChildren(j.members, "regions", DecodeRegion, cloud.regions)
  {
    if j.JObj? {
      ChildrenRead(j.members, "network_fabrics", DecodeFabric, zone.fabrics);
      ChildrenRead(j.members, "zones", DecodeZone, region.zones);
      ChildrenRead(j.members, "regions", DecodeRegion, cloud.regions);
    }
  }

  /** A market field, truthy or replaced: an array of texts, the letters of a text, or the names of an object. */
  ghost predicate ReadsMarket(v: Json, market: seq<string>) {
    match v
    case JArr(items) => |items| == |market| && forall i | 0 <= i < |items| :: items[i] == JStr(market[i])
    case JStr(text) => |market| == |text| && forall i | 0 <= i < |text| :: market[i] == [text[i]]
    case JObj(d) => |market| == |d| && forall i | 0 <= i < |d| :: market[i] == d[i].0
    case _ => false
  }

  lemma {:induction false} LettersAt(text: string)
    ensures |Letters(text)| == |text| && forall i | 0 <= i < |text| :: Letters(text)[i] == [text[i]]
  {
    if text != "" { LettersAt(text[1..]); }
  }

  lemma {:induction false} KeysAt(d: Dict<Json>)
    ensures |KeyList(d)| == |d| && forall i | 0 <= i < |d| :: KeyList(d)[i] == d[i].0
  {
    if d != [] { KeysAt(d[1..]); }
  }

  lemma MarketReads(v: Json, market: seq<string>)
    ensures DecodeMarket(v) == Some(market) <==> ReadsMarket(v, market)
  {
    match v
    case JStr(text) => LettersAt(text);
      if ReadsMarket(v, market) { assert Letters(text) == market; }
    case JObj(d) => KeysAt(d);
      if ReadsMarket(v, market) { assert KeyList(d) == market; }
    case JArr(items) =>
      if ReadsMarket(v, market) { assert DecodeTexts(items).value == market; }
    case _ =>
  }

  /** The field as `or` reads it: a falsy or missing one is replaced. */
  function Otherwise(d: Dict<Json>, key: string, default: Json): Json {
    var v := Get(d, key);
    if v.None? || v.value in [JNull, JBool(false), JInt(0), JReal(0.0), JStr(""), JArr([]), JObj([])] then default
    else v.value
  }

  lemma OtherwiseIsOr(d: Dict<Json>, key: string, default: Json)
    ensures GetOr(d, key, default) == Otherwise(d, key, default)
  {
    if Get(d, key).Some? { FalsyValues(Get(d, key).value); }
  }

  /**
   Exactly what a stored body reads as: with a clouds field its market and its clouds,
   without one the legacy pools under the market "reserved".
   */
  lemma {:induction false} BodyReadsIff(py: Py, raw: Dict<Json>, market: seq<string>, clouds: Dict<Cloud>)
    ensures BodyFromJson(py, raw) == Some((market, clouds)) <==>
      if Get(raw, "clouds").Some? then
        && ReadsMarket(Otherwise(raw, "market", JArr([JStr("reserved")])), market)
        && ReadsMembers(Otherwise(raw, "clouds", JObj([])), clouds)
      else market == ["reserved"] && LegacyTree(py, raw) == Some(clouds)
  {
    OtherwiseIsOr(raw, "market", JArr([JStr("reserved")]));
    OtherwiseIsOr(raw, "clouds", JObj([]));
    MarketReads(Otherwise(raw, "market", JArr([JStr("reserved")])), market);
    MembersRead(Otherwise(raw, "clouds", JObj([])), clouds);
  }

  ghost predicate ReadsMembers(v: Json, r: Dict<Cloud>) {
    && v.JObj? && |r| == |v.members|
    && forall i | 0 <= i < |r| :: r[i].0 == v.members[i].0 && DecodeCloud(v.members[i].1) == Some(r[i].1)
  }

  lemma MembersRead(v: Json, r: Dict<Cloud>)
    ensures v.JObj? && DecodeDict(v.members, DecodeCloud) == Some(r) <==> ReadsMembers(v, r)
  {
    if ReadsMembers(v, r) && DecodeDict(v.members, DecodeCloud).Some? {
      assert DecodeDict(v.members, DecodeCloud).value == r;
    }
  }
}
