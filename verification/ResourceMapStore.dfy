/** The stored form of a resource map and the one-row-per-user store. */
module ResourceMapStore {
  import opened Results
  import opened Dicts
  import opened JsonValues
  import opened Shuffles
  import opened ResourceMaps
  import opened LegacyPools

  // Encoding.

  function TextJson(v: Option<string>): Json {
    match v case None => JNull case Some(s) => JStr(s)
  }

  function PoolFields(p: MachinePool): Dict<Json> {
    [("instance_family", TextJson(p.instanceFamily)),
     ("gpu_type", JStr(p.gpuType)),
     ("gpu_memory_gb", match p.gpuMemoryGb case None => JNull case Some(n) => JInt(n)),
     ("gpus_per_instance", JInt(p.gpusPerInstance)),
     ("total_instances", JInt(p.totalInstances)),
     ("price_per_instance_hour", match p.price case None => JNull case Some(x) => JReal(x)),
     ("intra_machine_interconnect", match p.interconnect case None => JNull case Some(t) => JObj([("type", JStr(t))]))]
  }

  function PoolJson(p: MachinePool): Json { JObj(PoolFields(p)) }

  function FabricFields(f: NetworkFabric): Dict<Json> {
    [("fabric_type", JStr(f.fabricType)),
     ("gpu_direct_rdma", JBool(f.rdma)),
     ("machine_pools", JObj(MapDict(f.pools, PoolJson)))]
  }

  function FabricJson(f: NetworkFabric): Json { JObj(FabricFields(f)) }
  function ZoneJson(z: Zone): Json { JObj([("network_fabrics", JObj(MapDict(z.fabrics, FabricJson)))]) }
  function RegionJson(r: Region): Json { JObj([("zones", JObj(MapDict(r.zones, ZoneJson)))]) }
  function CloudJson(c: Cloud): Json { JObj([("regions", JObj(MapDict(c.regions, RegionJson)))]) }

  function Texts(ss: seq<string>): (r: seq<Json>)
    ensures |r| == |ss| && forall i | 0 <= i < |ss| :: r[i] == JStr(ss[i])
  {
    if ss == [] then [] else [JStr(ss[0])] + Texts(ss[1..])
  }

  function BodyFields(rm: ResourceMap): Dict<Json> {
    [("market", JArr(Texts(rm.market))), ("clouds", JObj(MapDict(rm.clouds, CloudJson)))]
  }

  function BodyJson(rm: ResourceMap): Json { JObj(BodyFields(rm)) }

  // Decoding; None is a validation error.

  /** Unknown fields are refused. */
  predicate OnlyFields(members: Dict<Json>, allowed: set<string>) {
    forall i | 0 <= i < |members| :: members[i].0 in allowed
  }

  function RequiredText(v: Option<Json>): Option<string> {
    match v case Some(JStr(s)) => Some(s) case _ => None
  }

  function RequiredInt(v: Option<Json>): Option<int> {
    match v case Some(JInt(n)) => Some(n) case _ => None
  }

  function DecodeInterconnect(v: Option<Json>): Option<Option<string>> {
    match v
    case None => Some(None)
    case Some(JNull) => Some(None)
    case Some(JObj(m)) =>
      if OnlyFields(m, {"type"}) then
        (match RequiredText(Get(m, "type")) case Some(t) => Some(Some(t)) case None => None)
      else None
    case _ => None
  }

  const POOL_FIELDS := {"instance_family", "gpu_type", "gpu_memory_gb", "gpus_per_instance",
                        "total_instances", "price_per_instance_hour", "intra_machine_interconnect"}

  /** A pool from its seven fields. */
  function PoolOf(family: Option<Json>, gpuType: Option<Json>, memory: Option<Json>, per: Option<Json>,
                  instances: Option<Json>, price: Option<Json>, link: Option<Json>): Option<MachinePool> {
    var family' :- OptionalText(family);
    var gpuType' :- RequiredText(gpuType);
    var memory' :- OptionalInt(memory);
    var per' :- RequiredInt(per);
    var instances' :- RequiredInt(instances);
    var price' :- OptionalReal(price);
    var link' :- DecodeInterconnect(link);
    Some(MachinePool(family', gpuType', memory', per', instances', price', link'))
  }

  function DecodePool(j: Json): Option<MachinePool> {
    if j.JObj? && OnlyFields(j.members, POOL_FIELDS) then
      var m := j.members;
      PoolOf(Get(m, "instance_family"), Get(m, "gpu_type"), Get(m, "gpu_memory_gb"), Get(m, "gpus_per_instance"),
             Get(m, "total_instances"), Get(m, "price_per_instance_hour"), Get(m, "intra_machine_interconnect"))
    else None
  }

  /** A dict-valued field, empty when absent. */
  function DecodeChildren<V>(members: Dict<Json>, key: string, decode: Json -> Option<V>): Option<Dict<V>> {
    match Get<Json>(members, key)
    case None => Some([])
    case Some(JObj(children)) => DecodeDict(children, decode)
    case _ => None
  }

  function DecodeFlag(v: Option<Json>): Option<bool> {
    match v
    case None => Some(false)
    case Some(JBool(b)) => Some(b)
    case _ => None
  }

  function DecodeFabric(j: Json): Option<NetworkFabric> {
    if j.JObj? && OnlyFields(j.members, {"fabric_type", "gpu_direct_rdma", "machine_pools"}) then
      var kind :- RequiredText(Get(j.members, "fabric_type"));
      var rdma :- DecodeFlag(Get(j.members, "gpu_direct_rdma"));
      var pools :- DecodeChildren(j.members, "machine_pools", DecodePool);
      Some(NetworkFabric(kind, rdma, pools))
    else None
  }

  function DecodeZone(j: Json): Option<Zone> {
    if j.JObj? && OnlyFields(j.members, {"network_fabrics"}) then
      var fabrics :- DecodeChildren(j.members, "network_fabrics", DecodeFabric);
      Some(Zone(fabrics))
    else None
  }

  function DecodeRegion(j: Json): Option<Region> {
    if j.JObj? && OnlyFields(j.members, {"zones"}) then
      var zones :- DecodeChildren(j.members, "zones", DecodeZone);
      Some(Region(zones))
    else None
  }

  function DecodeCloud(j: Json): Option<Cloud> {
    if j.JObj? && OnlyFields(j.members, {"regions"}) then
      var regions :- DecodeChildren(j.members, "regions", DecodeRegion);
      Some(Cloud(regions))
    else None
  }

  function DecodeTexts(items: seq<Json>): (r: Option<seq<string>>)
    ensures r.Some? <==> forall i | 0 <= i < |items| :: items[i].JStr?
    ensures r.Some? ==> |r.value| == |items| && forall i | 0 <= i < |items| :: items[i] == JStr(r.value[i])
  {
    if items == [] then Some([])
    else if !items[0].JStr? then None
    else
      match DecodeTexts(items[1..])
      case None => assert exists i :: 0 <= i < |items| && !items[i].JStr? by {
                     var i :| 0 <= i < |items[1..]| && !items[1..][i].JStr?;
                     assert !items[i + 1].JStr?;
                   }
                   None
      case Some(rest) => Some([items[0].s] + rest)
  }

  function Letters(s: string): seq<string> {
    if s == "" then [] else [[s[0]]] + Letters(s[1..])
  }

  function KeyList<V>(d: Dict<V>): seq<string> {
    if d == [] then [] else [d[0].0] + KeyList(d[1..])
  }

  /** `list(raw.get("market") or ["reserved"])`, validated as texts: a text lists its letters and an object its keys. */
  function DecodeMarket(v: Json): Option<seq<string>> {
    match v
    case JArr(items) => DecodeTexts(items)
    case JStr(s) => Some(Letters(s))
    case JObj(m) => Some(KeyList(m))
    case _ => None
  }

  /** Market and clouds of a stored body, in the current or the legacy form. */
  function BodyFromJson(py: Py, raw: Dict<Json>): Option<(seq<string>, Dict<Cloud>)> {
    if Has(raw, "clouds") then
      var market :- DecodeMarket(GetOr(raw, "market", JArr([JStr("reserved")])));
      var body := GetOr(raw, "clouds", JObj([]));
      if body.JObj? then
        var clouds :- DecodeDict(body.members, DecodeCloud);
        Some((market, clouds))
      else None
    else
      var tree :- LegacyTree(py, raw);
      Some((["reserved"], tree))
  }

  // Equality of trees, which ignores the order of dicts.

  ghost predicate SamePool(a: MachinePool, b: MachinePool) { a == b }

  ghost predicate SameFabric(a: NetworkFabric, b: NetworkFabric) {
    a.fabricType == b.fabricType && a.rdma == b.rdma && SameDict(a.pools, b.pools, SamePool)
  }

  ghost predicate SameZone(a: Zone, b: Zone) { SameDict(a.fabrics, b.fabrics, SameFabric) }
  ghost predicate SameRegion(a: Region, b: Region) { SameDict(a.zones, b.zones, SameZone) }
  ghost predicate SameCloud(a: Cloud, b: Cloud) { SameDict(a.regions, b.regions, SameRegion) }
  ghost predicate SameClouds(a: Dict<Cloud>, b: Dict<Cloud>) { SameDict(a, b, SameCloud) }

  datatype Row = Row(version: int, body: Dict<Json>, updatedAt: int)

  function ToModel(py: Py, row: Row): Option<ResourceMap> {
    var body :- BodyFromJson(py, row.body);
    Some(ResourceMap(row.version, row.updatedAt, body.0, body.1))
  }

  class Store {
    const userId: string
    var rows: map<string, Row>

    constructor (userId: string)
      ensures this.userId == userId && rows == map[]
    {
      this.userId := userId;
      rows := map[];
    }

    /** The user's live map; an empty one when nothing was published yet, None when the row does not validate. */
    method Load(py: Py, now: int) returns (r: Option<ResourceMap>)
      ensures r == if userId in rows then ToModel(py, rows[userId]) else Some(ResourceMap(0, now, ["reserved"], []))
    {
      if userId !in rows { return Some(ResourceMap(0, now, ["reserved"], [])); }
      var row := rows[userId];
      r := ToModel(py, row);
    }

    /** Publishes a snapshot with the next version; `stored` is the document in the member order the table keeps. */
    method Replace(py: Py, rm: ResourceMap, stored: Dict<Json>, now: int) returns (r: Option<ResourceMap>)
      requires Shuffled(BodyJson(rm), JObj(stored))
      modifies this`rows
      ensures
        var version := if userId in old(rows) then old(rows)[userId].version else 0;
        rows == old(rows)[userId := Row(version + 1, stored, now)]
      ensures r == ToModel(py, rows[userId])
    {
      if userId in rows {
        rows := rows[userId := rows[userId].(version := rows[userId].version + 1, body := stored, updatedAt := now)];
      } else {
        rows := rows[userId := Row(1, stored, now)];
      }
      r := ToModel(py, rows[userId]);
    }
  }
}
