/** What the flat summary means: its keys, its sums, and its independence of dict order. */
module SummaryLaws {
  import opened Folds
  import opened Text
  import opened ResourceMaps
  import opened TreeWalk

  // Closed form of the summary.

  function DetailIfKey(key: string): Offer -> seq<PoolDetail> {
    (o: Offer) => if KeyOf(o) == key then [DetailOf(o.at)] else []
  }

  /** The details of the offers that fall under a key, in loop order. */
  function DetailsUnder(offers: seq<Offer>, key: string): seq<PoolDetail> {
    Collect(offers, DetailIfKey(key))
  }

  function Gpus(): PoolDetail -> int { (d: PoolDetail) => d.total }

  function Instances(): PoolDetail -> int { (d: PoolDetail) => d.totalInstances }

  /** An entry's totals are the sums over its own pools, and its labels are those of an offer under its key. */
  ghost predicate EntryFits(offers: seq<Offer>, key: string, e: Entry) {
    && e.pools == DetailsUnder(offers, key)
    && e.total == Sum(e.pools, Gpus())
    && e.totalInstances == Sum(e.pools, Instances())
    && exists i :: 0 <= i < |offers| && KeyOf(offers[i]) == key && e.market == offers[i].market
         && e.cloud == offers[i].at.cloud && e.region == offers[i].at.region && e.zone == offers[i].at.zone
         && e.gpuType == offers[i].at.pool.gpuType
  }

  predicate Occurs(offers: seq<Offer>, key: string) {
    exists i :: 0 <= i < |offers| && KeyOf(offers[i]) == key
  }

  lemma OccursSnoc(offers: seq<Offer>, key: string)
    requires offers != []
    ensures Occurs(offers, key) <==> KeyOf(offers[|offers| - 1]) == key || Occurs(offers[..|offers| - 1], key)
  {
    var shorter := offers[..|offers| - 1];
    if i :| 0 <= i < |offers| && KeyOf(offers[i]) == key { assert i < |shorter| ==> KeyOf(shorter[i]) == key; }
    if i :| 0 <= i < |shorter| && KeyOf(shorter[i]) == key { assert KeyOf(offers[i]) == key; }
  }

  lemma {:induction false} NothingUnder(offers: seq<Offer>, key: string)
    requires !Occurs(offers, key)
    ensures DetailsUnder(offers, key) == []
    decreases |offers|
  {
    if offers != [] {
      OccursSnoc(offers, key);
      NothingUnder(offers[..|offers| - 1], key);
    }
  }

  lemma FitsSnoc(offers: seq<Offer>, key: string, e: Entry)
    requires offers != [] && EntryFits(offers[..|offers| - 1], key, e)
    requires KeyOf(offers[|offers| - 1]) != key
    ensures EntryFits(offers, key, e)
  {
    var shorter := offers[..|offers| - 1];
    var i :| 0 <= i < |shorter| && KeyOf(shorter[i]) == key && e.market == shorter[i].market
      && e.cloud == shorter[i].at.cloud && e.region == shorter[i].at.region && e.zone == shorter[i].at.zone
      && e.gpuType == shorter[i].at.pool.gpuType;
    assert offers[i] == shorter[i];
  }

  lemma FitsRecorded(offers: seq<Offer>, before: Summary)
    requires offers != []
    requires var key := KeyOf(offers[|offers| - 1]);
      if key in before then EntryFits(offers[..|offers| - 1], key, before[key])
      else !Occurs(offers[..|offers| - 1], key)
    ensures var o := offers[|offers| - 1]; EntryFits(offers, KeyOf(o), Record(before, o)[KeyOf(o)])
  {
    var n := |offers| - 1;
    var shorter, o := offers[..n], offers[n];
    var key := KeyOf(o);
    var e := Record(before, o)[key];
    if key in before {
      SumConcat(before[key].pools, [DetailOf(o.at)], Gpus());
      SumConcat(before[key].pools, [DetailOf(o.at)], Instances());
      var i :| 0 <= i < |shorter| && KeyOf(shorter[i]) == key && before[key].market == shorter[i].market
        && before[key].cloud == shorter[i].at.cloud && before[key].region == shorter[i].at.region
        && before[key].zone == shorter[i].at.zone && before[key].gpuType == shorter[i].at.pool.gpuType;
      assert offers[i] == shorter[i];
    } else {
      NothingUnder(shorter, key);
    }
    SumOne(DetailOf(o.at), Gpus());
    SumOne(DetailOf(o.at), Instances());
  }

  /** The keys are exactly the occurring ones, and every entry fits its key. */
  lemma {:induction false} SummaryClosedForm(offers: seq<Offer>)
    ensures forall key :: key in RecordAll(offers) <==> Occurs(offers, key)
    ensures forall key | key in RecordAll(offers) :: EntryFits(offers, key, RecordAll(offers)[key])
    decreases |offers|
  {
    if offers != [] {
      var n := |offers| - 1;
      var before := RecordAll(offers[..n]);
      SummaryClosedForm(offers[..n]);
      forall key ensures key in RecordAll(offers) <==> Occurs(offers, key) { OccursSnoc(offers, key); }
      forall key | key in RecordAll(offers) ensures EntryFits(offers, key, RecordAll(offers)[key]) {
        if key == KeyOf(offers[n]) {
          FitsRecorded(offers, before);
        } else {
          FitsSnoc(offers, key, before[key]);
        }
      }
    }
  }

  // Conservation.

  /** The sum of a weight over all entries. */
  ghost function TotalOver(summary: Summary, weight: Entry -> int): int
    decreases |summary|
  {
    if summary == map[] then 0
    else
      var key :| key in summary;
      weight(summary[key]) + TotalOver(summary - {key}, weight)
  }

  lemma {:induction false} TotalOverSplit(summary: Summary, key: string, weight: Entry -> int)
    requires key in summary
    ensures TotalOver(summary, weight) == weight(summary[key]) + TotalOver(summary - {key}, weight)
    decreases |summary|
  {
    var k :| k in summary && TotalOver(summary, weight) == weight(summary[k]) + TotalOver(summary - {k}, weight);
    if k != key {
      TotalOverSplit(summary - {k}, key, weight);
      TotalOverSplit(summary - {key}, k, weight);
      assert summary - {k} - {key} == summary - {key} - {k};
    }
  }

  lemma TotalOverPut(summary: Summary, key: string, e: Entry, weight: Entry -> int)
    ensures TotalOver(summary[key := e], weight) ==
      TotalOver(summary, weight) + weight(e) - (if key in summary then weight(summary[key]) else 0)
  {
    TotalOverSplit(summary[key := e], key, weight);
    assert summary[key := e] - {key} == summary - {key};
    if key in summary {
      TotalOverSplit(summary, key, weight);
    } else {
      assert summary - {key} == summary;
    }
  }

  function EntryGpus(): Entry -> int { (e: Entry) => e.total }
  function EntryInstances(): Entry -> int { (e: Entry) => e.totalInstances }
  function OfferGpus(): Offer -> int { (o: Offer) => o.at.pool.TotalGpus() }
  function OfferInstances(): Offer -> int { (o: Offer) => o.at.pool.totalInstances }
  function PoolGpus(): PoolAt -> int { (at: PoolAt) => at.pool.TotalGpus() }
  function PoolInstances(): PoolAt -> int { (at: PoolAt) => at.pool.totalInstances }

  lemma {:induction false} RecordAllConserves(offers: seq<Offer>)
    ensures TotalOver(RecordAll(offers), EntryGpus()) == Sum(offers, OfferGpus())
    ensures TotalOver(RecordAll(offers), EntryInstances()) == Sum(offers, OfferInstances())
    decreases |offers|
  {
    if offers != [] {
      var n := |offers| - 1;
      var before, o := RecordAll(offers[..n]), offers[n];
      RecordAllConserves(offers[..n]);
      var key := KeyOf(o);
      TotalOverPut(before, key, Record(before, o)[key], EntryGpus());
      TotalOverPut(before, key, Record(before, o)[key], EntryInstances());
    }
  }

  lemma OneMore(n: int, x: int)
    ensures (n + 1) * x == n * x + x
  {
  }

  lemma {:induction false} SumOffersIn(markets: seq<string>, at: PoolAt)
    ensures Sum(OffersIn(markets, at), OfferGpus()) == |markets| * at.pool.TotalGpus()
    ensures Sum(OffersIn(markets, at), OfferInstances()) == |markets| * at.pool.totalInstances
    decreases |markets|
  {
    if markets != [] {
      var n := |markets| - 1;
      SumOffersIn(markets[..n], at);
      assert OffersIn(markets, at)[..n] == OffersIn(markets[..n], at);
      OneMore(n, at.pool.TotalGpus());
      OneMore(n, at.pool.totalInstances);
    }
  }

  function Scaled(k: int, weight: PoolAt -> int): PoolAt -> int {
    (at: PoolAt) => k * weight(at)
  }

  lemma {:induction false} SumScaled(items: seq<PoolAt>, k: int, weight: PoolAt -> int)
    ensures Sum(items, Scaled(k, weight)) == k * Sum(items, weight)
    decreases |items|
  {
    if items != [] {
      var n := |items| - 1;
      SumScaled(items[..n], k, weight);
      Distribute(k, Sum(items[..n], weight), weight(items[n]));
    }
  }

  lemma SumOffers(items: seq<PoolAt>, markets: seq<string>)
    ensures Sum(Offers(items, markets), OfferGpus()) == |markets| * Sum(items, PoolGpus())
    ensures Sum(Offers(items, markets), OfferInstances()) == |markets| * Sum(items, PoolInstances())
  {
    forall i | 0 <= i < |items|
      ensures Sum(InMarkets(markets)(items[i]), OfferGpus()) == Scaled(|markets|, PoolGpus())(items[i])
      ensures Sum(InMarkets(markets)(items[i]), OfferInstances()) == Scaled(|markets|, PoolInstances())(items[i])
    {
      SumOffersIn(markets, items[i]);
    }
    SumCollect(items, InMarkets(markets), OfferGpus(), Scaled(|markets|, PoolGpus()));
    SumCollect(items, InMarkets(markets), OfferInstances(), Scaled(|markets|, PoolInstances()));
    SumScaled(items, |markets|, PoolGpus());
    SumScaled(items, |markets|, PoolInstances());
  }

  lemma Distribute(a: int, b: int, c: int)
    ensures a * (b + c) == a * b + a * c
  {
  }

  /**
   Conservation, for every tree and market list, with or without key clashes:
   the summary's GPUs and instances are the tree's, once for each listed market.
   */
  lemma {:induction false} SummaryConserves(rm: ResourceMap)
    ensures TotalOver(SummaryOf(rm), EntryGpus()) == |rm.market| * Sum(MachinePools(rm.clouds), PoolGpus())
    ensures TotalOver(SummaryOf(rm), EntryInstances()) == |rm.market| * Sum(MachinePools(rm.clouds), PoolInstances())
  {
    RecordAllConserves(Offers(MachinePools(rm.clouds), rm.market));
    SumOffers(MachinePools(rm.clouds), rm.market);
  }

  // Order independence.

  /** Same keys, same totals, and the same pools up to order. */
  ghost predicate SameSummary(a: Summary, b: Summary) {
    && a.Keys == b.Keys
    && forall key | key in a ::
         a[key].total == b[key].total && a[key].totalInstances == b[key].totalInstances
         && multiset(a[key].pools) == multiset(b[key].pools)
  }

  lemma OccursRearranged(a: seq<Offer>, b: seq<Offer>, key: string)
    requires multiset(a) == multiset(b) && Occurs(a, key)
    ensures Occurs(b, key)
  {
    var i :| 0 <= i < |a| && KeyOf(a[i]) == key;
    assert a[i] in multiset(b);
    var j :| 0 <= j < |b| && b[j] == a[i];
    assert KeyOf(b[j]) == key;
  }

  /** The summary does not depend on the order in which the tree is walked. */
  lemma {:induction false} SummaryIgnoresOrder(a: seq<PoolAt>, b: seq<PoolAt>, markets: seq<string>)
    requires multiset(a) == multiset(b)
    ensures SameSummary(RecordAll(Offers(a, markets)), RecordAll(Offers(b, markets)))
  {
    var oa, ob := Offers(a, markets), Offers(b, markets);
    CollectRearranged(a, b, InMarkets(markets));
    SummaryClosedForm(oa);
    SummaryClosedForm(ob);
    forall key ensures key in RecordAll(oa) <==> key in RecordAll(ob) {
      if Occurs(oa, key) { OccursRearranged(oa, ob, key); }
      if Occurs(ob, key) { OccursRearranged(ob, oa, key); }
    }
    forall key | key in RecordAll(oa)
      ensures RecordAll(oa)[key].total == RecordAll(ob)[key].total
      ensures RecordAll(oa)[key].totalInstances == RecordAll(ob)[key].totalInstances
      ensures multiset(RecordAll(oa)[key].pools) == multiset(RecordAll(ob)[key].pools)
    {
      var pa, pb := DetailsUnder(oa, key), DetailsUnder(ob, key);
      CollectRearranged(oa, ob, DetailIfKey(key));
      SumRearranged(pa, pb, Gpus());
      SumRearranged(pa, pb, Instances());
    }
  }

  // Keys.

  predicate Plain(c: string, r: string, z: string) {
    '|' !in c && '|' !in r && '|' !in z
  }

  /** Without separators in the first four parts, the joined key determines all five. */
  lemma {:induction false} JoinKeyInjective(m: string, c: string, r: string, z: string, g: string, m': string,
      c': string, r': string, z': string, g': string)
    requires '|' !in m && Plain(c, r, z) && '|' !in m' && Plain(c', r', z')
    requires JoinKey(m, c, r, z, g) == JoinKey(m', c', r', z', g')
    ensures m == m' && c == c' && r == r' && z == z' && g == g'
  {
    var s3, t3 := z + "|" + g, z' + "|" + g';
    var s2, t2 := r + "|" + s3, r' + "|" + t3;
    var s1, t1 := c + "|" + s2, c' + "|" + t2;
    assert JoinKey(m, c, r, z, g) == m + "|" + s1;
    assert JoinKey(m', c', r', z', g') == m' + "|" + t1;
    FirstPartUnique('|', m, m', s1, t1);
    FirstPartUnique('|', c, c', s2, t2);
    FirstPartUnique('|', r, r', s3, t3);
    FirstPartUnique('|', z, z', g, g');
  }

  ghost predicate InjectiveOver(alphabet: set<char>) {
    forall m, c, r, z, g, m', c', r', z', g' |
      && Over(m, alphabet) && Over(c, alphabet) && Over(r, alphabet) && Over(z, alphabet) && Over(g, alphabet)
      && Over(m', alphabet) && Over(c', alphabet) && Over(r', alphabet) && Over(z', alphabet) && Over(g', alphabet)
      && JoinKey(m, c, r, z, g) == JoinKey(m', c', r', z', g') ::
      m == m' && c == c' && r == r' && z == z' && g == g'
  }

  /**
   Distinct (market, cloud, region, zone, gpu) tuples get distinct keys exactly when the
   separator is not a component character.
   */
  lemma {:induction false} KeysDistinctIff(alphabet: set<char>)
    ensures InjectiveOver(alphabet) <==> '|' !in alphabet
  {
    if '|' in alphabet {
      assert Over("|", alphabet) && Over("", alphabet);
      assert JoinKey("|", "", "", "", "") == "|||||" == JoinKey("", "|", "", "", "");
    } else {
      forall m, c, r, z, g, m', c', r', z', g' |
        && Over(m, alphabet) && Over(c, alphabet) && Over(r, alphabet) && Over(z, alphabet) && Over(g, alphabet)
        && Over(m', alphabet) && Over(c', alphabet) && Over(r', alphabet) && Over(z', alphabet) && Over(g', alphabet)
        && JoinKey(m, c, r, z, g) == JoinKey(m', c', r', z', g')
        ensures m == m' && c == c' && r == r' && z == z' && g == g'
      {
        JoinKeyInjective(m, c, r, z, g, m', c', r', z', g');
      }
    }
  }

  /** Every entry sits under the key that its own five labels spell. */
  lemma {:induction false} KeySpellsLabels(rm: ResourceMap, key: string)
    requires key in SummaryOf(rm)
    ensures var e := SummaryOf(rm)[key]; NamedBy(key, e.market, e.cloud, e.region, e.zone, e.gpuType)
  {
    SummaryClosedForm(Offers(MachinePools(rm.clouds), rm.market));
  }

  lemma CutKey(m: string, c: string, r: string, z: string, g: string)
    requires '|' !in m && Plain(c, r, z) && '|' !in g
    ensures Cut(m + "|" + c + "|" + r + "|" + z + "|" + g, '|') == [m, c, r, z, g]
  {
    var s3 := z + ['|'] + g;
    var s2 := r + ['|'] + s3;
    var s1 := c + ['|'] + s2;
    assert m + "|" + c + "|" + r + "|" + z + "|" + g == m + ['|'] + s1;
    CutFirst(m, '|', s1);
    CutFirst(c, '|', s2);
    CutFirst(r, '|', s3);
    CutFirst(z, '|', g);
    CutPlain(g, '|');
  }

  /**
   Cutting the key of an entry at the separator gives market, cloud, region, zone and GPU
   type, when none contains it.
   */
  lemma {:induction false} KeyCutsIntoLabels(rm: ResourceMap, key: string)
    requires key in SummaryOf(rm)
    ensures
      var e := SummaryOf(rm)[key];
      '|' !in e.market && Plain(e.cloud, e.region, e.zone) && '|' !in e.gpuType ==>
        Cut(key, '|') == [e.market, e.cloud, e.region, e.zone, e.gpuType]
  {
    KeySpellsLabels(rm, key);
    var e := SummaryOf(rm)[key];
    if '|' !in e.market && Plain(e.cloud, e.region, e.zone) && '|' !in e.gpuType {
      CutKey(e.market, e.cloud, e.region, e.zone, e.gpuType);
    }
  }

  /** A detail under a key stems from a pool in a listed market that the key names. */
  ghost predicate StemsFrom(rm: ResourceMap, key: string, d: PoolDetail) {
    exists m, at :: m in rm.market && FoundAt(rm.clouds, at) && Shows(d, at) &&
      NamedBy(key, m, at.cloud, at.region, at.zone, at.pool.gpuType)
  }

  lemma ShownDetail(d: PoolDetail, at: PoolAt)
    ensures Shows(d, at) <==> d == DetailOf(at)
  {
  }

  /** A detail under a key comes from an offer under that key. */
  ghost predicate Offered(offers: seq<Offer>, key: string, d: PoolDetail) {
    exists i :: 0 <= i < |offers| && KeyOf(offers[i]) == key && DetailOf(offers[i].at) == d
  }

  lemma EntryIsOffered(offers: seq<Offer>, key: string, d: PoolDetail)
    ensures key in RecordAll(offers) && d in RecordAll(offers)[key].pools <==> Offered(offers, key, d)
  {
    SummaryClosedForm(offers);
    CollectMembers(offers, DetailIfKey(key), d);
    if i :| 0 <= i < |offers| && KeyOf(offers[i]) == key && DetailOf(offers[i].at) == d {
      assert d in DetailIfKey(key)(offers[i]);
    }
    if d in DetailsUnder(offers, key) {
      var i :| 0 <= i < |offers| && d in DetailIfKey(key)(offers[i]);
      assert KeyOf(offers[i]) == key && DetailOf(offers[i].at) == d;
    }
  }

  lemma OfferStems(rm: ResourceMap, o: Offer)
    requires o in Offers(MachinePools(rm.clouds), rm.market)
    ensures StemsFrom(rm, KeyOf(o), DetailOf(o.at))
  {
    OfferComesFrom(MachinePools(rm.clouds), rm.market, o);
    TraversalFindsPools(rm.clouds, o.at);
    ShownDetail(DetailOf(o.at), o.at);
    assert NamedBy(KeyOf(o), o.market, o.at.cloud, o.at.region, o.at.zone, o.at.pool.gpuType);
  }

  lemma StemIsOffered(rm: ResourceMap, key: string, d: PoolDetail)
    requires StemsFrom(rm, key, d)
    ensures Offered(Offers(MachinePools(rm.clouds), rm.market), key, d)
  {
    var m, at :| m in rm.market && FoundAt(rm.clouds, at) && Shows(d, at) &&
      NamedBy(key, m, at.cloud, at.region, at.zone, at.pool.gpuType);
    TraversalFindsPools(rm.clouds, at);
    ShownDetail(d, at);
    OfferIsMade(MachinePools(rm.clouds), rm.market, m, at);
    assert KeyOf(Offer(m, at)) == key;
  }

  /** What stands in the summary, said of the tree: each listed market offers each pool, under its text key. */
  lemma {:induction false} SummaryEntriesMean(rm: ResourceMap, key: string, d: PoolDetail)
    ensures key in SummaryOf(rm) && d in SummaryOf(rm)[key].pools <==> StemsFrom(rm, key, d)
  {
    var offers := Offers(MachinePools(rm.clouds), rm.market);
    EntryIsOffered(offers, key, d);
    if StemsFrom(rm, key, d) { StemIsOffered(rm, key, d); }
    if Offered(offers, key, d) {
      var i :| 0 <= i < |offers| && KeyOf(offers[i]) == key && DetailOf(offers[i].at) == d;
      OfferStems(rm, offers[i]);
    }
  }

  lemma OfferIsMade(items: seq<PoolAt>, markets: seq<string>, m: string, at: PoolAt)
    requires at in items && m in markets
    ensures Offer(m, at) in Offers(items, markets)
  {
    var i :| 0 <= i < |items| && items[i] == at;
    var j :| 0 <= j < |markets| && markets[j] == m;
    assert OffersIn(markets, at)[j] == Offer(m, at);
    assert Offer(m, at) in InMarkets(markets)(items[i]);
    CollectMembers(items, InMarkets(markets), Offer(m, at));
  }

  // Meaning of one entry.

  ghost predicate PlainPools(items: seq<PoolAt>) {
    forall i | 0 <= i < |items| :: Plain(items[i].cloud, items[i].region, items[i].zone)
  }

  ghost predicate PlainMarkets(markets: seq<string>) {
    forall i | 0 <= i < |markets| :: '|' !in markets[i]
  }

  predicate InPlace(at: PoolAt, c: string, r: string, z: string, g: string) {
    at.cloud == c && at.region == r && at.zone == z && at.pool.gpuType == g
  }

  function DetailIfIn(c: string, r: string, z: string, g: string): PoolAt -> seq<PoolDetail> {
    (at: PoolAt) => if InPlace(at, c, r, z, g) then [DetailOf(at)] else []
  }

  /** The zone's pools of a GPU type, each once, in tree order. */
  function PoolsIn(items: seq<PoolAt>, c: string, r: string, z: string, g: string): seq<PoolDetail> {
    Collect(items, DetailIfIn(c, r, z, g))
  }

  lemma {:induction false} OneMarketMatches(markets: seq<string>, at: PoolAt, m: string, c: string, r: string,
      z: string, g: string)
    requires PlainMarkets(markets) && '|' !in m && Plain(c, r, z) && Plain(at.cloud, at.region, at.zone)
    requires forall i, j | 0 <= i < j < |markets| :: markets[i] != markets[j]
    ensures DetailsUnder(OffersIn(markets, at), JoinKey(m, c, r, z, g)) ==
      if m in markets && InPlace(at, c, r, z, g) then [DetailOf(at)] else []
    decreases |markets|
  {
    if markets != [] {
      var before, last := markets[..|markets| - 1], markets[|markets| - 1];
      var key := JoinKey(m, c, r, z, g);
      OneMarketMatches(before, at, m, c, r, z, g);
      LastOfferMatches(last, at, m, c, r, z, g);
      UnderSnoc(markets, at, key);
      InSnoc(markets, m);
    }
  }

  lemma UnderSnoc(markets: seq<string>, at: PoolAt, key: string)
    requires markets != []
    ensures DetailsUnder(OffersIn(markets, at), key) ==
      DetailsUnder(OffersIn(markets[..|markets| - 1], at), key) + DetailIfKey(key)(Offer(markets[|markets| - 1], at))
  {
    assert OffersIn(markets, at)[..|markets| - 1] == OffersIn(markets[..|markets| - 1], at);
  }

  lemma InSnoc(markets: seq<string>, m: string)
    requires markets != [] && forall i, j | 0 <= i < j < |markets| :: markets[i] != markets[j]
    ensures m in markets <==> m in markets[..|markets| - 1] || m == markets[|markets| - 1]
    ensures !(m in markets[..|markets| - 1] && m == markets[|markets| - 1])
  {
    assert markets == markets[..|markets| - 1] + [markets[|markets| - 1]];
  }

  lemma LastOfferMatches(market: string, at: PoolAt, m: string, c: string, r: string, z: string, g: string)
    requires '|' !in market && '|' !in m && Plain(c, r, z) && Plain(at.cloud, at.region, at.zone)
    ensures DetailIfKey(JoinKey(m, c, r, z, g))(Offer(market, at)) ==
      if market == m && InPlace(at, c, r, z, g) then [DetailOf(at)] else []
  {
    if KeyOf(Offer(market, at)) == JoinKey(m, c, r, z, g) {
      JoinKeyInjective(market, at.cloud, at.region, at.zone, at.pool.gpuType, m, c, r, z, g);
    }
  }

  lemma {:induction false} EntryPools(items: seq<PoolAt>, markets: seq<string>, m: string, c: string, r: string,
      z: string, g: string)
    requires PlainPools(items) && PlainMarkets(markets) && '|' !in m && Plain(c, r, z)
    requires forall i, j | 0 <= i < j < |markets| :: markets[i] != markets[j]
    ensures DetailsUnder(Offers(items, markets), JoinKey(m, c, r, z, g)) ==
      if m in markets then PoolsIn(items, c, r, z, g) else []
    decreases |items|
  {
    if items != [] {
      var n := |items| - 1;
      var key := JoinKey(m, c, r, z, g);
      EntryPools(items[..n], markets, m, c, r, z, g);
      OneMarketMatches(markets, items[n], m, c, r, z, g);
      CollectConcat(Offers(items[..n], markets), OffersIn(markets, items[n]), DetailIfKey(key));
    }
  }

  lemma {:induction false} UnderIfOccurs(offers: seq<Offer>, key: string)
    ensures Occurs(offers, key) <==> DetailsUnder(offers, key) != []
    decreases |offers|
  {
    if offers != [] {
      OccursSnoc(offers, key);
      UnderIfOccurs(offers[..|offers| - 1], key);
    }
  }

  /**
   The meaning of the summary, for names without the separator and distinct
   markets: a (market, cloud, region, zone, gpu) tuple has an entry exactly when
   the market is listed and the zone has a pool of that type; the entry carries
   those five names, and aggregates exactly that zone's pools of that type.
   */
  lemma {:induction false} SummaryMeaning(rm: ResourceMap, m: string, c: string, r: string, z: string, g: string)
    requires PlainPools(MachinePools(rm.clouds)) && PlainMarkets(rm.market) && '|' !in m && Plain(c, r, z)
    requires forall i, j | 0 <= i < j < |rm.market| :: rm.market[i] != rm.market[j]
    ensures
      var key, pools := JoinKey(m, c, r, z, g), PoolsIn(MachinePools(rm.clouds), c, r, z, g);
      && (key in SummaryOf(rm) <==> m in rm.market && pools != [])
      && (key in SummaryOf(rm) ==>
            SummaryOf(rm)[key] == Entry(Sum(pools, Gpus()), Sum(pools, Instances()), g, m, c, r, z, pools))
  {
    var items := MachinePools(rm.clouds);
    var offers := Offers(items, rm.market);
    var key := JoinKey(m, c, r, z, g);
    SummaryClosedForm(offers);
    EntryPools(items, rm.market, m, c, r, z, g);
    UnderIfOccurs(offers, key);
    if key in SummaryOf(rm) {
      var e := SummaryOf(rm)[key];
      var i :| 0 <= i < |offers| && KeyOf(offers[i]) == key && e.market == offers[i].market
        && e.cloud == offers[i].at.cloud && e.region == offers[i].at.region && e.zone == offers[i].at.zone
        && e.gpuType == offers[i].at.pool.gpuType;
      OfferComesFrom(items, rm.market, offers[i]);
      JoinKeyInjective(e.market, e.cloud, e.region, e.zone, e.gpuType, m, c, r, z, g);
    }
  }

  lemma OfferComesFrom(items: seq<PoolAt>, markets: seq<string>, o: Offer)
    requires o in Offers(items, markets)
    ensures o.at in items && o.market in markets
  {
    CollectMembers(items, InMarkets(markets), o);
    var i :| 0 <= i < |items| && o in OffersIn(markets, items[i]);
  }
}
