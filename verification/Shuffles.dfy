/** A JSON document as a store that may reorder object members gives it back. */
module Shuffles {
  import opened Results
  import opened Dicts
  import opened JsonValues

  /** `b` is `a` with the members of objects, at any depth, in another order. */
  ghost predicate Shuffled(a: Json, b: Json)
    decreases a
  {
    match a
    case JObj(ma) => b.JObj? && (
        var mb := b.members;
        && UniqueKeys(ma) && UniqueKeys(mb)
        && (forall k :: Has(ma, k) <==> Has(mb, k))
        && (forall i, j | 0 <= i < |ma| && 0 <= j < |mb| && ma[i].0 == mb[j].0 :: Shuffled(ma[i].1, mb[j].1)))
    case JArr(xs) => b.JArr? && |b.items| == |xs| && forall i | 0 <= i < |xs| :: Shuffled(xs[i], b.items[i])
    case _ => a == b
  }

  /** Objects with unique keys at every depth, as any document built from dicts. */
  ghost predicate Proper(j: Json)
    decreases j
  {
    match j
    case JObj(m) => UniqueKeys(m) && forall i | 0 <= i < |m| :: Proper(m[i].1)
    case JArr(xs) => forall i | 0 <= i < |xs| :: Proper(xs[i])
    case _ => true
  }

  /** Keeping the order is one of the allowed orders. */
  lemma {:induction false} ProperIsShuffledSelf(j: Json)
    requires Proper(j)
    ensures Shuffled(j, j)
    decreases j
  {
    match j
    case JObj(m) =>
      forall i, k | 0 <= i < |m| && 0 <= k < |m| && m[i].0 == m[k].0 ensures Shuffled(m[i].1, m[k].1) {
        assert i == k;
        ProperIsShuffledSelf(m[i].1);
      }
    case JArr(xs) => forall i | 0 <= i < |xs| ensures Shuffled(xs[i], xs[i]) { ProperIsShuffledSelf(xs[i]); }
    case _ =>
  }

  /** A member of a shuffled object is found under its key, itself shuffled. */
  lemma MemberOfShuffled(ma: Dict<Json>, mb: Dict<Json>, i: nat)
    requires Shuffled(JObj(ma), JObj(mb)) && i < |ma|
    ensures Get(mb, ma[i].0).Some? && Shuffled(ma[i].1, Get(mb, ma[i].0).value)
  {
    assert Has(ma, ma[i].0);
    var v := Get(mb, ma[i].0).value;
    assert (ma[i].0, v) in mb;
  }

  /** A member that holds no object or array is found unchanged. */
  lemma LeafOfShuffled(ma: Dict<Json>, mb: Dict<Json>, i: nat)
    requires Shuffled(JObj(ma), JObj(mb)) && i < |ma|
    requires !ma[i].1.JObj? && !ma[i].1.JArr?
    ensures Get(mb, ma[i].0) == Some(ma[i].1)
  {
    MemberOfShuffled(ma, mb, i);
  }

  /** Every member that holds no object or array is found unchanged. */
  ghost predicate LeavesFound(ma: Dict<Json>, mb: Dict<Json>) {
    forall i | 0 <= i < |ma| && !ma[i].1.JObj? && !ma[i].1.JArr? :: Get(mb, ma[i].0) == Some(ma[i].1)
  }

  lemma LeavesOfShuffled(ma: Dict<Json>, mb: Dict<Json>)
    requires Shuffled(JObj(ma), JObj(mb))
    ensures LeavesFound(ma, mb)
  {
    forall i | 0 <= i < |ma| && !ma[i].1.JObj? && !ma[i].1.JArr? ensures Get(mb, ma[i].0) == Some(ma[i].1) {
      LeafOfShuffled(ma, mb, i);
    }
  }

  function DecodeDict<V>(members: Dict<Json>, decode: Json -> Option<V>): (r: Option<Dict<V>>)
    ensures r.Some? ==> |r.value| == |members| && forall i | 0 <= i < |members| ::
      r.value[i].0 == members[i].0 && decode(members[i].1) == Some(r.value[i].1)
    ensures r.None? ==> exists i :: 0 <= i < |members| && decode(members[i].1).None?
  {
    if members == [] then Some([])
    else
      match decode(members[0].1)
      case None =>
        assert decode(members[0].1).None?;
        None
      case Some(v) =>
        match DecodeDict(members[1..], decode)
        case None =>
          assert exists i :: 0 <= i < |members| && decode(members[i].1).None? by {
            var i :| 0 <= i < |members[1..]| && decode(members[1..][i].1).None?;
            assert decode(members[i + 1].1).None?;
          }
          None
        case Some(rest) =>
          var r := [(members[0].0, v)] + rest;
          assert forall i | 1 <= i < |members| :: members[i] == members[1..][i - 1] && r[i] == rest[i - 1];
          Some(r)
  }

  lemma MapDictKeys<V>(d: Dict<V>, encode: V -> Json)
    ensures UniqueKeys(MapDict(d, encode)) <==> UniqueKeys(d)
    ensures forall k :: Has(MapDict(d, encode), k) <==> Has(d, k)
  {
    var e := MapDict(d, encode);
    SameHas(d, e);
    if UniqueKeys(e) { forall i, j | 0 <= i < j < |d| ensures d[i].0 != d[j].0 { assert e[i].0 != e[j].0; } }
  }

  lemma ShuffledObject(ma: Dict<Json>, mb: Dict<Json>)
    requires Shuffled(JObj(ma), JObj(mb))
    ensures UniqueKeys(ma) && UniqueKeys(mb)
    ensures forall k :: Has(ma, k) <==> Has(mb, k)
  {
  }

  lemma ShuffledMember(ma: Dict<Json>, mb: Dict<Json>, i: nat, j: nat)
    requires Shuffled(JObj(ma), JObj(mb))
    requires i < |ma| && j < |mb| && ma[i].0 == mb[j].0
    ensures Shuffled(ma[i].1, mb[j].1)
  {
  }

  /** The values of a shuffled dict are the shuffled values of the same keys. */
  lemma ShuffledDict<V>(d: Dict<V>, encode: V -> Json, members: Dict<Json>)
    requires Shuffled(JObj(MapDict(d, encode)), JObj(members))
    ensures UniqueKeys(d) && UniqueKeys(members) && forall k :: Has(d, k) <==> Has(members, k)
  {
    MapDictKeys(d, encode);
    ShuffledObject(MapDict(d, encode), members);
  }

  lemma ShuffledValue<V>(d: Dict<V>, encode: V -> Json, members: Dict<Json>, i: nat, j: nat)
    requires Shuffled(JObj(MapDict(d, encode)), JObj(members))
    requires i < |d| && j < |members| && d[i].0 == members[j].0
    ensures Shuffled(encode(d[i].1), members[j].1)
  {
    ShuffledMember(MapDict(d, encode), members, i, j);
  }

  /** If values under equal keys decode to the same thing, the decoded dict is the same dict. */
  lemma {:induction false} DictReadsBack<V>(d: Dict<V>, members: Dict<Json>, decode: Json -> Option<V>,
      same: (V, V) -> bool)
    requires UniqueKeys(d) && UniqueKeys(members) && forall k :: Has(d, k) <==> Has(members, k)
    requires forall i, j | 0 <= i < |d| && 0 <= j < |members| && d[i].0 == members[j].0 ::
      decode(members[j].1).Some? && same(d[i].1, decode(members[j].1).value)
    ensures DecodeDict(members, decode).Some?
    ensures SameDict(d, DecodeDict(members, decode).value, same)
  {
    forall j | 0 <= j < |members| ensures decode(members[j].1).Some? {
      assert Has(members, members[j].0);
      var i :| 0 <= i < |d| && d[i].0 == members[j].0;
    }
    var r := DecodeDict(members, decode).value;
    DecodedKeys(members, decode, r);
    forall i, j | 0 <= i < |d| && 0 <= j < |r| && d[i].0 == r[j].0 ensures same(d[i].1, r[j].1) {
      DecodedValue(members, decode, r, j);
    }
  }

  lemma DecodedValue<V>(members: Dict<Json>, decode: Json -> Option<V>, r: Dict<V>, j: nat)
    requires DecodeDict(members, decode) == Some(r) && j < |r|
    ensures |r| == |members| && r[j].0 == members[j].0 && decode(members[j].1) == Some(r[j].1)
  {
  }

  lemma DecodedKeys<V>(members: Dict<Json>, decode: Json -> Option<V>, r: Dict<V>)
    requires UniqueKeys(members) && DecodeDict(members, decode) == Some(r)
    ensures UniqueKeys(r)
    ensures forall k :: Has(r, k) <==> Has(members, k)
  {
    SameHas(r, members);
    forall i, j | 0 <= i < j < |r| ensures r[i].0 != r[j].0 { assert members[i].0 != members[j].0; }
  }

  lemma SameHas<V, W>(d: Dict<V>, e: Dict<W>)
    requires |d| == |e| && forall i | 0 <= i < |d| :: d[i].0 == e[i].0
    ensures forall k :: Has(d, k) <==> Has(e, k)
  {
    forall k ensures Has(d, k) <==> Has(e, k) {
      if i :| 0 <= i < |d| && d[i].0 == k { assert e[i].0 == k; }
      if i :| 0 <= i < |e| && e[i].0 == k { assert d[i].0 == k; }
    }
  }
}
