/** Python dicts with text keys: key-value pairs in insertion order. */
module Dicts {
  import opened Results
  import opened Folds

  type Dict<V> = seq<(string, V)>

  predicate Has<V>(d: Dict<V>, key: string) {
    exists i :: 0 <= i < |d| && d[i].0 == key
  }

  ghost predicate UniqueKeys<V>(d: Dict<V>) {
    forall i, j | 0 <= i < j < |d| :: d[i].0 != d[j].0
  }

  lemma HasTail<V>(d: Dict<V>, key: string)
    requires d != []
    ensures Has(d, key) <==> d[0].0 == key || Has(d[1..], key)
  {
    if i :| 0 <= i < |d| && d[i].0 == key { assert i > 0 ==> d[1..][i - 1].0 == key; }
    if i :| 0 <= i < |d[1..]| && d[1..][i].0 == key { assert d[i + 1].0 == key; }
  }

  function Get<V>(d: Dict<V>, key: string): (r: Option<V>)
    ensures r.Some? <==> Has(d, key)
    ensures r.Some? ==> (key, r.value) in d
  {
    if d == [] then None
    else
      HasTail(d, key);
      if d[0].0 == key then Some(d[0].1) else Get(d[1..], key)
  }

  /** `d[key] = value`: a known key keeps its place, a new one goes last. */
  function Put<V>(d: Dict<V>, key: string, value: V): (r: Dict<V>)
    ensures Has(r, key)
  {
    if d == [] then
      assert [(key, value)][0].0 == key;
      [(key, value)]
    else if d[0].0 == key then
      assert ([(key, value)] + d[1..])[0].0 == key;
      [(key, value)] + d[1..]
    else
      var r := [d[0]] + Put(d[1..], key, value);
      assert r[1..] == Put(d[1..], key, value);
      HasTail(r, key);
      r
  }

  lemma {:induction false} GetOfUnique<V>(d: Dict<V>, i: nat)
    requires UniqueKeys(d) && i < |d|
    ensures Get(d, d[i].0) == Some(d[i].1)
    decreases |d|
  {
    if i > 0 {
      assert d[0].0 != d[i].0;
      assert d[1..][i - 1] == d[i];
      GetOfUnique(d[1..], i - 1);
    }
  }

  /** A put replaces the value in place or appends a new pair. */
  lemma {:induction false} PutShape<V>(d: Dict<V>, key: string, value: V) returns (i: nat)
    ensures Has(d, key) ==>
      && i < |d| && d[i].0 == key && Get(d, key) == Some(d[i].1)
      && Put(d, key, value) == d[i := (key, value)]
    ensures !Has(d, key) ==> Put(d, key, value) == d + [(key, value)]
    decreases |d|
  {
    i := 0;
    if d != [] {
      HasTail(d, key);
      if d[0].0 != key {
        var j := PutShape(d[1..], key, value);
        i := j + 1;
      }
    }
  }

  lemma PutFresh<V>(d: Dict<V>, key: string, value: V)
    requires !Has(d, key)
    ensures Put(d, key, value) == d + [(key, value)]
  {
    var i := PutShape(d, key, value);
  }

  lemma PutKeys<V>(d: Dict<V>, key: string, value: V)
    requires UniqueKeys(d)
    ensures UniqueKeys(Put(d, key, value))
    ensures forall k :: Has(Put(d, key, value), k) <==> Has(d, k) || k == key
  {
    var i := PutShape(d, key, value);
    var r := Put(d, key, value);
    forall k ensures Has(r, k) <==> Has(d, k) || k == key {
      if j :| 0 <= j < |d| && d[j].0 == k { assert r[j].0 == k; }
      if j :| 0 <= j < |r| && r[j].0 == k { assert j < |d| ==> d[j].0 == k; }
    }
  }

  lemma {:induction false} GetPut<V>(d: Dict<V>, key: string, value: V, k: string)
    ensures Get(Put(d, key, value), k) == if k == key then Some(value) else Get(d, k)
    decreases |d|
  {
    if d != [] && d[0].0 != key {
      var r := Put(d, key, value);
      assert r[1..] == Put(d[1..], key, value);
      GetPut(d[1..], key, value, k);
    } else if d != [] {
      assert Put(d, key, value)[1..] == d[1..];
    } else {
      assert [(key, value)][1..] == [];
    }
  }

  /** What a put changes in a flattened dict: the key's old part goes, its new part comes. */
  lemma CollectPut<V, B>(d: Dict<V>, key: string, value: V, f: ((string, V)) -> seq<B>)
    ensures
      var gone := if Has(d, key) then multiset(f((key, Get(d, key).value))) else multiset{};
      multiset(Collect(Put(d, key, value), f)) + gone == multiset(Collect(d, f)) + multiset(f((key, value)))
  {
    var i := PutShape(d, key, value);
    var r := Put(d, key, value);
    if Has(d, key) {
      CollectWithout(d, i, f);
      CollectWithout(r, i, f);
      assert Without(r, i) == Without(d, i);
    } else {
      CollectConcat(d, [(key, value)], f);
      CollectOne((key, value), f);
    }
  }

  /** Equality of dicts, which ignores order: the same keys with values that are the same. */
  ghost predicate SameDict<V>(a: Dict<V>, b: Dict<V>, same: (V, V) -> bool) {
    && UniqueKeys(a) && UniqueKeys(b)
    && (forall k :: Has(a, k) <==> Has(b, k))
    && (forall i, j | 0 <= i < |a| && 0 <= j < |b| && a[i].0 == b[j].0 :: same(a[i].1, b[j].1))
  }

  lemma WithoutKeys<V>(d: Dict<V>, i: nat)
    requires UniqueKeys(d) && i < |d|
    ensures UniqueKeys(Without(d, i))
    ensures forall k :: Has(Without(d, i), k) <==> Has(d, k) && k != d[i].0
    ensures forall e | e in Without(d, i) :: e in d
  {
    var r := Without(d, i);
    forall k ensures Has(r, k) <==> Has(d, k) && k != d[i].0 {
      if j :| 0 <= j < |r| && r[j].0 == k { assert d[if j < i then j else j + 1].0 == k; }
      if j :| 0 <= j < |d| && d[j].0 == k && j != i { assert r[if j < i then j else j - 1].0 == k; }
    }
  }

  /** Equal dicts flatten to the same things, up to order. */
  lemma {:induction false} CollectSameDict<V, B>(a: Dict<V>, b: Dict<V>, same: (V, V) -> bool,
      f: ((string, V)) -> seq<B>)
    requires SameDict(a, b, same)
    requires forall i, j | 0 <= i < |a| && 0 <= j < |b| && a[i].0 == b[j].0 && same(a[i].1, b[j].1) ::
      multiset(f(a[i])) == multiset(f(b[j]))
    ensures multiset(Collect(a, f)) == multiset(Collect(b, f))
    decreases |a|
  {
    if a == [] {
      if b != [] { HasTail(b, b[0].0); }
    } else {
      assert Has(a, a[0].0);
      var j :| 0 <= j < |b| && b[j].0 == a[0].0;
      var a', b' := Without(a, 0), Without(b, j);
      WithoutKeys(a, 0);
      WithoutKeys(b, j);
      forall x, y | 0 <= x < |a'| && 0 <= y < |b'| && a'[x].0 == b'[y].0
        ensures same(a'[x].1, b'[y].1) && multiset(f(a'[x])) == multiset(f(b'[y]))
      {
        assert a'[x] == a[x + 1] && b'[y] == b[if y < j then y else y + 1];
      }
      CollectSameDict(a', b', same, f);
      CollectWithout(a, 0, f);
      CollectWithout(b, j, f);
    }
  }

  function MapDict<V, W>(d: Dict<V>, f: V -> W): (r: Dict<W>)
    ensures |r| == |d| && forall i | 0 <= i < |d| :: r[i] == (d[i].0, f(d[i].1))
  {
    if d == [] then [] else [(d[0].0, f(d[0].1))] + MapDict(d[1..], f)
  }
}
