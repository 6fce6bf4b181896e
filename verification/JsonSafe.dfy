/** The normaliser that turns opaque runtime values into JSON, and when one pass of it is enough. */
module JsonSafe {
  import opened Dicts

  /** A dict key, with the text `str` gives it. */
  datatype Key = KText(text: string) | KOther(text: string)

  /** Runtime values: an array has a `tolist`, anything else only a text. */
  datatype Value =
    | VNone
    | VBool(b: bool)
    | VInt(n: int)
    | VFloat(x: real)
    | VStr(s: string)
    | VTuple(items: seq<Value>)
    | VList(items: seq<Value>)
    | VDict(entries: seq<(Key, Value)>)
    | VArray(tolist: Value)
    | VOther(text: string)

  function Tagged(d: Dict<Value>): (r: seq<(Key, Value)>)
    ensures |r| == |d| && forall i | 0 <= i < |d| :: r[i] == (KText(d[i].0), d[i].1)
  {
    if d == [] then [] else Tagged(d[..|d| - 1]) + [(KText(d[|d| - 1].0), d[|d| - 1].1)]
  }

  /** Values as JSON can hold them; an array answers with its `tolist`, unconverted. */
  function Safe(v: Value): Value
    decreases v, 1
  {
    match v
    case VTuple(items) => VList(SafeAll(items))
    case VDict(entries) => VDict(Tagged(SafeEntries(v, |entries|)))
    case VList(items) => VList(SafeAll(items))
    case VArray(t) => t
    case VOther(text) => VStr(text)
    case _ => v
  }

  function SafeAll(items: seq<Value>): (r: seq<Value>)
    ensures |r| == |items| && forall i | 0 <= i < |items| :: r[i] == Safe(items[i])
    decreases items, 0
  {
    if items == [] then [] else SafeAll(items[..|items| - 1]) + [Safe(items[|items| - 1])]
  }

  /**
   A dict comprehension over the first n entries: of keys with the same text the last
   value stays, at the first place.
   */
  function SafeEntries(v: Value, n: nat): Dict<Value>
    requires v.VDict? && n <= |v.entries|
    decreases v, 0, n
  {
    if n == 0 then [] else Put(SafeEntries(v, n - 1), v.entries[n - 1].0.text, Safe(v.entries[n - 1].1))
  }

  /** Values that are JSON already: lists and dicts of JSON under distinct text keys. */
  predicate IsJson(v: Value)
    decreases v
  {
    match v
    case VTuple(_) => false
    case VArray(_) => false
    case VOther(_) => false
    case VList(items) => forall i | 0 <= i < |items| :: IsJson(items[i])
    case VDict(entries) =>
      && (forall i | 0 <= i < |entries| :: entries[i].0.KText? && IsJson(entries[i].1))
      && (forall i, j | 0 <= i < j < |entries| :: entries[i].0.text != entries[j].0.text)
    case _ => true
  }

  /** Every array in the value lists JSON values. */
  predicate Clean(v: Value)
    decreases v
  {
    match v
    case VTuple(items) => forall i | 0 <= i < |items| :: Clean(items[i])
    case VList(items) => forall i | 0 <= i < |items| :: Clean(items[i])
    case VDict(entries) => forall i | 0 <= i < |entries| :: Clean(entries[i].1)
    case VArray(t) => IsJson(t)
    case _ => true
  }

  /** `x` is the value itself or stands somewhere in its tuples, lists and dicts. */
  ghost predicate Within(x: Value, v: Value)
    decreases v
  {
    x == v ||
    match v
    case VTuple(items) => exists i :: 0 <= i < |items| && Within(x, items[i])
    case VList(items) => exists i :: 0 <= i < |items| && Within(x, items[i])
    case VDict(entries) => exists i :: 0 <= i < |entries| && Within(x, entries[i].1)
    case _ => false
  }

  /** Clean is said of the arrays anywhere in the value. */
  lemma {:induction false} CleanMeans(v: Value)
    ensures Clean(v) <==> forall t :: Within(VArray(t), v) ==> IsJson(t)
    decreases v
  {
    match v
    case VTuple(items) =>
      forall i | 0 <= i < |items| ensures Clean(items[i]) <==> forall t :: Within(VArray(t), items[i]) ==> IsJson(t) {
        CleanMeans(items[i]);
      }
    case VList(items) =>
      forall i | 0 <= i < |items| ensures Clean(items[i]) <==> forall t :: Within(VArray(t), items[i]) ==> IsJson(t) {
        CleanMeans(items[i]);
      }
    case VDict(entries) =>
      forall i | 0 <= i < |entries|
        ensures Clean(entries[i].1) <==> forall t :: Within(VArray(t), entries[i].1) ==> IsJson(t)
      {
        CleanMeans(entries[i].1);
      }
    case _ =>
  }

  ghost predicate JsonDict(d: Dict<Value>) {
    UniqueKeys(d) && forall i | 0 <= i < |d| :: IsJson(d[i].1)
  }

  lemma PutKeepsJson(d: Dict<Value>, key: string, v: Value)
    requires JsonDict(d) && IsJson(v)
    ensures JsonDict(Put(d, key, v))
  {
    PutKeys(d, key, v);
    var i := PutShape(d, key, v);
  }

  lemma TaggedIsJson(d: Dict<Value>)
    requires JsonDict(d)
    ensures IsJson(VDict(Tagged(d)))
  {
  }

  /** The normaliser yields JSON. */
  lemma {:induction false} SafeYieldsJson(v: Value)
    requires Clean(v)
    ensures IsJson(Safe(v))
    decreases v, 1
  {
    match v
    case VTuple(items) => forall i | 0 <= i < |items| ensures IsJson(Safe(items[i])) { SafeYieldsJson(items[i]); }
    case VList(items) => forall i | 0 <= i < |items| ensures IsJson(Safe(items[i])) { SafeYieldsJson(items[i]); }
    case VDict(entries) =>
      SafeEntriesYieldJson(v, |entries|);
      TaggedIsJson(SafeEntries(v, |entries|));
    case _ =>
  }

  lemma {:induction false} SafeEntriesYieldJson(v: Value, n: nat)
    requires v.VDict? && n <= |v.entries| && Clean(v)
    ensures JsonDict(SafeEntries(v, n))
    decreases v, 0, n
  {
    if n > 0 {
      SafeEntriesYieldJson(v, n - 1);
      SafeYieldsJson(v.entries[n - 1].1);
      PutKeepsJson(SafeEntries(v, n - 1), v.entries[n - 1].0.text, Safe(v.entries[n - 1].1));
    }
  }

  predicate PlainEntries(entries: seq<(Key, Value)>) {
    && (forall i | 0 <= i < |entries| :: entries[i].0.KText?)
    && (forall i, j | 0 <= i < j < |entries| :: entries[i].0.text != entries[j].0.text)
  }

  /** A key not met before goes last. */
  lemma NextEntry(v: Value, n: nat, before: Dict<Value>)
    requires v.VDict? && n < |v.entries| && PlainEntries(v.entries)
    requires before == SafeEntries(v, n) && |before| == n && forall i | 0 <= i < n :: before[i].0 == v.entries[i].0.text
    ensures SafeEntries(v, n + 1) == before + [(v.entries[n].0.text, Safe(v.entries[n].1))]
  {
    assert !Has(before, v.entries[n].0.text);
    PutFresh(before, v.entries[n].0.text, Safe(v.entries[n].1));
  }

  /** Distinct text keys stay where they are. */
  lemma {:induction false} PlainEntriesMapped(v: Value, n: nat)
    requires v.VDict? && n <= |v.entries| && PlainEntries(v.entries)
    ensures |SafeEntries(v, n)| == n
    ensures forall i | 0 <= i < n :: SafeEntries(v, n)[i] == (v.entries[i].0.text, Safe(v.entries[i].1))
    decreases n
  {
    if n > 0 {
      PlainEntriesMapped(v, n - 1);
      NextEntry(v, n - 1, SafeEntries(v, n - 1));
      MappedOneMore(v.entries, SafeEntries(v, n - 1), SafeEntries(v, n), n);
    }
  }

  lemma MappedOneMore(entries: seq<(Key, Value)>, before: Dict<Value>, after: Dict<Value>, n: nat)
    requires 0 < n <= |entries| && |before| == n - 1 &&
      after == before + [(entries[n - 1].0.text, Safe(entries[n - 1].1))]
    requires forall i | 0 <= i < n - 1 :: before[i] == (entries[i].0.text, Safe(entries[i].1))
    ensures |after| == n && forall i | 0 <= i < n :: after[i] == (entries[i].0.text, Safe(entries[i].1))
  {
  }

  lemma {:induction false} SafeEntriesUnique(v: Value, n: nat)
    requires v.VDict? && n <= |v.entries|
    ensures UniqueKeys(SafeEntries(v, n))
    decreases n
  {
    if n > 0 {
      SafeEntriesUnique(v, n - 1);
      PutKeys(SafeEntries(v, n - 1), v.entries[n - 1].0.text, Safe(v.entries[n - 1].1));
    }
  }

  lemma UniqueAreUniqueTexts(d: Dict<Value>)
    requires UniqueKeys(d)
    ensures PlainEntries(Tagged(d))
  {
  }

  /** The normaliser's fixed points are exactly the JSON values. */
  lemma {:induction false} SafeFixesJson(v: Value)
    ensures Safe(v) == v <==> IsJson(v)
    decreases v
  {
    match v
    case VList(items) =>
      forall i | 0 <= i < |items| ensures Safe(items[i]) == items[i] <==> IsJson(items[i]) { SafeFixesJson(items[i]); }
      if IsJson(v) { assert SafeAll(items) == items; }
    case VDict(entries) =>
      forall i | 0 <= i < |entries|
        ensures Safe(entries[i].1) == entries[i].1 <==> IsJson(entries[i].1)
      {
        SafeFixesJson(entries[i].1);
      }
      DictFixed(v);
    case VArray(t) => assert t < v;
    case _ =>
  }

  lemma DictFixed(v: Value)
    requires v.VDict?
    ensures Safe(v) == v <==>
      PlainEntries(v.entries) && forall i | 0 <= i < |v.entries| :: Safe(v.entries[i].1) == v.entries[i].1
  {
    var n := |v.entries|;
    var d := SafeEntries(v, n);
    if Tagged(d) == v.entries {
      SafeEntriesUnique(v, n);
      UniqueAreUniqueTexts(d);
    }
    if PlainEntries(v.entries) {
      PlainEntriesMapped(v, n);
      forall i | 0 <= i < n ensures Tagged(d)[i] == (KText(v.entries[i].0.text), Safe(v.entries[i].1)) {
        assert d[i] == (v.entries[i].0.text, Safe(v.entries[i].1));
      }
    }
  }

  /** No later entry has the same key text. */
  predicate LastUnderKey(entries: seq<(Key, Value)>, i: nat)
    requires i < |entries|
  {
    forall j | i < j < |entries| :: entries[j].0.text != entries[i].0.text
  }

  /**
   One pass is enough: no array lists anything but JSON, except under a dict key
   whose text a later key repeats.
   */
  predicate Settles(v: Value)
    decreases v
  {
    match v
    case VTuple(items) => forall i | 0 <= i < |items| :: Settles(items[i])
    case VList(items) => forall i | 0 <= i < |items| :: Settles(items[i])
    case VDict(entries) => forall i | 0 <= i < |entries| && LastUnderKey(entries, i) :: Settles(entries[i].1)
    case VArray(t) => IsJson(t)
    case _ => true
  }

  lemma PutEntry(d: Dict<Value>, key: string, value: Value, k: nat)
    requires UniqueKeys(d) && k < |Put(d, key, value)|
    ensures Put(d, key, value)[k] == (key, value) || (k < |d| && Put(d, key, value)[k] == d[k] && d[k].0 != key)
  {
    var m := PutShape(d, key, value);
  }

  lemma PutIsThere(d: Dict<Value>, key: string, value: Value) returns (k: nat)
    ensures k < |Put(d, key, value)| && Put(d, key, value)[k] == (key, value)
  {
    var m := PutShape(d, key, value);
    k := if Has(d, key) then m else |d|;
  }

  lemma PutKeepsOthers(d: Dict<Value>, key: string, value: Value, k: nat)
    requires k < |d| && d[k].0 != key
    ensures k < |Put(d, key, value)| && Put(d, key, value)[k] == d[k]
  {
    var m := PutShape(d, key, value);
  }

  lemma LastSnoc(entries: seq<(Key, Value)>, n: nat, i: nat)
    requires i < n - 1 && n <= |entries|
    ensures LastUnderKey(entries[..n], i) <==>
      LastUnderKey(entries[..n - 1], i) && entries[n - 1].0.text != entries[i].0.text
  {
    var longer, shorter := entries[..n], entries[..n - 1];
    assert longer == shorter + [entries[n - 1]];
    if LastUnderKey(longer, i) { assert longer[n - 1].0.text != longer[i].0.text; }
    if LastUnderKey(longer, i) {
      forall j | i < j < n - 1
        ensures shorter[j].0.text != shorter[i].0.text
      {
        assert longer[j].0.text != longer[i].0.text;
      }
    }
  }

  /** The entries of a normalised dict are the normalised last entries under each key text. */
  lemma {:induction false} EntryComesFromLast(v: Value, n: nat, k: nat) returns (i: nat)
    requires v.VDict? && n <= |v.entries| && k < |SafeEntries(v, n)|
    ensures i < n && SafeEntries(v, n)[k] == (v.entries[i].0.text, Safe(v.entries[i].1))
    ensures LastUnderKey(v.entries[..n], i)
    decreases n
  {
    var before, e := SafeEntries(v, n - 1), v.entries[n - 1];
    SafeEntriesUnique(v, n - 1);
    PutEntry(before, e.0.text, Safe(e.1), k);
    if SafeEntries(v, n)[k] == (e.0.text, Safe(e.1)) {
      i := n - 1;
    } else {
      i := EntryComesFromLast(v, n - 1, k);
      LastSnoc(v.entries, n, i);
    }
  }

  lemma {:induction false} LastIsKept(v: Value, n: nat, i: nat) returns (k: nat)
    requires v.VDict? && n <= |v.entries| && i < n && LastUnderKey(v.entries[..n], i)
    ensures k < |SafeEntries(v, n)| && SafeEntries(v, n)[k] == (v.entries[i].0.text, Safe(v.entries[i].1))
    decreases n
  {
    var before, e := SafeEntries(v, n - 1), v.entries[n - 1];
    if i == n - 1 {
      k := PutIsThere(before, e.0.text, Safe(e.1));
    } else {
      LastSnoc(v.entries, n, i);
      k := LastIsKept(v, n - 1, i);
      PutKeepsOthers(before, e.0.text, Safe(e.1), k);
    }
  }

  /**
   What normalising promises, value by value: `w` stands for `v`.  Scalars stay, tuples
   and lists become lists of what stands for their elements, an array becomes its
   `tolist`, any other object its text.  A dict has one entry for each key text, with
   what stands for the last value under it.
   */
  ghost predicate StandsFor(w: Value, v: Value)
    decreases v
  {
    match v
    case VTuple(items) => w.VList? && ListStands(w.items, v, items)
    case VList(items) => w.VList? && ListStands(w.items, v, items)
    case VDict(entries) =>
      && w.VDict? && PlainEntries(w.entries)
      && (forall i | 0 <= i < |entries| && LastUnderKey(entries, i) :: HasEntryFor(w.entries, v, i))
      && (forall k | 0 <= k < |w.entries| :: exists i :: 0 <= i < |entries| && entries[i].0.text == w.entries[k].0.text)
    case VArray(t) => w == t
    case VOther(text) => w == VStr(text)
    case _ => w == v
  }

  ghost predicate HasEntryFor(w: seq<(Key, Value)>, v: Value, i: nat)
    requires v.VDict? && i < |v.entries|
    decreases v, 0
  {
    exists k :: 0 <= k < |w| && w[k].0.text == v.entries[i].0.text && StandsFor(w[k].1, v.entries[i].1)
  }

  ghost predicate ListStands(w: seq<Value>, v: Value, items: seq<Value>)
    requires (v.VTuple? || v.VList?) && v.items == items
    decreases v, 0
  {
    |w| == |items| && forall i | 0 <= i < |items| :: StandsFor(w[i], items[i])
  }

  /** The normaliser keeps that promise for every value. */
  lemma {:induction false} SafeStandsFor(v: Value)
    ensures StandsFor(Safe(v), v)
    decreases v
  {
    match v
    case VTuple(items) => forall i | 0 <= i < |items| ensures StandsFor(Safe(items[i]),
      items[i]) { SafeStandsFor(items[i]); }
    case VList(items) => forall i | 0 <= i < |items| ensures StandsFor(Safe(items[i]),
      items[i]) { SafeStandsFor(items[i]); }
    case VDict(entries) =>
      forall i | 0 <= i < |entries| ensures StandsFor(Safe(entries[i].1), entries[i].1) { SafeStandsFor(entries[i].1); }
      SafeDictStands(v);
    case _ =>
  }

  lemma SafeDictStands(v: Value)
    requires v.VDict? && forall i | 0 <= i < |v.entries| :: StandsFor(Safe(v.entries[i].1), v.entries[i].1)
    ensures StandsFor(Safe(v), v)
  {
    var n, w := |v.entries|, Safe(v).entries;
    SafeEntriesUnique(v, n);
    UniqueAreUniqueTexts(SafeEntries(v, n));
    forall i | 0 <= i < n && LastUnderKey(v.entries, i) ensures HasEntryFor(w, v, i) { SafeEntryOf(v, i); }
    forall k | 0 <= k < |w| ensures exists i :: 0 <= i < n && v.entries[i].0.text == w[k].0.text {
      var i := SourceOf(v, k);
    }
  }

  lemma SafeEntryOf(v: Value, i: nat)
    requires v.VDict? && i < |v.entries| && LastUnderKey(v.entries, i)
    requires StandsFor(Safe(v.entries[i].1), v.entries[i].1)
    ensures HasEntryFor(Safe(v).entries, v, i)
  {
    assert v.entries[..|v.entries|] == v.entries;
    var k := LastIsKept(v, |v.entries|, i);
    assert Safe(v).entries[k] == (KText(v.entries[i].0.text), Safe(v.entries[i].1));
  }

  lemma SourceOf(v: Value, k: nat) returns (i: nat)
    requires v.VDict? && k < |Safe(v).entries|
    ensures i < |v.entries| && v.entries[i].0.text == Safe(v).entries[k].0.text
  {
    assert v.entries[..|v.entries|] == v.entries;
    i := EntryComesFromLast(v, |v.entries|, k);
  }

  lemma {:induction false} SettledDict(v: Value)
    requires v.VDict?
    requires forall i | 0 <= i < |v.entries| :: IsJson(Safe(v.entries[i].1)) <==> Settles(v.entries[i].1)
    ensures IsJson(Safe(v)) <==> Settles(v)
  {
    var n := |v.entries|;
    var d := SafeEntries(v, n);
    assert v.entries[..n] == v.entries;
    SafeEntriesUnique(v, n);
    if Settles(v) {
      forall k | 0 <= k < |d| ensures IsJson(d[k].1) { var i := EntryComesFromLast(v, n, k); }
      TaggedIsJson(d);
    }
    if IsJson(Safe(v)) {
      forall i | 0 <= i < n && LastUnderKey(v.entries, i) ensures Settles(v.entries[i].1) {
        var k := LastIsKept(v, n, i);
        assert Tagged(d)[k].1 == Safe(v.entries[i].1);
      }
    }
  }

  /** The normaliser reaches JSON exactly on the values that settle. */
  lemma {:induction false} SafeReachesJsonIff(v: Value)
    ensures IsJson(Safe(v)) <==> Settles(v)
    decreases v
  {
    match v
    case VTuple(items) =>
      forall i | 0 <= i < |items|
        ensures IsJson(Safe(items[i])) <==> Settles(items[i])
      {
        SafeReachesJsonIff(items[i]);
      }
      ListReachesJson(items);
    case VList(items) =>
      forall i | 0 <= i < |items|
        ensures IsJson(Safe(items[i])) <==> Settles(items[i])
      {
        SafeReachesJsonIff(items[i]);
      }
      ListReachesJson(items);
    case VDict(entries) =>
      forall i | 0 <= i < |entries| ensures IsJson(Safe(entries[i].1)) <==> Settles(entries[i].1) {
        SafeReachesJsonIff(entries[i].1);
      }
      SettledDict(v);
    case _ =>
  }

  lemma ListReachesJson(items: seq<Value>)
    ensures IsJson(VList(SafeAll(items))) <==> forall i | 0 <= i < |items| :: IsJson(Safe(items[i]))
  {
    var safe := SafeAll(items);
    if IsJson(VList(safe)) {
      forall i | 0 <= i < |items| ensures IsJson(Safe(items[i])) { assert IsJson(safe[i]); }
    }
  }

  /** Exactly on which inputs a second pass changes nothing. */
  lemma {:induction false} SafeIsIdempotentIff(v: Value)
    ensures Safe(Safe(v)) == Safe(v) <==> Settles(v)
  {
    SafeFixesJson(Safe(v));
    SafeReachesJsonIff(v);
  }

  /** An array whose tolist is a tuple: the first pass hands the tuple out, the second turns it into a list. */
  lemma {:induction false} UnsettledExample() returns (v: Value)
    ensures Safe(Safe(v)) != Safe(v)
  {
    v := VArray(VTuple([]));
    assert Safe(v) == VTuple([]) && Safe(VTuple([])) == VList(SafeAll([]));
  }

  /** It is enough that every array lists JSON. */
  lemma {:induction false} CleanSettles(v: Value)
    requires Clean(v)
    ensures Settles(v)
  {
    SafeYieldsJson(v);
    SafeReachesJsonIff(v);
  }
}
