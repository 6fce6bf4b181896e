/**
 The meaning of `ORDER BY` over rows whose sort keys are distinct: the members
 of a set listed by a strict total order.  The listing is unique, so two queries
 are compared by comparing the row sets they select.
 */
module Ordering {

  ghost predicate TotalOn<T>(lt: (T, T) -> bool, s: set<T>) {
    && (forall x | x in s :: !lt(x, x))
    && (forall x, y | x in s && y in s && x != y :: lt(x, y) || lt(y, x))
    && (forall x, y, z | x in s && y in s && z in s && lt(x, y) && lt(y, z) :: lt(x, z))
  }

  /** `r` lists exactly the members of `s`, each once, in increasing order. */
  ghost predicate Lists<T>(lt: (T, T) -> bool, s: set<T>, r: seq<T>) {
    && (forall x | x in s :: x in r) && (forall x | x in r :: x in s)
    && (forall i, j | 0 <= i < j < |r| :: lt(r[i], r[j]))
  }

  lemma LeastExists<T>(lt: (T, T) -> bool, s: set<T>)
    requires s != {} && TotalOn(lt, s)
    ensures exists m :: m in s && forall x | x in s && x != m :: lt(m, x)
  {
    var y :| y in s;
    var rest := s - {y};
    if rest == {} {
      assert s == {y};
    } else {
      LeastExists(lt, rest);
      var m :| m in rest && forall x | x in rest && x != m :: lt(m, x);
      if lt(y, m) {
        forall x | x in s && x != y ensures lt(y, x) {
          assert x == m || lt(m, x);
        }
      } else {
        forall x | x in s && x != m ensures lt(m, x) {
          assert x == y || x in rest;
        }
      }
    }
  }

  function Least<T(==)>(lt: (T, T) -> bool, s: set<T>): (m: T)
    requires s != {} && TotalOn(lt, s)
    ensures m in s && forall x | x in s && x != m :: lt(m, x)
  {
    LeastExists(lt, s);
    var m :| m in s && forall x | x in s && x != m :: lt(m, x);
    m
  }

  function InOrder<T(==)>(lt: (T, T) -> bool, s: set<T>): (r: seq<T>)
    requires TotalOn(lt, s)
    ensures Lists(lt, s, r)
    decreases |s|
  {
    if s == {} then []
    else
      var m := Least(lt, s);
      [m] + InOrder(lt, s - {m})
  }

  /** A set has one increasing listing. */
  lemma {:induction false} ListingUnique<T>(lt: (T, T) -> bool, s: set<T>, a: seq<T>, b: seq<T>)
    requires TotalOn(lt, s) && Lists(lt, s, a) && Lists(lt, s, b)
    ensures a == b
    decreases |a|
  {
    if a == [] {
      if b != [] { ListsHead(lt, s, b); }
    } else {
      var m := a[0];
      assert m in s && m in b;
      assert b[0] in s && b[0] in a;
      assert m == b[0];
      var rest := s - {m};
      ListsTail(lt, s, a);
      ListsTail(lt, s, b);
      ListingUnique(lt, rest, a[1..], b[1..]);
    }
  }

  lemma ListsHead<T>(lt: (T, T) -> bool, s: set<T>, r: seq<T>)
    requires Lists(lt, s, r) && r != []
    ensures r[0] in s
  {
    assert r[0] in r;
  }

  lemma ListsTail<T>(lt: (T, T) -> bool, s: set<T>, r: seq<T>)
    requires TotalOn(lt, s) && Lists(lt, s, r) && r != []
    ensures Lists(lt, s - {r[0]}, r[1..])
  {
    forall x | x in s - {r[0]}
      ensures x in r[1..]
    {
      var i :| 0 <= i < |r| && r[i] == x;
      assert r[1..][i - 1] == x;
    }
    forall x | x in r[1..]
      ensures x in s - {r[0]}
    {
      var i :| 0 <= i < |r[1..]| && r[1..][i] == x;
      assert lt(r[0], r[i + 1]);
    }
  }

  lemma TotalOnSubset<T>(lt: (T, T) -> bool, s: set<T>, sub: set<T>)
    requires TotalOn(lt, s) && sub <= s
    ensures TotalOn(lt, sub)
  {
  }

  function AboveIn<T>(lt: (T, T) -> bool, s: set<T>, e: T): set<T> {
    set x | x in s && lt(e, x)
  }

  /** The members above the k-th one, listed in order, are the rest of the list. */
  lemma InOrderAbove<T>(lt: (T, T) -> bool, s: set<T>, k: nat)
    requires TotalOn(lt, s) && k < |InOrder(lt, s)|
    ensures
      var above := AboveIn(lt, s, InOrder(lt, s)[k]);
      TotalOn(lt, above) && InOrder(lt, above) == InOrder(lt, s)[k + 1..]
  {
    var r := InOrder(lt, s);
    var above := AboveIn(lt, s, r[k]);
    TotalOnSubset(lt, s, above);
    forall x | x in above
      ensures x in r[k + 1..]
    {
      var i :| 0 <= i < |r| && r[i] == x;
      assert i >= k;
      assert r[k + 1..][i - k - 1] == x;
    }
    forall x | x in r[k + 1..]
      ensures x in above
    {
      var i :| 0 <= i < |r[k + 1..]| && r[k + 1..][i] == x;
      assert lt(r[k], r[k + 1 + i]);
    }
    ListingUnique(lt, above, InOrder(lt, above), r[k + 1..]);
  }

  /** A listing has as many places as the set has members. */
  lemma {:induction false} InOrderLength<T>(lt: (T, T) -> bool, s: set<T>)
    requires TotalOn(lt, s)
    ensures |InOrder(lt, s)| == |s|
    decreases |s|
  {
    if s != {} { InOrderLength(lt, s - {Least(lt, s)}); }
  }

  lemma SuffixesDiffer<T>(a: seq<T>, b: seq<T>, c: seq<T>, x: T)
    requires x in b && x !in c
    ensures a + b != a + c
  {
    assert (a + b)[|a|..] == b;
    assert (a + c)[|a|..] == c;
  }

  /** Behind a common prefix, two listings agree exactly when they list the same set. */
  lemma ListingsAgreeIff<T>(lt: (T, T) -> bool, prefix: seq<T>, a: set<T>, b: set<T>)
    requires TotalOn(lt, a) && TotalOn(lt, b)
    ensures prefix + InOrder(lt, a) == prefix + InOrder(lt, b) <==> a == b
  {
    if x :| x in a && x !in b {
      SuffixesDiffer(prefix, InOrder(lt, a), InOrder(lt, b), x);
    } else if x :| x in b && x !in a {
      SuffixesDiffer(prefix, InOrder(lt, b), InOrder(lt, a), x);
    } else {
      assert a == b;
    }
  }

  function Reversed<T>(s: seq<T>): (r: seq<T>)
    ensures |r| == |s| && forall i | 0 <= i < |s| :: r[i] == s[|s| - 1 - i]
  {
    if s == [] then [] else Reversed(s[1..]) + [s[0]]
  }

  /** `LIMIT n` keeps the first n rows. */
  function Take<T>(s: seq<T>, n: nat): (r: seq<T>)
    ensures r == if n <= |s| then s[..n] else s
  {
    if n <= |s| then s[..n] else s
  }

  /** The last n entries, Python's `s[-n:]` for n >= 1. */
  function LastN<T>(s: seq<T>, n: nat): (r: seq<T>)
    ensures r == if n <= |s| then s[|s| - n..] else s
  {
    if n <= |s| then s[|s| - n..] else s
  }

  lemma ReversedTake<T>(s: seq<T>, n: nat)
    ensures Reversed(Take(Reversed(s), n)) == LastN(s, n)
  {
  }

  // Sort keys with ties.

  /** What `ORDER BY` may return: every member once, none before one that sorts earlier, ties in any order. */
  ghost predicate Sorts<T>(lt: (T, T) -> bool, s: set<T>, r: seq<T>) {
    && (forall x | x in s :: x in r) && (forall x | x in r :: x in s)
    && (forall i, j | 0 <= i < j < |r| :: r[i] != r[j] && !lt(r[j], r[i]))
  }

  /** `lt` orders `s` up to ties, which are the pairs that are the `same`. */
  ghost predicate WeakOn<T>(lt: (T, T) -> bool, same: (T, T) -> bool, s: set<T>) {
    && (forall x | x in s :: !lt(x, x))
    && (forall x, y | x in s && y in s :: lt(x, y) || lt(y, x) || same(x, y))
    && (forall x, y, z | x in s && y in s && z in s && (lt(x, y) || same(x, y)) && (lt(y, z) || same(y, z)) ::
          if same(x, y) && same(y, z) then same(x, z) else lt(x, z))
  }

  /** The order that breaks the ties of `lt` by another one. */
  function ThenBy<T>(lt: (T, T) -> bool, same: (T, T) -> bool, tie: (T, T) -> bool): (T, T) -> bool {
    (x: T, y: T) => lt(x, y) || (same(x, y) && tie(x, y))
  }

  lemma ThenByIsTotal<T>(lt: (T, T) -> bool, same: (T, T) -> bool, tie: (T, T) -> bool, s: set<T>)
    requires WeakOn(lt, same, s) && TotalOn(tie, s)
    requires forall x, y | x in s && y in s && same(x, y) :: same(y, x) && !lt(x, y)
    ensures TotalOn(ThenBy(lt, same, tie), s)
  {
    var lex := ThenBy(lt, same, tie);
    forall x, y, z | x in s && y in s && z in s && lex(x, y) && lex(y, z) ensures lex(x, z) {
      assert lt(x, y) || same(x, y);
      assert lt(y, z) || same(y, z);
    }
  }

  /** A listing with ties broken is one that the query may return. */
  lemma BrokenTiesSort<T>(lt: (T, T) -> bool, same: (T, T) -> bool, tie: (T, T) -> bool, s: set<T>)
    requires TotalOn(ThenBy(lt, same, tie), s)
    ensures Sorts(lt, s, InOrder(ThenBy(lt, same, tie), s))
  {
    var lex := ThenBy(lt, same, tie);
    var r := InOrder(lex, s);
    forall i, j | 0 <= i < j < |r| ensures r[i] != r[j] && !lt(r[j], r[i]) {
      assert r[i] in r && r[j] in r;
      OneWay(lex, s, r[i], r[j]);
    }
  }

  lemma OneWay<T>(lt: (T, T) -> bool, s: set<T>, x: T, y: T)
    requires TotalOn(lt, s) && x in s && y in s && lt(x, y)
    ensures x != y && !lt(y, x)
  {
  }

  lemma PlacedBefore<T>(lt: (T, T) -> bool, s: set<T>, r: seq<T>, i: nat, j: nat)
    requires TotalOn(lt, s) && Lists(lt, s, r) && i < |r| && j < |r| && lt(r[i], r[j])
    ensures i < j
  {
    assert r[i] in r && r[j] in r;
    OneWay(lt, s, r[i], r[j]);
  }

  /** Two listings that place two members the other way round differ. */
  lemma PlacedApart<T>(a: seq<T>, b: seq<T>, i: nat, j: nat, k: nat, m: nat)
    requires forall x, y | 0 <= x < y < |a| :: a[x] != a[y]
    requires i < j < |a| && k < m < |b| && a[i] == b[m] && a[j] == b[k]
    ensures a != b
  {
  }

  /** Without ties there is just one such listing. */
  lemma SortedOnce<T>(lt: (T, T) -> bool, s: set<T>, r: seq<T>)
    requires TotalOn(lt, s) && Sorts(lt, s, r)
    ensures r == InOrder(lt, s)
  {
    forall i, j | 0 <= i < j < |r| ensures lt(r[i], r[j]) { assert r[i] in r && r[j] in r; }
    ListingUnique(lt, s, r, InOrder(lt, s));
  }

  /** Sorting by the flipped order is sorting backwards. */
  lemma SortsBackwards<T(!new)>(lt: (T, T) -> bool, gt: (T, T) -> bool, s: set<T>, r: seq<T>)
    requires forall x, y :: gt(x, y) <==> lt(y, x)
    requires Sorts(gt, s, r)
    ensures Sorts(lt, s, Reversed(r))
  {
    var b := Reversed(r);
    forall x | x in r ensures x in b {
      var i :| 0 <= i < |r| && r[i] == x;
      assert b[|r| - 1 - i] == x;
    }
  }

  lemma {:induction false} DistinctLength<T>(s: set<T>, r: seq<T>)
    requires (forall x | x in s :: x in r) && (forall x | x in r :: x in s)
    requires forall i, j | 0 <= i < j < |r| :: r[i] != r[j]
    ensures |r| == |s|
    decreases |r|
  {
    if r == [] {
      assert s == {};
    } else {
      var n := |r| - 1;
      assert r == r[..n] + [r[n]];
      DistinctLength(s - {r[n]}, r[..n]);
    }
  }

  lemma OppositeOrdersDiffer<T>(lo: (T, T) -> bool, hi: (T, T) -> bool, s: set<T>, a: T, b: T)
    requires TotalOn(lo, s) && TotalOn(hi, s) && a in s && b in s && lo(a, b) && hi(b, a)
    ensures InOrder(lo, s) != InOrder(hi, s)
  {
    var up, down := InOrder(lo, s), InOrder(hi, s);
    var i :| 0 <= i < |up| && up[i] == a;
    var j :| 0 <= j < |up| && up[j] == b;
    var k :| 0 <= k < |down| && down[k] == b;
    var m :| 0 <= m < |down| && down[m] == a;
    PlacedBefore(lo, s, up, i, j);
    PlacedBefore(hi, s, down, k, m);
    ListsDistinct(lo, s, up);
    PlacedApart(up, down, i, j, k, m);
  }

  lemma ListsDistinct<T>(lt: (T, T) -> bool, s: set<T>, r: seq<T>)
    requires TotalOn(lt, s) && Lists(lt, s, r)
    ensures forall i, j | 0 <= i < j < |r| :: r[i] != r[j]
  {
    forall i, j | 0 <= i < j < |r| ensures r[i] != r[j] {
      assert r[i] in r && r[j] in r;
      OneWay(lt, s, r[i], r[j]);
    }
  }

  lemma SameMembers<T>(lt: (T, T) -> bool, a: set<T>, b: set<T>, r: seq<T>)
    requires Sorts(lt, a, r) && Sorts(lt, b, r)
    ensures a == b
  {
  }
}
