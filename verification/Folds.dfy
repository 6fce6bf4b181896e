/** Flattening and summing sequences, and why their order does not matter. */
module Folds {

  /** `for a in s: yield from f(a)`. */
  function Collect<A, B>(s: seq<A>, f: A -> seq<B>): seq<B> {
    if s == [] then [] else Collect(s[..|s| - 1], f) + f(s[|s| - 1])
  }

  function Sum<A>(s: seq<A>, weight: A -> int): int {
    if s == [] then 0 else Sum(s[..|s| - 1], weight) + weight(s[|s| - 1])
  }

  lemma {:induction false} CollectConcat<A, B>(a: seq<A>, b: seq<A>, f: A -> seq<B>)
    ensures Collect(a + b, f) == Collect(a, f) + Collect(b, f)
    decreases |b|
  {
    if b == [] {
      assert a + b == a;
    } else {
      var n := |b| - 1;
      assert (a + b)[..|a| + n] == a + b[..n];
      CollectConcat(a, b[..n], f);
    }
  }

  lemma CollectOne<A, B>(x: A, f: A -> seq<B>)
    ensures Collect([x], f) == f(x)
  {
    assert [x][..0] == [];
    assert Collect([x], f) == [] + f(x);
  }

  lemma {:induction false} SumConcat<A>(a: seq<A>, b: seq<A>, weight: A -> int)
    ensures Sum(a + b, weight) == Sum(a, weight) + Sum(b, weight)
    decreases |b|
  {
    if b == [] {
      assert a + b == a;
    } else {
      var n := |b| - 1;
      assert (a + b)[..|a| + n] == a + b[..n];
      SumConcat(a, b[..n], weight);
    }
  }

  lemma SumOne<A>(x: A, weight: A -> int)
    ensures Sum([x], weight) == weight(x)
  {
    assert [x][..0] == [];
  }

  function Without<A>(s: seq<A>, i: nat): seq<A>
    requires i < |s|
  {
    s[..i] + s[i + 1..]
  }

  lemma SplitAt<A>(s: seq<A>, i: nat)
    requires i < |s|
    ensures s == s[..i] + [s[i]] + s[i + 1..]
    ensures multiset(Without(s, i)) == multiset(s) - multiset{s[i]}
  {
  }

  lemma CollectAround<A, B>(s: seq<A>, i: nat, f: A -> seq<B>)
    requires i < |s|
    ensures Collect(s, f) == Collect(s[..i], f) + f(s[i]) + Collect(s[i + 1..], f)
  {
    SplitAt(s, i);
    CollectConcat(s[..i] + [s[i]], s[i + 1..], f);
    CollectConcat(s[..i], [s[i]], f);
    CollectOne(s[i], f);
  }

  lemma CollectWithout<A, B>(s: seq<A>, i: nat, f: A -> seq<B>)
    requires i < |s|
    ensures multiset(Collect(s, f)) == multiset(Collect(Without(s, i), f)) + multiset(f(s[i]))
  {
    CollectAround(s, i, f);
    CollectConcat(s[..i], s[i + 1..], f);
  }

  lemma SumWithout<A>(s: seq<A>, i: nat, weight: A -> int)
    requires i < |s|
    ensures Sum(s, weight) == Sum(Without(s, i), weight) + weight(s[i])
  {
    SplitAt(s, i);
    SumConcat(s[..i] + [s[i]], s[i + 1..], weight);
    SumConcat(s[..i], [s[i]], weight);
    SumOne(s[i], weight);
    SumConcat(s[..i], s[i + 1..], weight);
  }

  lemma EmptyMultiset<A>(s: seq<A>)
    requires multiset(s) == multiset{}
    ensures s == []
  {
    assert |s| == |multiset(s)|;
  }

  /** Rearranging the input rearranges the output. */
  lemma {:induction false} CollectRearranged<A, B>(s: seq<A>, t: seq<A>, f: A -> seq<B>)
    requires multiset(s) == multiset(t)
    ensures multiset(Collect(s, f)) == multiset(Collect(t, f))
    decreases |s|
  {
    if s == [] {
      EmptyMultiset(t);
    } else {
      assert s[0] in multiset(t);
      var i :| 0 <= i < |t| && t[i] == s[0];
      SplitAt(s, 0);
      SplitAt(t, i);
      CollectWithout(s, 0, f);
      CollectWithout(t, i, f);
      CollectRearranged(Without(s, 0), Without(t, i), f);
    }
  }

  lemma {:induction false} SumRearranged<A>(s: seq<A>, t: seq<A>, weight: A -> int)
    requires multiset(s) == multiset(t)
    ensures Sum(s, weight) == Sum(t, weight)
    decreases |s|
  {
    if s == [] {
      EmptyMultiset(t);
    } else {
      assert s[0] in multiset(t);
      var i :| 0 <= i < |t| && t[i] == s[0];
      SplitAt(s, 0);
      SplitAt(t, i);
      SumWithout(s, 0, weight);
      SumWithout(t, i, weight);
      SumRearranged(Without(s, 0), Without(t, i), weight);
    }
  }

  /** Summing a flattened sequence sums the parts. */
  lemma {:induction false} SumCollect<A, B>(s: seq<A>, f: A -> seq<B>, weight: B -> int, part: A -> int)
    requires forall i | 0 <= i < |s| :: Sum(f(s[i]), weight) == part(s[i])
    ensures Sum(Collect(s, f), weight) == Sum(s, part)
    decreases |s|
  {
    if s != [] {
      var n := |s| - 1;
      SumCollect(s[..n], f, weight, part);
      SumConcat(Collect(s[..n], f), f(s[n]), weight);
    }
  }

  lemma {:induction false} CollectMembers<A, B>(s: seq<A>, f: A -> seq<B>, y: B)
    ensures y in Collect(s, f) <==> exists i :: 0 <= i < |s| && y in f(s[i])
    decreases |s|
  {
    if s != [] {
      var n := |s| - 1;
      CollectMembers(s[..n], f, y);
      if i :| 0 <= i < |s| && y in f(s[i]) { assert i < n ==> s[..n][i] == s[i]; }
      if i :| 0 <= i < |s[..n]| && y in f(s[..n][i]) { assert s[i] == s[..n][i]; }
    }
  }

  lemma {:induction false} SumPointwise<A, B>(a: seq<A>, f: A -> int, b: seq<B>, g: B -> int)
    requires |a| == |b| && forall i | 0 <= i < |a| :: f(a[i]) == g(b[i])
    ensures Sum(a, f) == Sum(b, g)
    decreases |a|
  {
    if a != [] { SumPointwise(a[..|a| - 1], f, b[..|b| - 1], g); }
  }

  ghost predicate Distinct<A>(s: seq<A>) {
    forall i, j | 0 <= i < j < |s| :: s[i] != s[j]
  }

  lemma DistinctConcat<A>(a: seq<A>, b: seq<A>)
    requires Distinct(a) && Distinct(b) && forall x | x in a :: x !in b
    ensures Distinct(a + b)
  {
    var c := a + b;
    forall i, j | 0 <= i < j < |c| ensures c[i] != c[j] {
      if i < |a| <= j { assert c[i] in a && c[j] in b; }
    }
  }

  /** Flattening parts that are distinct and have nothing in common repeats nothing. */
  lemma {:induction false} CollectDistinct<A, B(!new)>(s: seq<A>, f: A -> seq<B>)
    requires forall i | 0 <= i < |s| :: Distinct(f(s[i]))
    requires forall i, j, y | 0 <= i < j < |s| && y in f(s[i]) :: y !in f(s[j])
    ensures Distinct(Collect(s, f))
    decreases |s|
  {
    if s != [] {
      var n := |s| - 1;
      var shorter := s[..n];
      assert forall i | 0 <= i < n :: shorter[i] == s[i];
      CollectDistinct(shorter, f);
      forall y | y in Collect(shorter, f) ensures y !in f(s[n]) {
        CollectMembers(shorter, f, y);
        var i :| 0 <= i < n && y in f(shorter[i]);
      }
      DistinctConcat(Collect(shorter, f), f(s[n]));
    }
  }
}
