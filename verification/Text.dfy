/** Texts: their lexicographic order, and cutting them at separators. */
module Text {

  predicate Below(a: string, b: string) {
    b != "" && (a == "" || a[0] < b[0] || (a[0] == b[0] && Below(a[1..], b[1..])))
  }

  lemma {:induction false} BelowIrreflexive(a: string)
    ensures !Below(a, a)
  {
    if a != "" { BelowIrreflexive(a[1..]); }
  }

  lemma {:induction false} BelowTotal(a: string, b: string)
    requires a != b
    ensures Below(a, b) || Below(b, a)
  {
    if a != "" && b != "" && a[0] == b[0] {
      assert a == [a[0]] + a[1..] && b == [b[0]] + b[1..];
      BelowTotal(a[1..], b[1..]);
    }
  }

  lemma {:induction false} BelowTransitive(a: string, b: string, c: string)
    requires Below(a, b) && Below(b, c)
    ensures Below(a, c)
  {
    if a != "" && a[0] == b[0] && b[0] == c[0] { BelowTransitive(a[1..], b[1..], c[1..]); }
  }

  lemma BelowAsymmetric(a: string, b: string)
    requires Below(a, b)
    ensures !Below(b, a)
  {
    if Below(b, a) {
      BelowTransitive(a, b, a);
      BelowIrreflexive(a);
    }
  }

  lemma SameFirst(a: string, b: string, k: nat)
    requires 0 < k <= |a| && k <= |b| && a[..k] == b[..k]
    ensures a[0] == b[0]
  {
    assert a[..k][0] == a[0] && b[..k][0] == b[0];
  }

  /** Lower is the text that ends first, or has the lower character, where the two part. */
  lemma {:induction false} BelowMeans(a: string, b: string)
    ensures Below(a, b) <==> exists k: nat ::
      k <= |a| && k < |b| && a[..k] == b[..k] && (k == |a| || a[k] < b[k])
  {
    if a != "" && b != "" && a[0] == b[0] {
      var a', b' := a[1..], b[1..];
      BelowMeans(a', b');
      if Below(a, b) {
        var k: nat :| k <= |a'| && k < |b'| && a'[..k] == b'[..k] && (k == |a'| || a'[k] < b'[k]);
        assert a[..k + 1] == [a[0]] + a'[..k] == b[..k + 1];
      }
      if k: nat :| k <= |a| && k < |b| && a[..k] == b[..k] && (k == |a| || a[k] < b[k]) {
        if k > 0 {
          assert a'[..k - 1] == a[..k][1..] == b[..k][1..] == b'[..k - 1];
        }
      }
    } else if Below(a, b) {
      assert a[..0] == b[..0];
    } else if k: nat :| 0 < k <= |a| && k < |b| && a[..k] == b[..k] && (k == |a| || a[k] < b[k]) {
      SameFirst(a, b, k);
    }
  }

  /** A text drawn from an alphabet. */
  ghost predicate Over(s: string, alphabet: set<char>) {
    forall i | 0 <= i < |s| :: s[i] in alphabet
  }

  /** A text cut at its first separator has one first part. */
  lemma FirstPartUnique(sep: char, a: string, b: string, x: string, y: string)
    requires sep !in a && sep !in b
    requires a + [sep] + x == b + [sep] + y
    ensures a == b && x == y
  {
    var s, t := a + [sep] + x, b + [sep] + y;
    assert (forall i | 0 <= i < |a| :: s[i] == a[i]) && s[|a|] == sep;
    assert (forall i | 0 <= i < |b| :: t[i] == b[i]) && t[|b|] == sep;
    assert |a| == |b|;
    assert a == s[..|a|] == t[..|b|] == b;
    assert x == s[|a| + 1..] == t[|b| + 1..] == y;
  }

  /** A text cut at its last separator has one last part. */
  lemma LastPartUnique(sep: char, x: string, y: string, a: string, b: string)
    requires sep !in a && sep !in b
    requires x + [sep] + a == y + [sep] + b
    ensures x == y && a == b
  {
    var s, t := x + [sep] + a, y + [sep] + b;
    assert s[|x|] == sep && forall i | |x| < i < |s| :: s[i] == a[i - |x| - 1] != sep;
    assert t[|y|] == sep && forall i | |y| < i < |t| :: t[i] == b[i - |y| - 1] != sep;
    assert |x| == |y|;
    assert x == s[..|x|] == t[..|y|] == y;
    assert a == s[|x| + 1..] == t[|y| + 1..] == b;
  }

  /** `s.split(sep)`: the parts between separators. */
  function Cut(s: string, sep: char): (parts: seq<string>)
    ensures |parts| >= 1 && forall i | 0 <= i < |parts| :: sep !in parts[i]
  {
    if s == "" then [""]
    else
      var rest := Cut(s[1..], sep);
      if s[0] == sep then [""] + rest else [[s[0]] + rest[0]] + rest[1..]
  }

  lemma {:induction false} CutPlain(a: string, sep: char)
    requires sep !in a
    ensures Cut(a, sep) == [a]
    decreases |a|
  {
    if a != "" {
      CutPlain(a[1..], sep);
      assert [a[0]] + a[1..] == a;
    }
  }

  lemma {:induction false} CutFirst(a: string, sep: char, x: string)
    requires sep !in a
    ensures Cut(a + [sep] + x, sep) == [a] + Cut(x, sep)
    decreases |a|
  {
    var s := a + [sep] + x;
    if a == "" {
      assert s[1..] == x;
    } else {
      assert s[1..] == a[1..] + [sep] + x;
      CutFirst(a[1..], sep, x);
      assert [a[0]] + a[1..] == a;
      assert ([a[1..]] + Cut(x, sep))[1..] == Cut(x, sep);
    }
  }
}
