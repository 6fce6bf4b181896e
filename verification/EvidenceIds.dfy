/** Evidence row ids, made from tick, job and rank: when they tell rows apart. */
module EvidenceIds {
  import opened Text
  import opened EvidenceStore

  // The decimal text of an integer.

  function Digit(d: nat): char
    requires d < 10
  {
    '0' + d as char
  }

  predicate IsDigit(c: char) { '0' <= c <= '9' }

  function DigitValue(c: char): nat
    requires IsDigit(c)
  {
    c as int - '0' as int
  }

  function Digits(n: nat): (s: string)
    ensures s != "" && forall i | 0 <= i < |s| :: IsDigit(s[i])
  {
    if n < 10 then [Digit(n)] else Digits(n / 10) + [Digit(n % 10)]
  }

  /** The number that a text of digits spells. */
  function Number(s: string): nat
    requires forall i | 0 <= i < |s| :: IsDigit(s[i])
  {
    if s == "" then 0 else 10 * Number(s[..|s| - 1]) + DigitValue(s[|s| - 1])
  }

  lemma {:induction false} DigitsSpell(n: nat)
    ensures Number(Digits(n)) == n
    decreases n
  {
    var s := Digits(n);
    if n < 10 {
      assert s[..0] == "";
    } else {
      DigitsSpell(n / 10);
      assert s[..|s| - 1] == Digits(n / 10);
    }
  }

  /** `str(n)` */
  function Decimal(n: int): string {
    if n < 0 then "-" + Digits(-n) else Digits(n)
  }

  lemma DecimalInjective(m: int, n: int)
    requires Decimal(m) == Decimal(n)
    ensures m == n
  {
    var a, b := Decimal(m), Decimal(n);
    assert (a[0] == '-') == (m < 0) && (b[0] == '-') == (n < 0);
    if m < 0 {
      assert a[1..] == Digits(-m) && b[1..] == Digits(-n);
      DigitsSpell(-m);
      DigitsSpell(-n);
    } else {
      DigitsSpell(m);
      DigitsSpell(n);
    }
  }

  lemma DecimalIsPlain(n: int)
    ensures '_' !in Decimal(n)
  {
  }

  // Row ids.

  /** `f"{tick}_{job_id}_{rank_id}"` */
  function FormatRowId(tick: int, jobId: string, rankId: string): string {
    Decimal(tick) + ['_'] + (jobId + ['_'] + rankId)
  }

  ghost predicate IdsDistinct(jobs: set<char>, ranks: set<char>) {
    forall t, j, r, t', j', r' |
      && Over(j, jobs) && Over(j', jobs) && Over(r, ranks) && Over(r', ranks)
      && FormatRowId(t, j, r) == FormatRowId(t', j', r') ::
      t == t' && j == j' && r == r'
  }

  /** A separator in job ids only, or in rank ids only, does no harm. */
  lemma FormatInjective(t: int, j: string, r: string, t': int, j': string, r': string)
    requires ('_' !in j && '_' !in j') || ('_' !in r && '_' !in r')
    requires FormatRowId(t, j, r) == FormatRowId(t', j', r')
    ensures t == t' && j == j' && r == r'
  {
    DecimalIsPlain(t);
    DecimalIsPlain(t');
    FirstPartUnique('_', Decimal(t), Decimal(t'), j + ['_'] + r, j' + ['_'] + r');
    DecimalInjective(t, t');
    if '_' !in j && '_' !in j' {
      FirstPartUnique('_', j, j', r, r');
    } else {
      LastPartUnique('_', j, j', r, r');
    }
  }

  lemma CollidingIds()
    ensures FormatRowId(0, "_", "") == FormatRowId(0, "", "_")
  {
    assert "_" + ['_'] + "" == "" + ['_'] + "_";
  }

  /**
   Row ids determine tick, job and rank if and only if the separator cannot occur
   in job ids or cannot occur in rank ids.
   */
  lemma {:induction false} RowIdsDistinctIff(jobs: set<char>, ranks: set<char>)
    ensures IdsDistinct(jobs, ranks) <==> '_' !in jobs || '_' !in ranks
  {
    if '_' in jobs && '_' in ranks {
      CollidingIds();
      assert Over("_", jobs) && Over("", jobs) && Over("_", ranks) && Over("", ranks);
      assert "_" != "";
    } else {
      forall t, j, r, t', j', r' |
        && Over(j, jobs) && Over(j', jobs) && Over(r, ranks) && Over(r', ranks)
        && FormatRowId(t, j, r) == FormatRowId(t', j', r')
        ensures t == t' && j == j' && r == r'
      {
        FormatInjective(t, j, r, t', j', r');
      }
    }
  }

  // What it means for the table.

  predicate Derived(row: Row) {
    row.rowId == FormatRowId(row.tick, row.jobId, row.rankId)
  }

  ghost predicate AllDerived(t: Table) {
    forall id | id in t :: Derived(t[id])
  }

  /** Every table built by puts of rows with derived ids has at most one row for a (tick, job, rank). */
  lemma {:induction false} DerivedIdsKeepKeyed(t: Table, rows: seq<Row>, user: string)
    requires AllDerived(t) && forall i | 0 <= i < |rows| :: Derived(rows[i])
    ensures AllDerived(MergeAll(t, rows)) && Keyed(MergeAll(t, rows), user)
    decreases |rows|
  {
    if rows != [] { DerivedIdsKeepKeyed(t, rows[..|rows| - 1], user); }
  }

  ghost predicate RowOver(row: Row, jobs: set<char>, ranks: set<char>) {
    Derived(row) && Over(row.jobId, jobs) && Over(row.rankId, ranks)
  }

  /** No put of a row with a derived id takes away a row of another (tick, job, rank). */
  ghost predicate PutsKeepOtherKeys(jobs: set<char>, ranks: set<char>) {
    forall t: Table, row: Row, id | id in t && RowOver(t[id], jobs, ranks) && RowOver(row, jobs, ranks) &&
      !SameKey(t[id], row) ::
      id in Merge(t, row) && Merge(t, row)[id] == t[id]
  }

  function RowFor(user: string, jobId: string, rankId: string): Row {
    Row(FormatRowId(0, jobId, rankId), user, 0, jobId, rankId, [])
  }

  /** Exactly when puts keep the rows of other keys. */
  lemma {:induction false} PutsKeepOtherKeysIff(jobs: set<char>, ranks: set<char>)
    ensures PutsKeepOtherKeys(jobs, ranks) <==> '_' !in jobs || '_' !in ranks
  {
    if '_' in jobs && '_' in ranks {
      CollidingIds();
      var a, b := RowFor("u", "_", ""), RowFor("u", "", "_");
      var t: Table := map[a.rowId := a];
      assert RowOver(a, jobs, ranks) && RowOver(b, jobs, ranks) && !SameKey(a, b);
      assert Merge(t, b)[a.rowId] == b != a;
    } else {
      forall t: Table, row: Row, id |
        id in t && RowOver(t[id], jobs, ranks) && RowOver(row, jobs, ranks) && !SameKey(t[id], row)
        ensures id in Merge(t, row) && Merge(t, row)[id] == t[id]
      {
        if id == row.rowId {
          FormatInjective(t[id].tick, t[id].jobId, t[id].rankId, row.tick, row.jobId, row.rankId);
        }
      }
    }
  }

  /**
   The id does not name the user: one user's put takes away the row that another has for
   the same (tick, job, rank).
   */
  lemma {:induction false} AnotherUsersRowIsLost(t: Table, row: Row, other: Row)
    requires AllDerived(t) && Derived(row)
    requires other in UserRows(t, other.userId) && other.userId != row.userId && SameKey(other, row)
    ensures UserRows(Merge(t, row), other.userId) == UserRows(t, other.userId) - {other}
  {
    assert other.rowId == row.rowId;
    var after := Merge(t, row);
    forall r | r in UserRows(t, other.userId) && r != other ensures r in UserRows(after, other.userId) {
      assert r.rowId != row.rowId && after[r.rowId] == r;
    }
  }
}
