/** Bytes cut into lines: at line feeds by the indexer, at any line break by the readers. */
module Lines {

  newtype byte = x: int | 0 <= x < 256

  type Bytes = seq<byte>

  const LF: byte := 10
  const CR: byte := 13

  predicate IsBreak(b: byte) { b == LF || b == CR }

  /** Where the next line break starts at or after `p`, or the length. */
  function BreakAt(s: Bytes, p: nat): (i: nat)
    requires p <= |s|
    ensures p <= i <= |s|
    ensures forall k | p <= k < i :: !IsBreak(s[k])
    ensures i < |s| ==> IsBreak(s[i])
    decreases |s| - p
  {
    if p == |s| || IsBreak(s[p]) then p else BreakAt(s, p + 1)
  }

  /** Where the line after the break at `i` starts: a carriage return and a line feed together are one break. */
  function NextLine(s: Bytes, i: nat): (n: nat)
    requires i <= |s|
    ensures i <= n <= |s| && (i < |s| ==> i < n)
  {
    if i == |s| then i
    else if s[i] == CR && i + 1 < |s| && s[i + 1] == LF then i + 2
    else i + 1
  }

  function LinesFrom(s: Bytes, p: nat): seq<Bytes>
    requires p <= |s|
    decreases |s| - p
  {
    if p == |s| then []
    else
      var i := BreakAt(s, p);
      [s[p..i]] + LinesFrom(s, NextLine(s, i))
  }

  /** `bytes.splitlines()` */
  function SplitLines(s: Bytes): seq<Bytes> {
    LinesFrom(s, 0)
  }

  // What splitting means.

  /** The break behind the line at `i`: a line feed, a carriage return, both, or the end of the text. */
  function BreakText(s: Bytes, i: nat): Bytes
    requires i <= |s|
  {
    s[i..NextLine(s, i)]
  }

  function BreaksFrom(s: Bytes, p: nat): seq<Bytes>
    requires p <= |s|
    decreases |s| - p
  {
    if p == |s| then []
    else
      var i := BreakAt(s, p);
      [BreakText(s, i)] + BreaksFrom(s, NextLine(s, i))
  }

  function Rejoined(lines: seq<Bytes>, breaks: seq<Bytes>): Bytes
    requires |lines| == |breaks|
  {
    if lines == [] then [] else lines[0] + breaks[0] + Rejoined(lines[1..], breaks[1..])
  }

  /**
   Breaks are LF, CR or CR LF, none but the last may be missing, and a CR is not followed
   by a LF that belongs to it.
   */
  ghost predicate BreaksLines(lines: seq<Bytes>, breaks: seq<Bytes>) {
    && |lines| == |breaks|
    && (forall k, b | 0 <= k < |lines| && b in lines[k] :: b != 10 && b != 13)
    && (forall k | 0 <= k < |breaks| ::
          breaks[k] in {[10], [13], [13, 10]} || (breaks[k] == [] && k == |breaks| - 1 && lines[k] != []))
    && (forall k | 0 <= k < |breaks| - 1 && breaks[k] == [13] ::
          lines[k + 1] + breaks[k + 1] != [] && (lines[k + 1] + breaks[k + 1])[0] != 10)
  }

  lemma OneBreak(s: Bytes, p: nat)
    requires p < |s|
    ensures
      var i := BreakAt(s, p);
      var n := NextLine(s, i);
      && s[p..i] + s[i..n] + s[n..] == s[p..]
      && (forall b | b in s[p..i] :: b != 10 && b != 13)
      && (s[i..n] in {[10], [13], [13, 10]} || (s[i..n] == [] && n == |s| && s[p..i] != []))
      && (s[i..n] == [13] && n < |s| ==> s[n] != 10)
      && (s[i..n] == [] ==> n == |s|)
  {
    var i := BreakAt(s, p);
    var n := NextLine(s, i);
    if i < |s| {
      if n == i + 1 { assert s[i..n] == [s[i]]; } else { assert s[i..n] == [s[i], s[i + 1]]; }
    }
  }

  lemma FirstOfLine(s: Bytes, p: nat)
    requires p < |s|
    ensures var i := BreakAt(s, p); s[p..i] + BreakText(s, i) != [] && (s[p..i] + BreakText(s, i))[0] == s[p]
  {
  }

  lemma {:induction false} LinesAndBreaks(s: Bytes, p: nat)
    requires p <= |s|
    ensures BreaksLines(LinesFrom(s, p), BreaksFrom(s, p))
    ensures Rejoined(LinesFrom(s, p), BreaksFrom(s, p)) == s[p..]
    ensures p < |s| ==>
      && LinesFrom(s, p) != []
      && LinesFrom(s, p)[0] + BreaksFrom(s, p)[0] != []
      && (LinesFrom(s, p)[0] + BreaksFrom(s, p)[0])[0] == s[p]
    decreases |s| - p
  {
    if p < |s| {
      var i := BreakAt(s, p);
      var n := NextLine(s, i);
      OneBreak(s, p);
      FirstOfLine(s, p);
      LinesAndBreaks(s, n);
      LineAndBreakCons(s[p..i], s[i..n], LinesFrom(s, n), BreaksFrom(s, n));
    }
  }

  lemma LineAndBreakCons(line: Bytes, brk: Bytes, lines: seq<Bytes>, breaks: seq<Bytes>)
    requires BreaksLines(lines, breaks)
    requires forall b | b in line :: b != 10 && b != 13
    requires brk in {[10], [13], [13, 10]} || (brk == [] && lines == [] && line != [])
    requires brk == [13] && lines != [] ==> lines[0] + breaks[0] != [] && (lines[0] + breaks[0])[0] != 10
    ensures BreaksLines([line] + lines, [brk] + breaks)
    ensures Rejoined([line] + lines, [brk] + breaks) == line + brk + Rejoined(lines, breaks)
  {
    var ls, bs := [line] + lines, [brk] + breaks;
    assert ls[1..] == lines && bs[1..] == breaks;
    forall k | 0 < k < |ls| ensures ls[k] == lines[k - 1] && bs[k] == breaks[k - 1] { }
  }

  /** The lines of a text are what stands between its breaks: put together again they give the text. */
  lemma {:induction false} SplitLinesMeans(s: Bytes) returns (breaks: seq<Bytes>)
    ensures BreaksLines(SplitLines(s), breaks) && Rejoined(SplitLines(s), breaks) == s
  {
    breaks := BreaksFrom(s, 0);
    LinesAndBreaks(s, 0);
    assert s[0..] == s;
  }

  predicate EndsLine(s: Bytes) { s != [] && s[|s| - 1] == LF }

  lemma BreakAtUnique(s: Bytes, p: nat, i: nat)
    requires p <= i <= |s| && (forall k | p <= k < i :: !IsBreak(s[k])) && (i < |s| ==> IsBreak(s[i]))
    ensures BreakAt(s, p) == i
    decreases i - p
  {
    if p < i { BreakAtUnique(s, p + 1, i); }
  }

  lemma LinesUnfold(s: Bytes, p: nat)
    requires p < |s|
    ensures LinesFrom(s, p) == [s[p..BreakAt(s, p)]] + LinesFrom(s, NextLine(s, BreakAt(s, p)))
  {
  }

  lemma LinesUnfoldAt(s: Bytes, p: nat, i: nat, n: nat, line: Bytes)
    requires p < |s| && i == BreakAt(s, p) && n == NextLine(s, i) && line == s[p..i]
    ensures LinesFrom(s, p) == [line] + LinesFrom(s, n)
  {
  }

  lemma BreakInside(a: Bytes, b: Bytes, p: nat)
    requires EndsLine(a) && p < |a|
    ensures BreakAt(a, p) < |a| && BreakAt(a + b, p) == BreakAt(a, p)
    ensures NextLine(a + b, BreakAt(a, p)) == NextLine(a, BreakAt(a, p))
  {
    BreakAtUnique(a + b, p, BreakAt(a, p));
  }

  /** Inside a text that ends its line, the next line is found the same way whatever follows. */
  lemma NextLineInside(a: Bytes, b: Bytes, p: nat) returns (i: nat, n: nat)
    requires EndsLine(a) && p < |a|
    ensures p <= i < n <= |a|
    ensures LinesFrom(a, p) == [a[p..i]] + LinesFrom(a, n)
    ensures LinesFrom(a + b, p) == [a[p..i]] + LinesFrom(a + b, n)
  {
    i := BreakAt(a, p);
    n := NextLine(a, i);
    BreakInside(a, b, p);
    LinesUnfold(a, p);
    LinesUnfold(a + b, p);
    assert (a + b)[p..i] == a[p..i];
  }

  lemma {:induction false} LinesInside(a: Bytes, b: Bytes, p: nat)
    requires EndsLine(a) && p <= |a|
    ensures LinesFrom(a + b, p) == LinesFrom(a, p) + LinesFrom(a + b, |a|)
    decreases |a| - p
  {
    if p < |a| {
      var i, n := NextLineInside(a, b, p);
      LinesInside(a, b, n);
    }
  }

  /** Behind a text, the next line is found as in what follows. */
  lemma NextLineBehind(a: Bytes, b: Bytes, s: Bytes, q: nat, i: nat, n: nat)
    requires s == a + b && q < |b| && i == BreakAt(b, q) && n == NextLine(b, i)
    ensures LinesFrom(s, |a| + q) == [b[q..i]] + LinesFrom(s, |a| + n)
  {
    BreakBehind(a, b, s, q);
    SliceBehind(a, b, s, q, i);
    LinesUnfoldAt(s, |a| + q, |a| + i, |a| + n, b[q..i]);
  }

  lemma BreakBehind(a: Bytes, b: Bytes, s: Bytes, q: nat)
    requires s == a + b && q <= |b|
    ensures BreakAt(s, |a| + q) == |a| + BreakAt(b, q)
    ensures NextLine(s, |a| + BreakAt(b, q)) == |a| + NextLine(b, BreakAt(b, q))
  {
    BreakAtUnique(s, |a| + q, |a| + BreakAt(b, q));
  }

  lemma SliceBehind(a: Bytes, b: Bytes, s: Bytes, q: nat, i: nat)
    requires s == a + b && q <= i <= |b|
    ensures s[|a| + q..|a| + i] == b[q..i]
  {
  }

  lemma {:induction false} LinesBehind(a: Bytes, b: Bytes, q: nat)
    requires q <= |b|
    ensures LinesFrom(a + b, |a| + q) == LinesFrom(b, q)
    decreases |b| - q
  {
    if q < |b| {
      var i := BreakAt(b, q);
      var n := NextLine(b, i);
      LinesUnfold(b, q);
      NextLineBehind(a, b, a + b, q, i, n);
      LinesBehind(a, b, n);
    }
  }

  /** Cutting after a line feed never changes the lines, although readers also break at carriage returns. */
  lemma {:induction false} SplitAfterLineFeed(a: Bytes, b: Bytes)
    requires a == [] || EndsLine(a)
    ensures SplitLines(a + b) == SplitLines(a) + SplitLines(b)
  {
    if a == [] {
      assert a + b == b;
    } else {
      LinesInside(a, b, 0);
      LinesBehind(a, b, 0);
    }
  }

  /** One unbroken line with its line feed. */
  lemma SplitOneLine(line: Bytes)
    requires forall k | 0 <= k < |line| :: !IsBreak(line[k])
    ensures SplitLines(line + [LF]) == [line]
  {
    BreakAtUnique(line + [LF], 0, |line|);
    assert (line + [LF])[0..|line|] == line;
    assert LinesFrom(line + [LF], |line| + 1) == [];
  }

  function LineFeeds(s: Bytes): nat {
    if s == [] then 0 else LineFeeds(s[..|s| - 1]) + (if s[|s| - 1] == LF then 1 else 0)
  }

  /** It counts the bytes 10. */
  lemma {:induction false} LineFeedsCount(s: Bytes)
    ensures LineFeeds(s) == multiset(s)[10]
  {
    if s != [] {
      var n := |s| - 1;
      LineFeedsCount(s[..n]);
      assert s == s[..n] + [s[n]];
    }
  }

  lemma {:induction false} LineFeedsConcat(a: Bytes, b: Bytes)
    ensures LineFeeds(a + b) == LineFeeds(a) + LineFeeds(b)
    decreases |b|
  {
    if b == [] {
      assert a + b == a;
    } else {
      assert (a + b)[..|a + b| - 1] == a + b[..|b| - 1];
      LineFeedsConcat(a, b[..|b| - 1]);
    }
  }

  type Range = (nat, nat)

  /** Non-empty ranges, each starting where the one before ended: at 0 or just after a line feed. */
  ghost predicate Tiles(file: Bytes, ranges: seq<Range>, upTo: nat)
    decreases |ranges|
  {
    if ranges == [] then upTo == 0
    else
      var (start, end) := ranges[|ranges| - 1];
      && end == upTo && start < end <= |file|
      && (start == 0 || file[start - 1] == LF)
      && Tiles(file, ranges[..|ranges| - 1], start)
  }

  lemma {:induction false} TilesInside(file: Bytes, ranges: seq<Range>, upTo: nat)
    requires Tiles(file, ranges, upTo)
    ensures upTo <= |file| && forall i | 0 <= i < |ranges| :: ranges[i].0 < ranges[i].1 <= upTo
    decreases |ranges|
  {
    if ranges != [] { TilesInside(file, ranges[..|ranges| - 1], ranges[|ranges| - 1].0); }
  }

  function Pieces(file: Bytes, ranges: seq<Range>): seq<Bytes>
    requires forall i | 0 <= i < |ranges| :: ranges[i].0 <= ranges[i].1 <= |file|
  {
    if ranges == [] then []
    else
      var last := ranges[|ranges| - 1];
      Pieces(file, ranges[..|ranges| - 1]) + [file[last.0..last.1]]
  }

  function LinesOfAll(pieces: seq<Bytes>): seq<Bytes> {
    if pieces == [] then [] else LinesOfAll(pieces[..|pieces| - 1]) + SplitLines(pieces[|pieces| - 1])
  }

  /** Reading tiles one after the other gives the lines of the part of the file they cover. */
  lemma {:induction false} TilesKeepLines(file: Bytes, ranges: seq<Range>, upTo: nat)
    requires Tiles(file, ranges, upTo)
    ensures upTo <= |file| && forall i | 0 <= i < |ranges| :: ranges[i].0 <= ranges[i].1 <= |file|
    ensures LinesOfAll(Pieces(file, ranges)) == SplitLines(file[..upTo])
    decreases |ranges|
  {
    TilesInside(file, ranges, upTo);
    if ranges != [] {
      var n := |ranges| - 1;
      var (start, end) := ranges[n];
      TilesKeepLines(file, ranges[..n], start);
      assert file[..end] == file[..start] + file[start..end];
      SplitAfterLineFeed(file[..start], file[start..end]);
      LinesOfAllSnoc(Pieces(file, ranges[..n]), file[start..end]);
    }
  }

  lemma LinesOfAllSnoc(pieces: seq<Bytes>, piece: Bytes)
    ensures LinesOfAll(pieces + [piece]) == LinesOfAll(pieces) + SplitLines(piece)
  {
    assert (pieces + [piece])[..|pieces|] == pieces;
  }
}
