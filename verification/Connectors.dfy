/** The connectors: chunked indexing of local files, and JSON lines in local files and object buckets. */
module Connectors {
  import opened Results
  import opened Lines
  import opened Jsonl

  datatype IndexError = BadChunkSize | NoSuchFile

  /** The lines a file iterator counts: line feeds, and an unfinished last line. */
  function LineCount(s: Bytes): nat {
    LineFeeds(s) + (if s != [] && !EndsLine(s) then 1 else 0)
  }

  /** `f.readline()`: the position after the next line feed, or the end. */
  method ReadLineEnd(file: Bytes, pos: nat) returns (next: nat)
    requires pos <= |file|
    ensures pos <= next <= |file| && (pos < |file| ==> pos < next)
    ensures pos < next ==> LineCount(file[pos..next]) == 1 && (file[next - 1] == LF || next == |file|)
    ensures pos < next && file[next - 1] == LF ==> LineFeeds(file[pos..next]) == 1
  {
    next := pos;
    while next < |file|
      invariant pos <= next <= |file|
      invariant LineFeeds(file[pos..next]) == 0
      invariant pos < next ==> file[next - 1] != LF
    {
      OneByteOn(file, pos, next);
      next := next + 1;
      if file[next - 1] == LF { return; }
    }
  }

  lemma OneByteOn(file: Bytes, pos: nat, next: nat)
    requires pos <= next < |file|
    ensures LineFeeds(file[pos..next + 1]) == LineFeeds(file[pos..next]) + (if file[next] == LF then 1 else 0)
  {
    assert file[pos..next + 1][..next - pos] == file[pos..next];
  }

  lemma LineCountAppend(a: Bytes, b: Bytes)
    requires (a == [] || EndsLine(a)) && b != []
    ensures LineCount(a + b) == LineCount(a) + LineCount(b)
  {
    LineFeedsConcat(a, b);
  }

  /** Every chunk but the last holds exactly `size` lines, and the last holds between one and `size`. */
  ghost predicate ChunksOf(file: Bytes, ranges: seq<Range>, size: int) {
    forall i | 0 <= i < |ranges| ::
      && ranges[i].0 < ranges[i].1 <= |file|
      && 1 <= LineCount(file[ranges[i].0..ranges[i].1]) <= size
      && (i < |ranges| - 1 ==> LineCount(file[ranges[i].0..ranges[i].1]) == size)
  }

  lemma TilesSnoc(file: Bytes, ranges: seq<Range>, start: nat, end: nat)
    requires Tiles(file, ranges, start) && start < end <= |file| && (start == 0 || file[start - 1] == LF)
    ensures Tiles(file, ranges + [(start, end)], end)
  {
    assert (ranges + [(start, end)])[..|ranges|] == ranges;
  }

  /** Between two turns of the loop: ranges tile the file up to `start`, and `count` whole lines follow up to `pos`. */
  ghost predicate Standing(f: Bytes, ranges: seq<Range>, start: nat, pos: nat, count: int) {
    && start <= pos <= |f| && Tiles(f, ranges, start)
    && (pos < |f| ==> pos == 0 || f[pos - 1] == LF)
    && (start < |f| ==> start == 0 || f[start - 1] == LF)
    && count == LineCount(f[start..pos])
  }

  ghost predicate FullChunks(f: Bytes, ranges: seq<Range>, size: int) {
    forall i | 0 <= i < |ranges| :: ranges[i].0 < ranges[i].1 <= |f| && LineCount(f[ranges[i].0..ranges[i].1]) == size
  }

  lemma OneMoreLine(f: Bytes, ranges: seq<Range>, start: nat, pos: nat, next: nat, count: int)
    requires Standing(f, ranges, start, pos, count) && pos < next <= |f|
    requires LineCount(f[pos..next]) == 1 && (f[next - 1] == LF || next == |f|)
    ensures Standing(f, ranges, start, next, count + 1)
  {
    assert f[start..next] == f[start..pos] + f[pos..next];
    LineCountAppend(f[start..pos], f[pos..next]);
  }

  /** A full chunk is cut off where the position stands. */
  lemma ChunkDone(f: Bytes, ranges: seq<Range>, start: nat, end: nat, size: int)
    requires Standing(f, ranges, start, end, size) && FullChunks(f, ranges, size) && start < end
    ensures Standing(f, ranges + [(start, end)], end, end, 0) && FullChunks(f, ranges + [(start, end)], size)
  {
    TilesSnoc(f, ranges, start, end);
    assert f[end..end] == [];
  }

  lemma LastChunk(f: Bytes, ranges: seq<Range>, start: nat, end: nat, count: int, size: int)
    requires Standing(f, ranges, start, end, count) && FullChunks(f, ranges, size) && start < end && count < size
    ensures Tiles(f, ranges + [(start, end)], end) && ChunksOf(f, ranges + [(start, end)], size)
  {
    TilesSnoc(f, ranges, start, end);
    LinesInNonEmpty(f[start..end]);
  }

  lemma LinesInNonEmpty(s: Bytes)
    requires s != []
    ensures LineCount(s) >= 1
  {
  }

  /** The ranges of a file, cut after every `chunkSize` lines. */
  method Index(file: Option<Bytes>, chunkSize: int) returns (r: Result<seq<Range>, IndexError>)
    ensures chunkSize <= 0 ==> r == Err(BadChunkSize)
    ensures chunkSize > 0 && file.None? ==> r == Err(NoSuchFile)
    ensures chunkSize > 0 && file.Some? ==>
      r.Ok? && Tiles(file.value, r.value, |file.value|) && ChunksOf(file.value, r.value, chunkSize)
  {
    if chunkSize <= 0 { return Err(BadChunkSize); }
    if file.None? { return Err(NoSuchFile); }
    var f := file.value;
    var start, lineCount, pos := 0, 0, 0;
    var ranges: seq<Range> := [];
    while true
      invariant 0 <= lineCount < chunkSize && Standing(f, ranges, start, pos, lineCount)
      invariant FullChunks(f, ranges, chunkSize)
      decreases |f| - pos
    {
      var next := ReadLineEnd(f, pos);
      if next == pos {
        var end := pos;
        if end > start {
          LastChunk(f, ranges, start, end, lineCount, chunkSize);
          ranges := ranges + [(start, end)];
        }
        return Ok(ranges);
      }
      OneMoreLine(f, ranges, start, pos, next, lineCount);
      pos := next;
      lineCount := lineCount + 1;
      if lineCount >= chunkSize {
        var end := pos;
        ChunkDone(f, ranges, start, end, chunkSize);
        ranges := ranges + [(start, end)];
        start := end;
        lineCount := 0;
      }
    }
  }

  // Reading.

  datatype AccessError = WrongType | WrongFormat | NotFound | Refused

  /** A byte range as references carry it: [start, end), or the whole object. */
  type ByteRange = Option<(int, int)>

  /**
   Seek to the start and read end - start bytes.  A negative seek raises; so does a
   negative count, but for -1, which reads to the end.
   */
  function LocalBytes(file: Bytes, range: ByteRange): Option<Bytes> {
    match range
    case None => Some(file)
    case Some((start, end)) =>
      if start < 0 || end < start - 1 then None
      else
        var lo := if start <= |file| then start else |file|;
        if end == start - 1 then Some(file[lo..])
        else Some(file[lo..if end <= |file| && lo <= end then end else |file|])
  }

  /**
   A GET with `Range: bytes=start-(end - 1)`, per section 14.1.2 of RFC 9110: a
   position past the end is clipped, a first position at or past the end is not
   satisfiable, and a last position before the first is invalid, which a server
   may ignore (`lenient`) or refuse.
   */
  function ObjectBytes(body: Bytes, range: ByteRange, lenient: bool): Option<Bytes> {
    match range
    case None => Some(body)
    case Some((start, end)) =>
      var last := end - 1;
      if start < 0 || last < start then (if lenient then Some(body) else None)
      else if start >= |body| then None
      else Some(body[start..if last + 1 <= |body| then last + 1 else |body|])
  }

  /** The ranges on which a local seek and an object request have the same outcome. */
  predicate FetchAlike(size: nat, start: int, end: int, lenient: bool) {
    if start < 0 || end < start - 1 then !lenient
    else if start < end then start < size
    else lenient && (size == 0 || (start == 0 && end == -1))
  }

  /** The local read, byte by byte: those from start up to end, as far as the file goes; count -1 means no end. */
  lemma {:induction false} LocalBytesMeans(file: Bytes, start: int, end: int)
    ensures LocalBytes(file, Some((start, end))).None? <==> start < 0 || end - start < -1
    ensures LocalBytes(file, Some((start, end))).Some? ==>
      var r, stop := LocalBytes(file, Some((start, end))).value, if end == start - 1 then |file| else end;
      && (forall k | 0 <= k < |r| :: start + k < |file| && start + k < stop && r[k] == file[start + k])
      && (start + |r| >= |file| || start + |r| >= stop)
    ensures LocalBytes(file, None) == Some(file)
  {
  }

  /** The object request, byte by byte: those from start through end - 1, as far as the object goes. */
  lemma {:induction false} ObjectBytesMeans(body: Bytes, start: int, end: int, lenient: bool)
    ensures 0 <= start <= end - 1 && start < |body| ==>
      && ObjectBytes(body, Some((start, end)), lenient).Some?
      && var r := ObjectBytes(body, Some((start, end)), lenient).value;
         && (forall k | 0 <= k < |r| :: start + k <= end - 1 && start + k < |body| && r[k] == body[start + k])
         && (start + |r| == |body| || start + |r| == end)
    ensures 0 <= start <= end - 1 && start >= |body| ==> ObjectBytes(body, Some((start, end)), lenient) == None
    ensures start < 0 || end - 1 < start ==>
      ObjectBytes(body, Some((start, end)), lenient) == if lenient then Some(body) else None
    ensures ObjectBytes(body, None, lenient) == Some(body)
  {
  }

  lemma WholeTail(body: Bytes, lo: nat)
    requires lo <= |body|
    ensures body[lo..] == body <==> lo == 0 || body == []
  {
  }

  /**
   Whether the two connectors agree on a range, for all integer pairs: on proper
   ranges exactly when they start inside the object; on the others only when both
   refuse, or when the server answers an invalid range with the whole object and
   the local seek happens to read it all too.
   */
  lemma {:induction false} FetchesAgreeIff(body: Bytes, start: int, end: int, lenient: bool)
    ensures ObjectBytes(body, Some((start, end)), lenient) == LocalBytes(body, Some((start, end))) <==>
      FetchAlike(|body|, start, end, lenient)
  {
    if start >= 0 {
      var lo := if start <= |body| then start else |body|;
      WholeTail(body, lo);
      assert body[lo..lo] == [];
    }
  }

  /** Both connectors fetch the pieces of an aligned split exactly. */
  lemma {:induction false} FetchedPieces(body: Bytes, ranges: seq<Range>, upTo: nat, lenient: bool)
    requires Tiles(body, ranges, upTo)
    ensures forall i | 0 <= i < |ranges| ::
      && ranges[i].0 < ranges[i].1 <= |body|
      && ObjectBytes(body, Some((ranges[i].0, ranges[i].1)), lenient) == Some(body[ranges[i].0..ranges[i].1])
      && LocalBytes(body, Some((ranges[i].0, ranges[i].1))) == Some(body[ranges[i].0..ranges[i].1])
  {
    TilesInside(body, ranges, upTo);
  }

  /** What the reader will yield when it stands before line i with `records` behind it. */
  function Ahead(env: Env, records: seq<Record>, lines: seq<Bytes>, i: nat): Reading
    requires i <= |lines|
  {
    Then(Reading(records, None), ReadLines(env, lines[i..]))
  }

  lemma OneLineOn(env: Env, records: seq<Record>, lines: seq<Bytes>, i: nat)
    requires i < |lines|
    ensures Ahead(env, records, lines, i) ==
      Then(Then(Reading(records, None), ReadLine(env, lines[i])), ReadLines(env, lines[i + 1..]))
  {
    assert lines[i..][1..] == lines[i + 1..];
    ThenAssociates(Reading(records, None), ReadLine(env, lines[i]), ReadLines(env, lines[i + 1..]));
  }

  /** The reading loop: skip blank lines, decode the others, stop at the first that raises. */
  method ReadRecords(env: Env, bytes: Bytes) returns (r: Reading)
    ensures r == ReadBytes(env, bytes)
  {
    var lines := SplitLines(bytes);
    var records: seq<Record> := [];
    assert lines[0..] == lines;
    for i := 0 to |lines|
      invariant Ahead(env, records, lines, i) == ReadLines(env, lines)
    {
      var raw := lines[i];
      OneLineOn(env, records, lines, i);
      if Blank(raw) {
        assert records + [] == records;
      } else {
        var parsed := ParseLine(env, raw);
        if parsed.Err? {
          assert records + [] == records;
          return Reading(records, Some(parsed.error));
        }
        records := records + [parsed.value];
      }
    }
    assert lines[|lines|..] == [] && records + [] == records;
    return Reading(records, None);
  }

  /** The writing loop: one line for each record, and the count. */
  method Frame(env: Env, records: seq<Record>) returns (buf: Bytes, count: nat)
    ensures buf == Framed(env, records) && count == |records|
  {
    buf, count := [], 0;
    for i := 0 to |records|
      invariant buf == Framed(env, records[..i]) && count == i
    {
      assert records[..i + 1][..i] == records[..i];
      buf := buf + env.dump(RecordJson(records[i]));
      buf := buf + [LF];
      count := count + 1;
    }
    assert records[..|records|] == records;
  }

  /** A URI that names no key, or ends in a slash, is a prefix. */
  predicate IsPrefix(key: string) {
    key == "" || key[|key| - 1] == '/'
  }

  /** Where a write lands: an exact key, or a fresh part under a prefix. */
  function ObjectKey(key: string, part: string): string {
    if IsPrefix(key) then key + "part-" + part + ".jsonl" else key
  }

  datatype Ref = Ref(kind: string, format: string, bucket: string, key: string, range: ByteRange)

  class S3Connector {
    var objects: map<(string, string), Bytes>

    constructor ()
      ensures objects == map[]
    {
      objects := map[];
    }

    method Read(env: Env, ref: Ref, lenient: bool) returns (r: Result<Reading, AccessError>)
      ensures ref.kind != "s3" ==> r == Err(WrongType)
      ensures ref.kind == "s3" && ref.format != "jsonl" ==> r == Err(WrongFormat)
      ensures ref.kind == "s3" && ref.format == "jsonl" ==>
        r == if (ref.bucket, ref.key) !in objects then Err(NotFound)
             else match ObjectBytes(objects[(ref.bucket, ref.key)], ref.range, lenient)
                  case None => Err(Refused)
                  case Some(bytes) => Ok(ReadBytes(env, bytes))
    {
      if ref.kind != "s3" { return Err(WrongType); }
      if ref.format != "jsonl" { return Err(WrongFormat); }
      if (ref.bucket, ref.key) !in objects { return Err(NotFound); }
      var body := ObjectBytes(objects[(ref.bucket, ref.key)], ref.range, lenient);
      if body.None? { return Err(Refused); }
      var reading := ReadRecords(env, body.value);
      return Ok(reading);
    }

    /** Stores the framed records under the key or a fresh part; an empty write stores nothing. */
    method Write(env: Env, ref: Ref, part: string, records: seq<Record>) returns (r: Result<nat, AccessError>)
      modifies this
      ensures ref.kind != "s3" ==> r == Err(WrongType)
      ensures ref.kind == "s3" && ref.format != "jsonl" ==> r == Err(WrongFormat)
      ensures ref.kind == "s3" && ref.format == "jsonl" ==> r == Ok(|records|)
      ensures
        var prefix := ref.key == "" || ref.key[|ref.key| - 1] == '/';
        var target := if prefix then ref.key + "part-" + part + ".jsonl" else ref.key;
        objects == if ref.kind == "s3" && ref.format == "jsonl" && records != []
                   then old(objects)[(ref.bucket, target) := Framed(env, records)]
                   else old(objects)
    {
      if ref.kind != "s3" { return Err(WrongType); }
      if ref.format != "jsonl" { return Err(WrongFormat); }
      var objectKey := if IsPrefix(ref.key) then ref.key + "part-" + part + ".jsonl" else ref.key;
      var buf, count := Frame(env, records);
      if count == 0 { return Ok(0); }
      objects := objects[(ref.bucket, objectKey) := buf];
      return Ok(count);
    }
  }

  /** Writing records and reading the stored object back returns them. */
  method WriteThenRead(s3: S3Connector, env: Env, bucket: string, key: string, part: string, records: seq<Record>,
      lenient: bool)
    returns (r: Result<Reading, AccessError>)
    requires records != [] && AllWritable(env, records)
    modifies s3
    ensures r == Ok(Reading(records, None))
  {
    var written := s3.Write(env, Ref("s3", "jsonl", bucket, key, None), part, records);
    r := s3.Read(env, Ref("s3", "jsonl", bucket, ObjectKey(key, part), None), lenient);
    FramingRoundTrip(env, records);
  }

  /** The pieces a reader fetches for the ranges of an object. */
  function Fetched(body: Bytes, ranges: seq<Range>, lenient: bool): Option<seq<Bytes>> {
    if ranges == [] then Some([])
    else
      var (start, end) := ranges[|ranges| - 1];
      var before :- Fetched(body, ranges[..|ranges| - 1], lenient);
      var piece :- ObjectBytes(body, Some((start, end)), lenient);
      Some(before + [piece])
  }

  lemma {:induction false} FetchedIsPieces(body: Bytes, ranges: seq<Range>, upTo: nat, lenient: bool)
    requires Tiles(body, ranges, upTo)
    ensures forall i | 0 <= i < |ranges| :: ranges[i].0 <= ranges[i].1 <= |body|
    ensures Fetched(body, ranges, lenient) == Some(Pieces(body, ranges))
    decreases |ranges|
  {
    TilesInside(body, ranges, upTo);
    if ranges != [] {
      FetchedIsPieces(body, ranges[..|ranges| - 1], ranges[|ranges| - 1].0, lenient);
    }
  }

  /**
   Written records come back in order through any newline-aligned split of the
   object into ranges requested one at a time.
   */
  lemma {:induction false} RangedRoundTrip(env: Env, records: seq<Record>, ranges: seq<Range>, lenient: bool)
    requires AllWritable(env, records)
    requires Tiles(Framed(env, records), ranges, |Framed(env, records)|)
    ensures Fetched(Framed(env, records), ranges, lenient).Some?
    ensures ReadPieces(env, Fetched(Framed(env, records), ranges, lenient).value) == Reading(records, None)
  {
    var body := Framed(env, records);
    FetchedIsPieces(body, ranges, |body|, lenient);
    TilesReadLikeTheFile(env, body, ranges);
    FramingRoundTrip(env, records);
  }

  class LocalFileConnector {
    var files: map<string, Bytes>

    constructor ()
      ensures files == map[]
    {
      files := map[];
    }

    /** Appends the framed records, creating the file when it is missing. */
    method Write(env: Env, path: string, records: seq<Record>) returns (count: nat)
      modifies this
      ensures count == |records|
      ensures files == old(files)[path := (if path in old(files) then old(files)[path] else []) + Framed(env, records)]
    {
      var existing := if path in files then files[path] else [];
      var buf;
      buf, count := Frame(env, records);
      files := files[path := existing + buf];
    }

    method Read(env: Env, path: string, range: ByteRange) returns (r: Result<Reading, AccessError>)
      ensures r == if path !in files then Err(NotFound)
                   else match LocalBytes(files[path], range)
                        case None => Err(Refused)
                        case Some(bytes) => Ok(ReadBytes(env, bytes))
    {
      if path !in files { return Err(NotFound); }
      var buf := LocalBytes(files[path], range);
      if buf.None? { return Err(Refused); }
      var reading := ReadRecords(env, buf.value);
      return Ok(reading);
    }
  }

  /** Appending to a file that is empty or ends its line adds exactly the new records to what a reader sees. */
  lemma {:induction false} AppendAddsRecords(env: Env, file: Bytes, records: seq<Record>)
    requires AllWritable(env, records)
    requires file == [] || EndsLine(file)
    ensures ReadBytes(env, file + Framed(env, records)) == Then(ReadBytes(env, file), Reading(records, None))
  {
    ReadBytesConcat(env, file, Framed(env, records));
    FramingRoundTrip(env, records);
  }
}
