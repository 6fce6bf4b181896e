/** Records in JSON lines: the row formats, and reading a run of lines. */
module Jsonl {
  import opened Results
  import opened Dicts
  import opened JsonValues
  import opened Lines

  datatype Record = Record(inputId: string, userId: string, jobId: string, prompt: string, metadata: Dict<Json>)

  /**
   Library conversions: JSON text of a document and its parser, the compact text
   form used as a prompt, Python's `str`, and the whitespace trimming of records.
   */
  datatype Env = Env(
    dump: Json -> Bytes,
    load: Bytes -> Option<Json>,
    compact: Json -> string,
    text: Json -> string,
    trim: string -> string)

  /** The first truthy value under the keys, else the empty text. */
  function FirstOf(row: Dict<Json>, keys: seq<string>): Json {
    if keys == [] then JStr("") else GetOr(row, keys[0], FirstOf(row, keys[1..]))
  }

  /** `str(...)` of a value; a text is itself. */
  function TextOf(env: Env, j: Json): string {
    if j.JStr? then j.s else env.text(j)
  }

  function NewRecord(env: Env, inputId: string, userId: string, jobId: string, prompt: string,
      metadata: Dict<Json>): Record {
    Record(env.trim(inputId), env.trim(userId), env.trim(jobId), env.trim(prompt), metadata)
  }

  /** The content of the last user message, scanning backwards. */
  function LastUserMessage(messages: seq<Json>): Option<string> {
    if messages == [] then None
    else
      var m := messages[|messages| - 1];
      if m.JObj? && Get(m.members, "role") == Some(JStr("user")) && IsText(Get(m.members, "content")) then
        Some(Get(m.members, "content").value.s)
      else LastUserMessage(messages[..|messages| - 1])
  }

  predicate IsText(v: Option<Json>) { v.Some? && v.value.JStr? }

  function OrNull(v: Option<Json>): Json {
    match v case Some(j) => j case None => JNull
  }

  /** The last user message, or the body's compact text when there is none or it is empty. */
  function BatchPrompt(env: Env, body: Dict<Json>): string {
    var messages := GetOr(body, "messages", JArr([]));
    var last := if messages.JArr? then LastUserMessage(messages.items) else None;
    if last.Some? && last.value != "" then last.value else env.compact(JObj(body))
  }

  function OpenAiBatchRow(env: Env, row: Dict<Json>, body: Dict<Json>): Record {
    NewRecord(env,
      TextOf(env, FirstOf(row, ["custom_id", "id", "input_id"])),
      TextOf(env, FirstOf(row, ["user_id"])),
      TextOf(env, FirstOf(row, ["job_id"])),
      BatchPrompt(env, body),
      [("openai_batch", JObj([("method", OrNull(Get(row, "method"))), ("url", OrNull(Get(row, "url"))),
        ("body", JObj(body))]))])
  }

  /** A record from its five fields; None where validation refuses the prompt or the metadata. */
  function RecordOf(env: Env, inputId: Json, userId: Json, jobId: Json, prompt: Json, metadata: Json): Option<Record> {
    if prompt.JStr? && metadata.JObj? then
      Some(NewRecord(env, TextOf(env, inputId), TextOf(env, userId), TextOf(env, jobId), prompt.s, metadata.members))
    else None
  }

  function GetDefault(row: Dict<Json>, key: string, default: Json): Json {
    match Get(row, key) case Some(v) => v case None => default
  }

  function NormalizedRow(env: Env, row: Dict<Json>): Option<Record> {
    RecordOf(env, FirstOf(row, ["input_id", "id"]), FirstOf(row, ["user_id"]), FirstOf(row, ["job_id"]),
             GetDefault(row, "prompt", JStr("")), GetOr(row, "metadata", JObj([])))
  }

  function RecordFromRow(env: Env, row: Json): Option<Record> {
    if !row.JObj? then None
    else
      var body := Get(row.members, "body");
      if body.Some? && body.value.JObj? then Some(OpenAiBatchRow(env, row.members, body.value.members))
      else NormalizedRow(env, row.members)
  }

  function RecordFields(r: Record): Dict<Json> {
    [("input_id", JStr(r.inputId)), ("user_id", JStr(r.userId)), ("job_id", JStr(r.jobId)),
     ("prompt", JStr(r.prompt)), ("metadata", JObj(r.metadata))]
  }

  /** What a record is written as. */
  function RecordJson(r: Record): Json { JObj(RecordFields(r)) }

  /** Records hold trimmed texts. */
  predicate Trimmed(env: Env, r: Record) {
    env.trim(r.inputId) == r.inputId && env.trim(r.userId) == r.userId && env.trim(r.jobId) == r.jobId &&
      env.trim(r.prompt) == r.prompt
  }

  lemma RecordKeysUnique(r: Record)
    ensures UniqueKeys(RecordFields(r))
  {
    assert |"input_id"| == 8 && |"user_id"| == 7 && |"job_id"| == 6 && |"prompt"| == 6 && |"metadata"| == 8;
    assert "input_id"[0] == 'i' && "metadata"[0] == 'm' && "job_id"[0] == 'j' && "prompt"[0] == 'p';
  }

  lemma IdentityFields(r: Record)
    ensures Get(RecordFields(r), "input_id") == Some(JStr(r.inputId))
    ensures Get(RecordFields(r), "user_id") == Some(JStr(r.userId))
    ensures Get(RecordFields(r), "job_id") == Some(JStr(r.jobId))
  {
    RecordKeysUnique(r);
    GetOfUnique(RecordFields(r), 0);
    GetOfUnique(RecordFields(r), 1);
    GetOfUnique(RecordFields(r), 2);
  }

  lemma ContentFields(r: Record)
    ensures Get(RecordFields(r), "prompt") == Some(JStr(r.prompt))
    ensures Get(RecordFields(r), "metadata") == Some(JObj(r.metadata))
  {
    RecordKeysUnique(r);
    GetOfUnique(RecordFields(r), 3);
    GetOfUnique(RecordFields(r), 4);
  }

  lemma AbsentField(r: Record, key: string)
    requires key == "id" || key == "body"
    ensures Get(RecordFields(r), key) == None
  {
    assert |"input_id"| == 8 && |"user_id"| == 7 && |"job_id"| == 6 && |"prompt"| == 6 && |"metadata"| == 8;
    assert !Has(RecordFields(r), key);
  }

  lemma FirstOfOne(row: Dict<Json>, key: string)
    ensures FirstOf(row, [key]) == GetOr(row, key, JStr(""))
  {
    assert [key][1..] == [];
  }

  lemma FirstOfTwo(row: Dict<Json>, key: string, other: string)
    ensures FirstOf(row, [key, other]) == GetOr(row, key, GetOr(row, other, JStr("")))
  {
    assert [key, other][1..] == [other];
    FirstOfOne(row, other);
  }

  lemma TextField(row: Dict<Json>, key: string, value: string)
    requires Get(row, key) == Some(JStr(value))
    ensures FirstOf(row, [key]) == JStr(value)
  {
    FirstOfOne(row, key);
  }

  lemma TextFieldOfTwo(row: Dict<Json>, key: string, other: string, value: string)
    requires Get(row, key) == Some(JStr(value)) && Get(row, other) == None
    ensures FirstOf(row, [key, other]) == JStr(value)
  {
    FirstOfTwo(row, key, other);
  }

  lemma FieldsMakeTheRecord(env: Env, r: Record)
    requires Trimmed(env, r)
    ensures RecordOf(env, JStr(r.inputId), JStr(r.userId), JStr(r.jobId), JStr(r.prompt), JObj(r.metadata)) == Some(r)
  {
  }

  lemma NormalizedReadsBack(env: Env, r: Record, row: Dict<Json>)
    requires Trimmed(env, r)
    requires FirstOf(row, ["input_id", "id"]) == JStr(r.inputId)
    requires FirstOf(row, ["user_id"]) == JStr(r.userId) && FirstOf(row, ["job_id"]) == JStr(r.jobId)
    requires Get(row, "prompt") == Some(JStr(r.prompt)) && Get(row, "metadata") == Some(JObj(r.metadata))
    ensures NormalizedRow(env, row) == Some(r)
  {
    FieldsMakeTheRecord(env, r);
  }

  /** A written record is read as itself: no field turns into another and no row is mistaken for a batch request. */
  lemma {:induction false} RecordReadsBack(env: Env, r: Record)
    requires Trimmed(env, r)
    ensures RecordFromRow(env, RecordJson(r)) == Some(r)
  {
    var row := RecordFields(r);
    IdentityFields(r);
    ContentFields(r);
    AbsentField(r, "id");
    AbsentField(r, "body");
    TextFieldOfTwo(row, "input_id", "id", r.inputId);
    TextField(row, "user_id", r.userId);
    TextField(row, "job_id", r.jobId);
    NormalizedReadsBack(env, r, row);
  }

  // What a row reads as, said of its fields.

  /** Python's `str`; a text is itself. */
  function Str(env: Env, j: Json): string {
    match j case JStr(s) => s case _ => env.text(j)
  }

  /**
   The value that `row.get(a) or row.get(b) or ... or ""` gives: the first of the fields
   that is there and not falsy.
   */
  ghost predicate IsFirstTruthy(row: Dict<Json>, keys: seq<string>, v: Json) {
    || (v == JStr("") && forall i | 0 <= i < |keys| :: IsFalsy(Get(row, keys[i])))
    || (exists i :: 0 <= i < |keys| && Get(row, keys[i]) == Some(v) && !IsFalsy(Some(v)) &&
          forall k | 0 <= k < i :: IsFalsy(Get(row, keys[k])))
  }

  lemma {:induction false} FirstOfMeans(row: Dict<Json>, keys: seq<string>)
    ensures IsFirstTruthy(row, keys, FirstOf(row, keys))
    decreases |keys|
  {
    if keys != [] {
      var v, rest := Get(row, keys[0]), keys[1..];
      if v.Some? { FalsyValues(v.value); }
      FirstOfMeans(row, rest);
      if IsFalsy(v) {
        FirstBehind(row, keys, FirstOf(row, rest));
      }
    }
  }

  lemma FirstBehind(row: Dict<Json>, keys: seq<string>, v: Json)
    requires keys != [] && IsFalsy(Get(row, keys[0])) && IsFirstTruthy(row, keys[1..], v)
    ensures IsFirstTruthy(row, keys, v)
  {
    var rest := keys[1..];
    if i :| 0 <= i < |rest| && Get(row, rest[i]) == Some(v) && !IsFalsy(Some(v)) &&
            forall k | 0 <= k < i :: IsFalsy(Get(row, rest[k])) {
      assert keys[i + 1] == rest[i];
      forall k | 0 <= k < i + 1 ensures IsFalsy(Get(row, keys[k])) { if k > 0 { assert keys[k] == rest[k - 1]; } }
    } else {
      forall i | 0 <= i < |keys| ensures IsFalsy(Get(row, keys[i])) { if i > 0 { assert keys[i] == rest[i - 1]; } }
    }
  }

  /** The trimmed text of the first truthy of the fields, or of the empty text. */
  ghost predicate IsNamedText(env: Env, row: Dict<Json>, keys: seq<string>, text: string) {
    exists v :: IsFirstTruthy(row, keys, v) && text == env.trim(Str(env, v))
  }

  lemma NamedText(env: Env, row: Dict<Json>, keys: seq<string>)
    ensures IsNamedText(env, row, keys, env.trim(TextOf(env, FirstOf(row, keys))))
  {
    FirstOfMeans(row, keys);
  }

  /** A message of the user with a text. */
  predicate IsUserText(m: Json) {
    && m.JObj? && Get(m.members, "role") == Some(JStr("user"))
    && match Get<Json>(m.members, "content") case Some(JStr(_)) => true case _ => false
  }

  /** The i-th message is the user's, has this text, and no later one has both. */
  ghost predicate SaysLast(messages: seq<Json>, i: nat, text: string) {
    && i < |messages| && IsUserText(messages[i]) && Get(messages[i].members, "content") == Some(JStr(text))
    && forall k | i < k < |messages| :: !IsUserText(messages[k])
  }

  lemma SaysLastStill(messages: seq<Json>, n: nat, i: nat, text: string)
    requires n + 1 == |messages| && SaysLast(messages[..n], i, text) && !IsUserText(messages[n])
    ensures SaysLast(messages, i, text)
  {
    assert forall k | i <= k < n :: messages[k] == messages[..n][k];
  }

  lemma {:induction false} LastUserMeans(messages: seq<Json>)
    ensures LastUserMessage(messages).None? <==> forall i | 0 <= i < |messages| :: !IsUserText(messages[i])
    ensures LastUserMessage(messages).Some? ==> exists i: nat :: SaysLast(messages, i, LastUserMessage(messages).value)
    decreases |messages|
  {
    if messages != [] {
      var n := |messages| - 1;
      var shorter := messages[..n];
      if !IsUserText(messages[n]) {
        LastUserMeans(shorter);
        if LastUserMessage(shorter).Some? {
          var i: nat :| SaysLast(shorter, i, LastUserMessage(shorter).value);
          SaysLastStill(messages, n, i, LastUserMessage(shorter).value);
        } else {
          assert forall i | 0 <= i < n :: messages[i] == shorter[i];
        }
      } else {
        assert SaysLast(messages, n, LastUserMessage(messages).value);
      }
    }
  }

  /** The last user text of the body's messages, or its compact text when there is none or it is empty. */
  ghost predicate IsBatchPrompt(env: Env, body: Dict<Json>, prompt: string) {
    || (prompt != "" &&
        exists messages, i: nat :: Get(body, "messages") == Some(JArr(messages)) && SaysLast(messages, i, prompt))
    || (prompt == env.compact(JObj(body)) && NoUserText(body))
  }

  /** The messages are no list, or their last user text is missing or empty. */
  ghost predicate NoUserText(body: Dict<Json>) {
    forall messages, i: nat, text |
      Get(body, "messages") == Some(JArr(messages)) && SaysLast(messages, i, text) :: text == ""
  }

  lemma LastOfAll(messages: seq<Json>, i: nat, text: string)
    requires SaysLast(messages, i, text)
    ensures LastUserMessage(messages) == Some(text)
  {
    LastUserMeans(messages);
    var k: nat :| SaysLast(messages, k, LastUserMessage(messages).value);
    assert k == i;
  }

  lemma BatchPromptMeans(env: Env, body: Dict<Json>)
    ensures IsBatchPrompt(env, body, BatchPrompt(env, body))
  {
    var messages := GetOr(body, "messages", JArr([]));
    var last := if messages.JArr? then LastUserMessage(messages.items) else None;
    if last.Some? && last.value != "" {
      assert LastUserMessage([]) == None;
      assert Get(body, "messages") == Some(messages);
      LastUserMeans(messages.items);
    } else {
      forall ms, i: nat, text | Get(body, "messages") == Some(JArr(ms)) && SaysLast(ms, i, text) ensures text == "" {
        LastOfAll(ms, i, text);
        assert messages == JArr(ms);
      }
    }
  }

  /** The request as the metadata keeps it: its method, url and body, null where missing. */
  ghost predicate KeepsRequest(metadata: Dict<Json>, row: Dict<Json>, body: Dict<Json>) {
    && |metadata| == 1
    && match Get<Json>(metadata, "openai_batch")
       case Some(JObj(kept)) =>
         && |kept| == 3
         && Get(kept, "method") == Some(if Get(row, "method").Some? then Get(row, "method").value else JNull)
         && Get(kept, "url") == Some(if Get(row, "url").Some? then Get(row, "url").value else JNull)
         && Get(kept, "body") == Some(JObj(body))
       case _ => false
  }

  lemma RequestKept(row: Dict<Json>, body: Dict<Json>)
    ensures KeepsRequest([("openai_batch",
      JObj([("method", OrNull(Get(row, "method"))), ("url", OrNull(Get(row, "url"))),
      ("body", JObj(body))]))], row, body)
  {
    var kept := [("method", OrNull(Get(row, "method"))), ("url", OrNull(Get(row, "url"))), ("body", JObj(body))];
    assert "method"[0] == 'm' && "url"[0] == 'u' && "body"[0] == 'b';
    GetOfUnique(kept, 0);
    GetOfUnique(kept, 1);
    GetOfUnique(kept, 2);
    var metadata: Dict<Json> := [("openai_batch", JObj(kept))];
    assert Get(metadata, "openai_batch") == Some(JObj(kept));
  }

  /** A row with an object body reads as a batch request: ids, prompt and metadata from its own fields. */
  lemma {:induction false} BatchRowMeans(env: Env, row: Dict<Json>, body: Dict<Json>)
    returns (r: Record, prompt: string)
    requires Get(row, "body") == Some(JObj(body))
    ensures RecordFromRow(env, JObj(row)) == Some(r)
    ensures IsNamedText(env, row, ["custom_id", "id", "input_id"], r.inputId)
    ensures IsNamedText(env, row, ["user_id"], r.userId)
    ensures IsNamedText(env, row, ["job_id"], r.jobId)
    ensures r.prompt == env.trim(prompt) && IsBatchPrompt(env, body, prompt)
    ensures KeepsRequest(r.metadata, row, body)
  {
    r := OpenAiBatchRow(env, row, body);
    prompt := BatchPrompt(env, body);
    NamedText(env, row, ["custom_id", "id", "input_id"]);
    NamedText(env, row, ["user_id"]);
    NamedText(env, row, ["job_id"]);
    BatchPromptMeans(env, body);
    RequestKept(row, body);
  }

  /** The metadata of a plain row: the field when it is truthy, else empty. */
  ghost predicate IsMetadata(row: Dict<Json>, metadata: Dict<Json>) {
    if IsFalsy(Get(row, "metadata")) then metadata == [] else Get(row, "metadata") == Some(JObj(metadata))
  }

  /** The prompt of a plain row, empty when absent. */
  ghost predicate IsPrompt(row: Dict<Json>, prompt: string) {
    Get(row, "prompt") == Some(JStr(prompt)) || (Get(row, "prompt") == None && prompt == "")
  }

  /**
   Exactly when a row without an object body reads, and as what: a text prompt and an
   object of metadata, with the ids of its fields.
   */
  lemma {:induction false} PlainRowMeans(env: Env, row: Dict<Json>)
    requires forall body :: Get(row, "body") != Some(JObj(body))
    ensures RecordFromRow(env, JObj(row)).Some? <==>
      exists prompt, metadata :: IsPrompt(row, prompt) && IsMetadata(row, metadata)
    ensures RecordFromRow(env, JObj(row)).Some? ==>
      var r := RecordFromRow(env, JObj(row)).value;
      && IsNamedText(env, row, ["input_id", "id"], r.inputId)
      && IsNamedText(env, row, ["user_id"], r.userId)
      && IsNamedText(env, row, ["job_id"], r.jobId)
      && (exists prompt :: IsPrompt(row, prompt) && r.prompt == env.trim(prompt))
      && IsMetadata(row, r.metadata)
  {
    var prompt, metadata := GetDefault(row, "prompt", JStr("")), GetOr(row, "metadata", JObj([]));
    assert RecordFromRow(env, JObj(row)) == NormalizedRow(env, row);
    NamedText(env, row, ["input_id", "id"]);
    NamedText(env, row, ["user_id"]);
    NamedText(env, row, ["job_id"]);
    MetadataMeans(row);
    if prompt.JStr? { assert IsPrompt(row, prompt.s); }
  }

  lemma MetadataMeans(row: Dict<Json>)
    ensures
      var v := GetOr(row, "metadata", JObj([]));
      if v.JObj? then IsMetadata(row, v.members) else forall metadata :: !IsMetadata(row, metadata)
  {
    var v := Get(row, "metadata");
    if v.Some? { FalsyValues(v.value); }
  }

  lemma {:induction false} OnlyObjectsRead(env: Env, j: Json)
    requires !j.JObj?
    ensures RecordFromRow(env, j) == None
  {
  }

  /** `raw.strip()` is empty. */
  predicate Blank(line: Bytes) {
    forall i | 0 <= i < |line| :: line[i] in {9, 10, 11, 12, 13, 32}
  }

  datatype LineError = NotJson | NotARecord

  function ParseLine(env: Env, line: Bytes): Result<Record, LineError> {
    match env.load(line)
    case None => Err(NotJson)
    case Some(row) =>
      match RecordFromRow(env, row)
      case None => Err(NotARecord)
      case Some(r) => Ok(r)
  }

  /** The records a generator yields before it ends or raises. */
  datatype Reading = Reading(records: seq<Record>, raised: Option<LineError>)

  function Then(a: Reading, b: Reading): Reading {
    if a.raised.Some? then a else Reading(a.records + b.records, b.raised)
  }

  /** One turn of the reading loop: blank lines are skipped, a bad line raises. */
  function ReadLine(env: Env, line: Bytes): Reading {
    if Blank(line) then Reading([], None)
    else
      match ParseLine(env, line)
      case Err(e) => Reading([], Some(e))
      case Ok(r) => Reading([r], None)
  }

  /** One line of a file: nothing but ASCII white space is skipped; other lines give their record or raise. */
  lemma {:induction false} LineMeans(env: Env, line: Bytes)
    ensures (forall b | b in line :: b == 32 || 9 <= b <= 13) ==> ReadLine(env, line) == Reading([], None)
    ensures (exists b :: b in line && b != 32 && !(9 <= b <= 13)) ==>
      match env.load(line)
      case None => ReadLine(env, line) == Reading([], Some(NotJson))
      case Some(row) =>
        match RecordFromRow(env, row)
        case None => ReadLine(env, line) == Reading([], Some(NotARecord))
        case Some(r) => ReadLine(env, line) == Reading([r], None)
  {
    if b :| b in line && b != 32 && !(9 <= b <= 13) {
      var i :| 0 <= i < |line| && line[i] == b;
      assert !Blank(line);
    } else {
      assert forall i | 0 <= i < |line| :: line[i] in line;
    }
  }

  function ReadLines(env: Env, lines: seq<Bytes>): Reading {
    if lines == [] then Reading([], None) else Then(ReadLine(env, lines[0]), ReadLines(env, lines[1..]))
  }

  function ReadBytes(env: Env, bytes: Bytes): Reading {
    ReadLines(env, SplitLines(bytes))
  }

  lemma ThenAssociates(a: Reading, b: Reading, c: Reading)
    ensures Then(Then(a, b), c) == Then(a, Then(b, c))
  {
  }

  lemma {:induction false} ReadLinesConcat(env: Env, a: seq<Bytes>, b: seq<Bytes>)
    ensures ReadLines(env, a + b) == Then(ReadLines(env, a), ReadLines(env, b))
    decreases |a|
  {
    if a == [] {
      assert a + b == b;
    } else {
      assert (a + b)[0] == a[0] && (a + b)[1..] == a[1..] + b;
      ReadLinesConcat(env, a[1..], b);
      ThenAssociates(ReadLine(env, a[0]), ReadLines(env, a[1..]), ReadLines(env, b));
    }
  }

  /** Reading goes on after a line that gives a record or nothing, and ends at the first that raises. */
  lemma {:induction false} ReadingStopsWhereItRaises(env: Env, lines: seq<Bytes>, line: Bytes)
    ensures ReadLines(env, []) == Reading([], None)
    ensures
      var before, next := ReadLines(env, lines), ReadLine(env, line);
      var r := ReadLines(env, lines + [line]);
      if before.raised.Some? then r == before
      else r.records == before.records + next.records && r.raised == next.raised
  {
    ReadLinesConcat(env, lines, [line]);
    assert [line][1..] == [];
  }

  /** Consuming pieces one after the other, stopping at the first that raises. */
  function ReadPieces(env: Env, pieces: seq<Bytes>): Reading {
    if pieces == [] then Reading([], None)
    else Then(ReadPieces(env, pieces[..|pieces| - 1]), ReadBytes(env, pieces[|pieces| - 1]))
  }

  lemma {:induction false} PiecesReadLikeTheirLines(env: Env, pieces: seq<Bytes>)
    ensures ReadPieces(env, pieces) == ReadLines(env, LinesOfAll(pieces))
    decreases |pieces|
  {
    if pieces != [] {
      var n := |pieces| - 1;
      PiecesReadLikeTheirLines(env, pieces[..n]);
      ReadLinesConcat(env, LinesOfAll(pieces[..n]), SplitLines(pieces[n]));
    }
  }

  /**
   Cutting a file into tiles is invisible to a reader: piece by piece it yields the
   same records, and raises at the same place, as the whole file does.
   */
  lemma {:induction false} TilesReadLikeTheFile(env: Env, file: Bytes, ranges: seq<Range>)
    requires Tiles(file, ranges, |file|)
    ensures forall i | 0 <= i < |ranges| :: ranges[i].0 <= ranges[i].1 <= |file|
    ensures ReadPieces(env, Pieces(file, ranges)) == ReadBytes(env, file)
  {
    TilesKeepLines(file, ranges, |file|);
    assert file[..|file|] == file;
    PiecesReadLikeTheirLines(env, Pieces(file, ranges));
  }

  // Writing.

  function LineOf(env: Env, r: Record): Bytes {
    env.dump(RecordJson(r)) + [LF]
  }

  /** The bytes written for a list of records. */
  function Framed(env: Env, records: seq<Record>): Bytes {
    if records == [] then [] else Framed(env, records[..|records| - 1]) + LineOf(env, records[|records| - 1])
  }

  /** A file of records is each record's text and a byte 10, in order, and nothing else. */
  lemma {:induction false} FramedMeans(env: Env, records: seq<Record>, r: Record)
    ensures Framed(env, []) == []
    ensures Framed(env, records + [r]) == Framed(env, records) + env.dump(RecordJson(r)) + [10]
  {
    assert (records + [r])[..|records|] == records;
  }

  /** The record's document prints as one line that is not blank, and parses back to itself. */
  predicate PrintsOneLine(env: Env, r: Record) {
    var line := env.dump(RecordJson(r));
    env.load(line) == Some(RecordJson(r)) && !Blank(line) && forall k | 0 <= k < |line| :: !IsBreak(line[k])
  }

  /** Records hold trimmed texts and print as lines: what is asked of the records written, and of no others. */
  predicate Writable(env: Env, r: Record) {
    Trimmed(env, r) && PrintsOneLine(env, r)
  }

  predicate AllWritable(env: Env, records: seq<Record>) {
    forall i | 0 <= i < |records| :: Writable(env, records[i])
  }

  /** The place of a document in a list, or its length. */
  function Slot(docs: seq<Json>, j: Json): (n: nat)
    ensures n <= |docs|
    ensures n < |docs| ==> docs[n] == j
    ensures n == |docs| ==> j !in docs
  {
    if docs == [] then 0
    else if docs[0] == j then 0
    else 1 + Slot(docs[1..], j)
  }

  /** Every list of records is writable in some environment, so the round trips speak of all lists. */
  lemma SomeEnvironmentWrites(records: seq<Record>) returns (env: Env)
    ensures AllWritable(env, records)
  {
    var docs := seq(|records|, i requires 0 <= i < |records| => RecordJson(records[i]));
    env := Env(
      j => seq(Slot(docs, j) + 1, _ => 65),
      line => if 0 < |line| <= |docs| then Some(docs[|line| - 1]) else None,
      _ => "", _ => "", s => s);
    forall i | 0 <= i < |records| ensures Writable(env, records[i]) {
      assert docs[i] == RecordJson(records[i]);
      var line := env.dump(docs[i]);
      assert line[0] == 65;
    }
  }

  lemma FramedEndsLine(env: Env, records: seq<Record>)
    ensures records == [] ==> Framed(env, records) == []
    ensures records != [] ==> EndsLine(Framed(env, records))
  {
  }

  lemma OneLineReadsBack(env: Env, r: Record)
    requires Writable(env, r)
    ensures ReadBytes(env, LineOf(env, r)) == Reading([r], None)
  {
    var line := env.dump(RecordJson(r));
    SplitOneLine(line);
    RecordReadsBack(env, r);
    assert [line][1..] == [];
    assert ReadLines(env, [line][1..]) == Reading([], None);
  }

  lemma ReadBytesConcat(env: Env, a: Bytes, b: Bytes)
    requires a == [] || EndsLine(a)
    ensures ReadBytes(env, a + b) == Then(ReadBytes(env, a), ReadBytes(env, b))
  {
    SplitAfterLineFeed(a, b);
    ReadLinesConcat(env, SplitLines(a), SplitLines(b));
  }

  lemma FramedSnoc(env: Env, records: seq<Record>, r: Record)
    ensures ReadBytes(env, Framed(env, records + [r])) ==
      Then(ReadBytes(env, Framed(env, records)), ReadBytes(env, LineOf(env, r)))
  {
    assert (records + [r])[..|records|] == records;
    FramedEndsLine(env, records);
    ReadBytesConcat(env, Framed(env, records), LineOf(env, r));
  }

  /** A reader that sees each further record where it was added sees all of them. */
  lemma {:induction false} OneByOne(read: seq<Record> -> Reading, records: seq<Record>, n: nat)
    requires n <= |records| && read([]) == Reading([], None)
    requires forall i | 0 <= i < |records| ::
      read(records[..i] + [records[i]]) == Then(read(records[..i]), Reading([records[i]], None))
    ensures read(records[..n]) == Reading(records[..n], None)
    decreases n
  {
    if n == 0 {
      assert records[..0] == [];
    } else {
      OneByOne(read, records, n - 1);
      assert records[..n] == records[..n - 1] + [records[n - 1]];
    }
  }

  function Reader(env: Env): seq<Record> -> Reading {
    (rs: seq<Record>) => ReadBytes(env, Framed(env, rs))
  }

  /** The framing round trip: what was written is read back, in order. */
  lemma {:induction false} FramingRoundTrip(env: Env, records: seq<Record>)
    requires AllWritable(env, records)
    ensures ReadBytes(env, Framed(env, records)) == Reading(records, None)
  {
    forall i | 0 <= i < |records|
      ensures Reader(env)(records[..i] + [records[i]]) == Then(Reader(env)(records[..i]), Reading([records[i]], None))
    {
      FramedSnoc(env, records[..i], records[i]);
      OneLineReadsBack(env, records[i]);
    }
    NothingReadsBack(env);
    OneByOne(Reader(env), records, |records|);
    assert records[..|records|] == records;
  }

  lemma NothingReadsBack(env: Env)
    ensures Reader(env)([]) == Reading([], None)
  {
  }
}
