/** Evidence payloads: the row encoder and decoder around the normaliser. */
module EvidenceCodec {
  import opened Results
  import opened Dicts
  import opened JsonSafe

  /** Stored in columns of their own, not in the payload. */
  datatype Column = RowId | Tick | DeployTimestamp | JobId | RankId

  /** Passed through by the codec without looking inside. */
  datatype Opaque =
    | X | VObserved | VPredicted | YObserved | YPredicted | YObservedMean | ResidualsPerV | ResidualsPerY
    | MechanismIds | QLabel | IcpResult | WSnapshot | ZStarSnapshot
    | TheoryBlob | DeploymentId | AvailableTimestamp | PredictionLineage

  datatype Field = Indexed(column: Column) | EnvLabel | Cusum | JRealized | SigmaRealized | Plain(name: Opaque)

  const INDEXED: set<Field> := set c: Column :: Indexed(c)
  const FIELDS: set<Field> := INDEXED + {EnvLabel, Cusum, JRealized, SigmaRealized} + set p: Opaque :: Plain(p)

  lemma EveryField(f: Field)
    ensures f in FIELDS
    ensures f in INDEXED <==> f.Indexed?
  {
  }

  type PlainFields = m: map<Opaque, Value> | forall p: Opaque :: p in m witness map p: Opaque :: VNone

  datatype Columns = Columns(rowId: string, tick: int, deployTimestamp: real, jobId: string, rankId: string)

  datatype EvidenceRow = EvidenceRow(
    columns: Columns,
    envLabel: seq<Value>,
    plain: PlainFields,
    cusum: Value,
    jRealized: real,
    sigmaRealized: real)

  /** `asdict(row)`, field by field. */
  function FieldOf(row: EvidenceRow, f: Field): Value {
    match f
    case Indexed(c) => ColumnOf(row.columns, c)
    case EnvLabel => VTuple(row.envLabel)
    case Cusum => row.cusum
    case JRealized => VFloat(row.jRealized)
    case SigmaRealized => VFloat(row.sigmaRealized)
    case Plain(p) => row.plain[p]
  }

  function ColumnOf(columns: Columns, c: Column): Value {
    match c
    case RowId => VStr(columns.rowId)
    case Tick => VInt(columns.tick)
    case DeployTimestamp => VFloat(columns.deployTimestamp)
    case JobId => VStr(columns.jobId)
    case RankId => VStr(columns.rankId)
  }

  function AsDict(row: EvidenceRow): map<Field, Value> {
    map f | f in FIELDS :: FieldOf(row, f)
  }

  type Payload = map<Field, Value>

  function PayloadOf(row: EvidenceRow): Payload {
    map f | f in FIELDS && !f.Indexed? :: Safe(FieldOf(row, f))
  }

  /** Normalising what is left of the dict is normalising the fields that are not indexed. */
  lemma NormalisedFields(row: EvidenceRow, body: map<Field, Value>)
    requires body == AsDict(row) - INDEXED
    ensures (map f | f in body :: Safe(body[f])) == PayloadOf(row)
  {
    forall f: Field ensures f in body <==> f in FIELDS && !f.Indexed? { EveryField(f); }
  }

  /** Pops keys one by one, in any order. */
  method PopAll(dict: map<Field, Value>, popped: set<Field>) returns (body: map<Field, Value>)
    ensures body == dict - popped
  {
    body := dict;
    var keys := popped;
    while keys != {}
      invariant keys <= popped && body == dict - (popped - keys)
      decreases |keys|
    {
      var key :| key in keys;
      body := body - {key};
      keys := keys - {key};
    }
  }

  /** Pops the indexed fields, then normalises what is left. */
  method EvidenceRowToPayload(row: EvidenceRow) returns (payload: Payload)
    ensures payload == PayloadOf(row)
    ensures forall f: Field :: (f in payload <==> !f.Indexed?) && (f in payload ==> payload[f] == Safe(FieldOf(row, f)))
  {
    forall f: Field ensures f in FIELDS { EveryField(f); }
    var body := PopAll(AsDict(row), INDEXED);
    NormalisedFields(row, body);
    payload := map f | f in body :: Safe(body[f]);
  }

  function Lookup(payload: Payload, f: Field, default: Value): Value {
    if f in payload then payload[f] else default
  }

  function DefaultOf(p: Opaque): Value {
    if p == MechanismIds then VList([])
    else if p in {TheoryBlob, DeploymentId, AvailableTimestamp, PredictionLineage} then VNone
    else VDict([])
  }

  const BLANK_ENV := [VStr(""), VStr(""), VStr(""), VStr(""), VStr("")]

  /** The first five parts of a long enough list or tuple, else five blanks. */
  function EnvOf(env: Value): seq<Value> {
    if (env.VList? || env.VTuple?) && |env.items| >= 5 then env.items[..5] else BLANK_ENV
  }

  /** Two-element lists become pairs; every other entry is dropped. */
  function PairsOf(entries: seq<(Key, Value)>): seq<(Key, Value)> {
    if entries == [] then []
    else
      var e := entries[|entries| - 1];
      PairsOf(entries[..|entries| - 1])
        + (if e.1.VList? && |e.1.items| == 2 then [(e.0, VTuple([e.1.items[0], e.1.items[1]]))] else [])
  }

  method TupleDict(entries: seq<(Key, Value)>) returns (out: seq<(Key, Value)>)
    ensures out == PairsOf(entries)
  {
    out := [];
    for i := 0 to |entries|
      invariant out == PairsOf(entries[..i])
    {
      var key, value := entries[i].0, entries[i].1;
      assert entries[..i + 1][..i] == entries[..i];
      if value.VList? && |value.items| == 2 {
        out := out + [(key, VTuple([value.items[0], value.items[1]]))];
      }
    }
    assert entries[..|entries|] == entries;
  }

  /** `float(...)`; None where it raises. */
  function AsFloat(v: Value): Option<real> {
    match v
    case VFloat(x) => Some(x)
    case VInt(n) => Some(n as real)
    case VBool(b) => Some(if b then 1.0 else 0.0)
    case _ => None
  }

  /** A row from its payload fields; None where the decoder raises. */
  function RowOf(columns: Columns, env: Value, plain: PlainFields, cusum: Value, jRealized: Value,
      sigma: Value): Option<EvidenceRow> {
    if cusum.VDict? && AsFloat(jRealized).Some? && AsFloat(sigma).Some? then
      Some(EvidenceRow(columns, EnvOf(env), plain, VDict(PairsOf(cusum.entries)), AsFloat(jRealized).value,
        AsFloat(sigma).value))
    else None
  }

  function PlainOf(payload: Payload): PlainFields {
    map p: Opaque :: Lookup(payload, Plain(p), DefaultOf(p))
  }

  function RowFromPayload(columns: Columns, payload: Payload): Option<EvidenceRow> {
    RowOf(columns, Lookup(payload, EnvLabel, VList(BLANK_ENV)), PlainOf(payload), Lookup(payload, Cusum, VDict([])),
          Lookup(payload, JRealized, VFloat(0.0)), Lookup(payload, SigmaRealized, VFloat(0.0)))
  }

  /** CUSUM values as the row type declares them: pairs, here of JSON values under distinct text keys. */
  predicate JsonPairs(v: Value) {
    && v.VDict? && PlainEntries(v.entries)
    && forall i | 0 <= i < |v.entries| :: JsonPair(v.entries[i].1)
  }

  predicate JsonPair(v: Value) {
    v.VTuple? && |v.items| == 2 && IsJson(v.items[0]) && IsJson(v.items[1])
  }

  predicate JsonLabel(env: seq<Value>) {
    |env| == 5 && forall i | 0 <= i < 5 :: IsJson(env[i])
  }

  predicate JsonFields(plain: PlainFields) {
    forall p: Opaque :: IsJson(plain[p])
  }

  /** Five JSON label parts, JSON in every opaque field, JSON pairs in CUSUM. */
  predicate Canonical(row: EvidenceRow) {
    JsonLabel(row.envLabel) && JsonFields(row.plain) && JsonPairs(row.cusum)
  }

  /** All arrays in the row list JSON values. */
  predicate CleanRow(row: EvidenceRow) {
    && (forall i | 0 <= i < |row.envLabel| :: Clean(row.envLabel[i]))
    && (forall p: Opaque :: Clean(row.plain[p]))
    && Clean(row.cusum)
  }

  lemma PayloadField(row: EvidenceRow, f: Field, default: Value)
    requires !f.Indexed?
    ensures Lookup(PayloadOf(row), f, default) == Safe(FieldOf(row, f))
  {
    EveryField(f);
  }

  function SafePlain(plain: PlainFields): PlainFields {
    map p: Opaque :: Safe(plain[p])
  }

  lemma SamePlain(a: PlainFields, b: PlainFields)
    requires forall p: Opaque :: a[p] == b[p]
    ensures a == b
  {
    assert a.Keys == b.Keys;
  }

  lemma PlainIs(payload: Payload, plain: PlainFields)
    requires forall p: Opaque :: Plain(p) in payload && payload[Plain(p)] == plain[p]
    ensures PlainOf(payload) == plain
  {
    forall p: Opaque ensures PlainOf(payload)[p] == plain[p] { }
    SamePlain(PlainOf(payload), plain);
  }

  lemma PlainInPayload(row: EvidenceRow, p: Opaque)
    ensures Plain(p) in PayloadOf(row) && PayloadOf(row)[Plain(p)] == SafePlain(row.plain)[p]
  {
    EveryField(Plain(p));
  }

  lemma PlainPayload(row: EvidenceRow)
    ensures PlainOf(PayloadOf(row)) == SafePlain(row.plain)
  {
    var payload, plain := PayloadOf(row), SafePlain(row.plain);
    forall p: Opaque ensures Plain(p) in payload && payload[Plain(p)] == plain[p] { PlainInPayload(row, p); }
    PlainIs(payload, plain);
  }

  lemma FieldsAfterTrip(row: EvidenceRow)
    ensures Lookup(PayloadOf(row), EnvLabel, VList(BLANK_ENV)) == VList(SafeAll(row.envLabel))
    ensures Lookup(PayloadOf(row), Cusum, VDict([])) == Safe(row.cusum)
    ensures Lookup(PayloadOf(row), JRealized, VFloat(0.0)) == VFloat(row.jRealized)
    ensures Lookup(PayloadOf(row), SigmaRealized, VFloat(0.0)) == VFloat(row.sigmaRealized)
  {
    PayloadField(row, Cusum, VDict([]));
    PayloadField(row, JRealized, VFloat(0.0));
    PayloadField(row, SigmaRealized, VFloat(0.0));
    PayloadField(row, EnvLabel, VList(BLANK_ENV));
  }

  /** What a row is after one trip through its payload. */
  lemma OneTrip(row: EvidenceRow)
    ensures RowFromPayload(row.columns, PayloadOf(row)) ==
      RowOf(row.columns, VList(SafeAll(row.envLabel)), SafePlain(row.plain), Safe(row.cusum), VFloat(row.jRealized),
        VFloat(row.sigmaRealized))
  {
    FieldsAfterTrip(row);
    PlainPayload(row);
  }

  lemma {:induction false} PairsArePairs(entries: seq<(Key, Value)>)
    ensures forall i | 0 <= i < |PairsOf(entries)| ::
      PairsOf(entries)[i].1.VTuple? && |PairsOf(entries)[i].1.items| == 2
    ensures |PairsOf(entries)| <= |entries|
    decreases |entries|
  {
    if entries != [] { PairsArePairs(entries[..|entries| - 1]); }
  }

  /** When every value is a pair in list form, converting keeps all entries. */
  lemma {:induction false} PairsOfLists(entries: seq<(Key, Value)>)
    requires forall i | 0 <= i < |entries| :: entries[i].1.VList? && |entries[i].1.items| == 2
    ensures |PairsOf(entries)| == |entries|
    ensures forall i | 0 <= i < |entries| ::
      PairsOf(entries)[i] == (entries[i].0, VTuple([entries[i].1.items[0], entries[i].1.items[1]]))
    decreases |entries|
  {
    if entries != [] { PairsOfLists(entries[..|entries| - 1]); }
  }

  lemma {:induction false} FewPairsMissOne(entries: seq<(Key, Value)>)
    requires |PairsOf(entries)| == |entries|
    ensures forall i | 0 <= i < |entries| :: entries[i].1.VList? && |entries[i].1.items| == 2
    decreases |entries|
  {
    if entries != [] {
      PairsArePairs(entries[..|entries| - 1]);
      FewPairsMissOne(entries[..|entries| - 1]);
    }
  }

  lemma PairSafe(v: Value)
    requires v.VTuple? && |v.items| == 2
    ensures Safe(v) == VList([Safe(v.items[0]), Safe(v.items[1])])
    ensures VTuple([Safe(v.items[0]), Safe(v.items[1])]) == v <==> JsonPair(v)
  {
    SafeFixesJson(v.items[0]);
    SafeFixesJson(v.items[1]);
    assert SafeAll(v.items) == [Safe(v.items[0]), Safe(v.items[1])];
    assert v.items == [v.items[0], v.items[1]];
  }

  lemma CusumKept(v: Value)
    requires JsonPairs(v)
    ensures Safe(v).VDict? && VDict(PairsOf(Safe(v).entries)) == v
  {
    var listed := Safe(v).entries;
    PlainEntriesMapped(v, |v.entries|);
    forall i | 0 <= i < |v.entries| ensures PairInListForm(v.entries[i], listed[i]) { PairListed(v, i); }
    PairsRestored(v.entries, listed);
  }

  predicate PairInListForm(e: (Key, Value), listed: (Key, Value)) {
    e.1.VTuple? && |e.1.items| == 2 && listed == (e.0, VList([e.1.items[0], e.1.items[1]]))
  }

  lemma PairsAreLists(entries: seq<(Key, Value)>, listed: seq<(Key, Value)>)
    requires |listed| == |entries| && forall i | 0 <= i < |entries| :: PairInListForm(entries[i], listed[i])
    ensures forall i | 0 <= i < |listed| :: listed[i].1.VList? && |listed[i].1.items| == 2
  {
    forall i | 0 <= i < |listed| ensures listed[i].1.VList? && |listed[i].1.items| == 2 {
      assert PairInListForm(entries[i], listed[i]);
    }
  }

  lemma PairRestored(e: (Key, Value), listed: (Key, Value))
    requires PairInListForm(e, listed)
    ensures (listed.0, VTuple([listed.1.items[0], listed.1.items[1]])) == e
  {
    assert e.1.items == [e.1.items[0], e.1.items[1]];
  }

  lemma PairsRestored(entries: seq<(Key, Value)>, listed: seq<(Key, Value)>)
    requires |listed| == |entries| && forall i | 0 <= i < |entries| :: PairInListForm(entries[i], listed[i])
    ensures PairsOf(listed) == entries
  {
    PairsAreLists(entries, listed);
    PairsOfLists(listed);
    forall i | 0 <= i < |entries| ensures PairsOf(listed)[i] == entries[i] { PairRestored(entries[i], listed[i]); }
  }

  lemma PairListed(v: Value, i: nat)
    requires JsonPairs(v) && i < |v.entries|
    ensures |Safe(v).entries| == |v.entries| && PairInListForm(v.entries[i], Safe(v).entries[i])
  {
    var pair := v.entries[i].1;
    PlainEntriesMapped(v, |v.entries|);
    assert JsonPair(pair) && v.entries[i].0.KText?;
    PairSafe(pair);
    SafeFixesJson(pair.items[0]);
    SafeFixesJson(pair.items[1]);
    assert SafeEntries(v, |v.entries|)[i] == (v.entries[i].0.text, Safe(pair));
  }

  /** The CUSUM field survives a trip exactly when it is a dict of JSON pairs. */
  lemma CusumTrip(v: Value)
    requires Safe(v).VDict?
    ensures VDict(PairsOf(Safe(v).entries)) == v <==> JsonPairs(v)
  {
    if JsonPairs(v) {
      CusumKept(v);
    } else if VDict(PairsOf(Safe(v).entries)) == v {
      CusumFixed(v);
    }
  }

  lemma CusumFixed(v: Value)
    requires v.VDict? && PairsOf(Safe(v).entries) == v.entries
    ensures JsonPairs(v)
  {
    var n := |v.entries|;
    var d := SafeEntries(v, n);
    var listed := Safe(v).entries;
    SafeEntriesUnique(v, n);
    UniqueAreUniqueTexts(d);
    PairsArePairs(listed);
    SafeEntriesBound(v, n);
    FewPairsMissOne(listed);
    PairsOfLists(listed);
    assert PlainEntries(v.entries) by {
      assert forall i | 0 <= i < n :: v.entries[i].0 == listed[i].0;
    }
    PlainEntriesMapped(v, n);
    forall i | 0 <= i < n ensures JsonPair(v.entries[i].1) {
      assert d[i] == (v.entries[i].0.text, Safe(v.entries[i].1));
      assert listed[i].1 == Safe(v.entries[i].1);
      PairSafe(v.entries[i].1);
    }
  }

  lemma {:induction false} SafeEntriesBound(v: Value, n: nat)
    requires v.VDict? && n <= |v.entries|
    ensures |SafeEntries(v, n)| <= n
    decreases n
  {
    if n > 0 {
      SafeEntriesBound(v, n - 1);
      var i := PutShape(SafeEntries(v, n - 1), v.entries[n - 1].0.text, Safe(v.entries[n - 1].1));
    }
  }

  lemma AllSafe(items: seq<Value>)
    ensures SafeAll(items) == items <==> forall i | 0 <= i < |items| :: IsJson(items[i])
  {
    forall i | 0 <= i < |items| ensures Safe(items[i]) == items[i] <==> IsJson(items[i]) { SafeFixesJson(items[i]); }
  }

  lemma PlainTrip(plain: PlainFields)
    ensures SafePlain(plain) == plain <==> JsonFields(plain)
  {
    forall p: Opaque ensures Safe(plain[p]) == plain[p] <==> IsJson(plain[p]) { SafeFixesJson(plain[p]); }
    if SafePlain(plain) == plain {
      forall p: Opaque ensures IsJson(plain[p]) { assert SafePlain(plain)[p] == Safe(plain[p]); }
    }
  }

  lemma EnvTrip(env: seq<Value>)
    ensures EnvOf(VList(SafeAll(env))) == env <==> JsonLabel(env)
  {
    AllSafe(env);
    assert |EnvOf(VList(SafeAll(env)))| == 5;
    assert |env| == 5 ==> SafeAll(env)[..5] == SafeAll(env);
  }

  /** The CUSUM field after a trip: its pairs, or a failure to decode. */
  lemma {:induction false} CusumSurvivesIff(v: Value)
    ensures Safe(v).VDict? && VDict(PairsOf(Safe(v).entries)) == v <==> JsonPairs(v)
  {
    if JsonPairs(v) {
      CusumKept(v);
    } else if Safe(v).VDict? {
      CusumTrip(v);
    }
  }

  lemma RowOfIff(row: EvidenceRow, env: Value, plain: PlainFields, cusum: Value)
    ensures RowOf(row.columns, env, plain, cusum, VFloat(row.jRealized), VFloat(row.sigmaRealized)) == Some(row) <==>
      EnvOf(env) == row.envLabel && plain == row.plain && cusum.VDict? && VDict(PairsOf(cusum.entries)) == row.cusum
  {
  }

  lemma TripKeepsRowIff(row: EvidenceRow)
    ensures RowFromPayload(row.columns, PayloadOf(row)) == Some(row) <==>
      && EnvOf(VList(SafeAll(row.envLabel))) == row.envLabel
      && SafePlain(row.plain) == row.plain
      && Safe(row.cusum).VDict? && VDict(PairsOf(Safe(row.cusum).entries)) == row.cusum
  {
    OneTrip(row);
    RowOfIff(row, VList(SafeAll(row.envLabel)), SafePlain(row.plain), Safe(row.cusum));
  }

  /** Encoding and decoding a row gives the same row back exactly when it is canonical. */
  lemma {:induction false} RoundTripIff(row: EvidenceRow)
    ensures RowFromPayload(row.columns, PayloadOf(row)) == Some(row) <==> Canonical(row)
  {
    TripKeepsRowIff(row);
    EnvTrip(row.envLabel);
    PlainTrip(row.plain);
    CusumSurvivesIff(row.cusum);
  }

  lemma BlankIsJson()
    ensures JsonLabel(BLANK_ENV)
  {
  }

  // What a payload decodes to, field by field.

  /** A number of the payload: a float, an integer or a boolean, and zero where missing. */
  predicate IsNumber(payload: Payload, f: Field, x: real) {
    if f in payload then
      || payload[f] == VFloat(x)
      || (payload[f] == VInt(x.Floor) && x == x.Floor as real)
      || (payload[f] == VBool(true) && x == 1.0)
      || (payload[f] == VBool(false) && x == 0.0)
    else x == 0.0
  }

  lemma FloatMeans(payload: Payload, f: Field)
    ensures
      match AsFloat(Lookup(payload, f, VFloat(0.0)))
      case Some(x) => IsNumber(payload, f, x)
      case None => forall x :: !IsNumber(payload, f, x)
  {
  }

  /** The label: the first five parts of a list or tuple that has them, else five empty texts. */
  predicate IsLabel(payload: Payload, env: seq<Value>) {
    && |env| == 5
    && forall i | 0 <= i < 5 ::
         env[i] ==
           if EnvLabel in payload && (payload[EnvLabel].VList? || payload[EnvLabel].VTuple?) &&
             |payload[EnvLabel].items| >= 5
           then payload[EnvLabel].items[i]
           else VStr("")
  }

  /** An opaque field is passed on; a missing one is an empty list, nothing, or an empty dict. */
  predicate IsPassedOn(payload: Payload, p: Opaque, v: Value) {
    if Plain(p) in payload then v == payload[Plain(p)]
    else
      match p
      case MechanismIds => v == VList([])
      case TheoryBlob => v == VNone
      case DeploymentId => v == VNone
      case AvailableTimestamp => v == VNone
      case PredictionLineage => v == VNone
      case _ => v == VDict([])
  }

  /** The CUSUM pairs are the two-element lists of the stored dict, under their keys and in their order. */
  ghost predicate AreThePairs(payload: Payload, pairs: seq<(Key, Value)>) {
    if Cusum in payload then payload[Cusum].VDict? && KeptInOrder(payload[Cusum].entries, pairs)
    else pairs == []
  }

  ghost predicate KeptInOrder(entries: seq<(Key, Value)>, pairs: seq<(Key, Value)>) {
    exists at: seq<nat> :: |at| == |pairs| && Picks(entries, pairs, at)
  }

  /** `at` picks, from left to right, all entries that are two-element lists; each gives its pair. */
  ghost predicate Picks(entries: seq<(Key, Value)>, pairs: seq<(Key, Value)>, at: seq<nat>)
    requires |at| == |pairs|
  {
    && (forall k | 0 <= k < |at| :: at[k] < |entries| && IsPairOf(entries[at[k]], pairs[k]))
    && (forall k, m | 0 <= k < m < |at| :: at[k] < at[m])
    && (forall i | 0 <= i < |entries| && entries[i].1.VList? && |entries[i].1.items| == 2 :: i in at)
  }

  predicate IsPairOf(entry: (Key, Value), pair: (Key, Value)) {
    && pair.0 == entry.0 && entry.1.VList? && |entry.1.items| == 2
    && pair.1.VTuple? && |pair.1.items| == 2
    && pair.1.items[0] == entry.1.items[0] && pair.1.items[1] == entry.1.items[1]
  }

  lemma {:induction false} PairsArePicked(entries: seq<(Key, Value)>) returns (at: seq<nat>)
    ensures |at| == |PairsOf(entries)| && Picks(entries, PairsOf(entries), at)
    decreases |entries|
  {
    if entries == [] {
      at := [];
    } else {
      var n := |entries| - 1;
      at := PairsArePicked(entries[..n]);
      assert entries == entries[..n] + [entries[n]];
      if IsKept(entries[n]) {
        PickOneMore(entries[..n], PairsOf(entries[..n]), at, entries[n]);
        at := at + [n];
      } else {
        PickNoMore(entries[..n], PairsOf(entries[..n]), at, entries[n]);
        assert PairsOf(entries) == PairsOf(entries[..n]);
      }
    }
  }

  lemma PickOneMore(entries: seq<(Key, Value)>, pairs: seq<(Key, Value)>, at: seq<nat>, e: (Key, Value))
    requires |at| == |pairs| && Picks(entries, pairs, at) && IsKept(e)
    ensures Picks(entries + [e], pairs + [(e.0, VTuple([e.1.items[0], e.1.items[1]]))], at + [|entries|])
  {
    var all, more := entries + [e], at + [|entries|];
    assert more[|at|] == |entries|;
    forall i | 0 <= i < |all| && all[i].1.VList? && |all[i].1.items| == 2 ensures i in more {
      if i < |entries| { assert entries[i] == all[i] && i in at; }
    }
  }

  lemma PickNoMore(entries: seq<(Key, Value)>, pairs: seq<(Key, Value)>, at: seq<nat>, e: (Key, Value))
    requires |at| == |pairs| && Picks(entries, pairs, at) && !IsKept(e)
    ensures Picks(entries + [e], pairs, at)
  {
    var all := entries + [e];
    forall i | 0 <= i < |all| && all[i].1.VList? && |all[i].1.items| == 2 ensures i in at {
      if i < |entries| { assert entries[i] == all[i]; }
    }
  }

  lemma LabelMeans(payload: Payload)
    ensures IsLabel(payload, EnvOf(Lookup(payload, EnvLabel, VList(BLANK_ENV))))
  {
  }

  lemma PlainMeans(payload: Payload, p: Opaque)
    ensures IsPassedOn(payload, p, PlainOf(payload)[p])
  {
  }

  lemma PairsMean(payload: Payload)
    ensures
      var cusum := Lookup(payload, Cusum, VDict([]));
      cusum.VDict? ==> AreThePairs(payload, PairsOf(cusum.entries))
  {
    var cusum := Lookup(payload, Cusum, VDict([]));
    if cusum.VDict? { var at := PairsArePicked(cusum.entries); }
  }

  /** A payload decodes unless its CUSUM is no dict or one of its two numbers is none; each field as said above. */
  lemma {:induction false} DecodedMeans(columns: Columns, payload: Payload)
    ensures
      match RowFromPayload(columns, payload)
      case Some(row) =>
        && row.columns == columns
        && IsLabel(payload, row.envLabel)
        && (forall p: Opaque :: IsPassedOn(payload, p, row.plain[p]))
        && row.cusum.VDict? && AreThePairs(payload, row.cusum.entries)
        && IsNumber(payload, JRealized, row.jRealized)
        && IsNumber(payload, SigmaRealized, row.sigmaRealized)
      case None =>
        || (Cusum in payload && !payload[Cusum].VDict?)
        || (forall x :: !IsNumber(payload, JRealized, x))
        || (forall x :: !IsNumber(payload, SigmaRealized, x))
  {
    FloatMeans(payload, JRealized);
    FloatMeans(payload, SigmaRealized);
    LabelMeans(payload);
    PairsMean(payload);
    forall p: Opaque ensures IsPassedOn(payload, p, PlainOf(payload)[p]) { PlainMeans(payload, p); }
  }

  // Exactly when a second trip changes nothing.

  predicate IsKept(e: (Key, Value)) {
    e.1.VList? && |e.1.items| == 2
  }

  predicate KeptOk(e: (Key, Value))
    requires IsKept(e)
  {
    e.0.KText? && IsJson(e.1.items[0]) && IsJson(e.1.items[1])
  }

  /** The two-element lists of a dict hold JSON under distinct text keys. */
  predicate KeptPairsAreJson(entries: seq<(Key, Value)>) {
    && (forall i | 0 <= i < |entries| && IsKept(entries[i]) :: KeptOk(entries[i]))
    && (forall i, j | 0 <= i < j < |entries| && IsKept(entries[i]) && IsKept(entries[j]) ::
          entries[i].0.text != entries[j].0.text)
  }

  lemma {:induction false} PairComesFromKept(entries: seq<(Key, Value)>, k: nat) returns (i: nat)
    requires k < |PairsOf(entries)|
    ensures i < |entries| && IsKept(entries[i])
    ensures PairsOf(entries)[k] == (entries[i].0, VTuple([entries[i].1.items[0], entries[i].1.items[1]]))
    decreases |entries|
  {
    i := |entries| - 1;
    if k < |PairsOf(entries[..i])| { i := PairComesFromKept(entries[..i], k); }
  }

  lemma {:induction false} KeptBecomesPair(entries: seq<(Key, Value)>, i: nat) returns (k: nat)
    requires i < |entries| && IsKept(entries[i])
    ensures k < |PairsOf(entries)|
    ensures PairsOf(entries)[k] == (entries[i].0, VTuple([entries[i].1.items[0], entries[i].1.items[1]]))
    decreases |entries|
  {
    var n := |entries| - 1;
    if i < n {
      k := KeptBecomesPair(entries[..n], i);
    } else {
      k := |PairsOf(entries[..n])|;
    }
  }

  predicate PairOk(e: (Key, Value)) {
    e.0.KText? && JsonPair(e.1)
  }

  lemma JsonPairsSplit(pairs: seq<(Key, Value)>)
    ensures JsonPairs(VDict(pairs)) <==>
      (forall k | 0 <= k < |pairs| :: PairOk(pairs[k])) &&
        (forall k, m | 0 <= k < m < |pairs| :: pairs[k].0.text != pairs[m].0.text)
  {
    if JsonPairs(VDict(pairs)) {
      forall k | 0 <= k < |pairs| ensures PairOk(pairs[k]) { assert JsonPair(VDict(pairs).entries[k].1); }
    }
  }

  predicate FreshText(entries: seq<(Key, Value)>, text: string) {
    forall i | 0 <= i < |entries| && IsKept(entries[i]) :: entries[i].0.text != text
  }

  lemma FreshInPairs(entries: seq<(Key, Value)>, text: string)
    ensures FreshText(entries, text) <==> forall k | 0 <= k < |PairsOf(entries)| :: PairsOf(entries)[k].0.text != text
  {
    var pairs := PairsOf(entries);
    if FreshText(entries, text) {
      forall k | 0 <= k < |pairs| ensures pairs[k].0.text != text { var i := PairComesFromKept(entries, k); }
    } else {
      var i :| 0 <= i < |entries| && IsKept(entries[i]) && entries[i].0.text == text;
      var k := KeptBecomesPair(entries, i);
    }
  }

  lemma KeptSnoc(entries: seq<(Key, Value)>, e: (Key, Value))
    ensures KeptPairsAreJson(entries + [e]) <==>
      KeptPairsAreJson(entries) && (IsKept(e) ==> KeptOk(e) && FreshText(entries, e.0.text))
  {
    var all := entries + [e];
    assert all[|entries|] == e && forall i | 0 <= i < |entries| :: all[i] == entries[i];
    if KeptPairsAreJson(all) {
      forall i | 0 <= i < |entries| && IsKept(entries[i]) ensures KeptOk(entries[i]) { assert KeptOk(all[i]); }
      if IsKept(e) {
        assert KeptOk(all[|entries|]);
        forall i | 0 <= i < |entries| && IsKept(entries[i])
          ensures entries[i].0.text != e.0.text
        {
          assert IsKept(all[i]);
        }
      }
    }
  }

  lemma PairsSnoc(pairs: seq<(Key, Value)>, x: (Key, Value))
    ensures JsonPairs(VDict(pairs + [x])) <==>
      JsonPairs(VDict(pairs)) && PairOk(x) && forall k | 0 <= k < |pairs| :: pairs[k].0.text != x.0.text
  {
    var all := pairs + [x];
    assert all[|pairs|] == x && forall k | 0 <= k < |pairs| :: all[k] == pairs[k];
    JsonPairsSplit(pairs);
    JsonPairsSplit(all);
  }

  lemma {:induction false} KeptPairs(entries: seq<(Key, Value)>)
    ensures JsonPairs(VDict(PairsOf(entries))) <==> KeptPairsAreJson(entries)
    decreases |entries|
  {
    if entries != [] {
      var before, e := entries[..|entries| - 1], entries[|entries| - 1];
      KeptPairs(before);
      assert entries == before + [e];
      KeptSnoc(before, e);
      if IsKept(e) {
        FreshInPairs(before, e.0.text);
        PairsSnoc(PairsOf(before), (e.0, VTuple([e.1.items[0], e.1.items[1]])));
      } else {
        assert PairsOf(before) + [] == PairsOf(before);
      }
    }
  }

  /** If it normalises to a two-element list, that list holds JSON. */
  predicate PairSettles(v: Value) {
    match v
    case VTuple(items) => |items| == 2 ==> Settles(items[0]) && Settles(items[1])
    case VList(items) => |items| == 2 ==> Settles(items[0]) && Settles(items[1])
    case VArray(t) => t.VList? && |t.items| == 2 ==> IsJson(t.items[0]) && IsJson(t.items[1])
    case _ => true
  }

  lemma PairSettlesIff(v: Value)
    ensures PairSettles(v) <==>
      (Safe(v).VList? && |Safe(v).items| == 2 ==> IsJson(Safe(v).items[0]) && IsJson(Safe(v).items[1]))
  {
    if (v.VTuple? || v.VList?) && |v.items| == 2 {
      SafeReachesJsonIff(v.items[0]);
      SafeReachesJsonIff(v.items[1]);
    }
  }

  /** The CUSUM pairs that a decoder keeps need no second pass. */
  predicate CusumSettles(cusum: Value) {
    match cusum
    case VDict(entries) => forall i | 0 <= i < |entries| && LastUnderKey(entries, i) :: PairSettles(entries[i].1)
    case VArray(t) => t.VDict? ==> KeptPairsAreJson(t.entries)
    case _ => true
  }

  lemma {:induction false} SettledCusumDict(v: Value)
    requires v.VDict?
    ensures KeptPairsAreJson(Safe(v).entries) <==> CusumSettles(v)
  {
    var n := |v.entries|;
    var d, tagged := SafeEntries(v, n), Safe(v).entries;
    assert v.entries[..n] == v.entries;
    SafeEntriesUnique(v, n);
    UniqueAreUniqueTexts(d);
    if CusumSettles(v) {
      forall k | 0 <= k < |tagged| && IsKept(tagged[k]) ensures KeptOk(tagged[k]) {
        var i := EntryComesFromLast(v, n, k);
        PairSettlesIff(v.entries[i].1);
      }
    }
    if KeptPairsAreJson(tagged) {
      forall i | 0 <= i < n && LastUnderKey(v.entries, i) ensures PairSettles(v.entries[i].1) {
        var k := LastIsKept(v, n, i);
        PairSettlesIff(v.entries[i].1);
        assert IsKept(tagged[k]) ==> KeptOk(tagged[k]);
      }
    }
  }

  lemma {:induction false} CusumTripJsonIff(cusum: Value)
    requires Safe(cusum).VDict?
    ensures JsonPairs(VDict(PairsOf(Safe(cusum).entries))) <==> CusumSettles(cusum)
  {
    KeptPairs(Safe(cusum).entries);
    if cusum.VDict? { SettledCusumDict(cusum); }
  }

  /** The first five label parts, when there are that many. */
  predicate LabelSettles(env: seq<Value>) {
    |env| >= 5 ==> forall i | 0 <= i < 5 :: Settles(env[i])
  }

  lemma LabelTripJsonIff(env: seq<Value>)
    ensures JsonLabel(EnvOf(VList(SafeAll(env)))) <==> LabelSettles(env)
  {
    var safe := SafeAll(env);
    if |env| >= 5 {
      forall i | 0 <= i < 5 ensures IsJson(safe[i]) <==> Settles(env[i]) { SafeReachesJsonIff(env[i]); }
      assert EnvOf(VList(safe)) == safe[..5];
    } else {
      BlankIsJson();
    }
  }

  predicate FieldsSettle(plain: PlainFields) {
    forall p: Opaque :: Settles(plain[p])
  }

  lemma PlainTripJsonIff(plain: PlainFields)
    ensures JsonFields(SafePlain(plain)) <==> FieldsSettle(plain)
  {
    forall p: Opaque ensures IsJson(SafePlain(plain)[p]) <==> Settles(plain[p]) { SafeReachesJsonIff(plain[p]); }
  }

  /** What is encoded of the row, and not dropped on the way back, settles. */
  predicate RowSettles(row: EvidenceRow) {
    LabelSettles(row.envLabel) && FieldsSettle(row.plain) && CusumSettles(row.cusum)
  }

  /** A trip yields a canonical row exactly when the row settles. */
  lemma {:induction false} TripIsCanonicalIff(row: EvidenceRow, back: EvidenceRow)
    requires RowFromPayload(row.columns, PayloadOf(row)) == Some(back)
    ensures Canonical(back) <==> RowSettles(row)
  {
    OneTrip(row);
    LabelTripJsonIff(row.envLabel);
    PlainTripJsonIff(row.plain);
    CusumTripJsonIff(row.cusum);
  }

  /** For every row that decodes at all: a second trip changes nothing if and only if the row settles. */
  lemma {:induction false} SecondTripChangesNothingIff(row: EvidenceRow, back: EvidenceRow)
    requires RowFromPayload(row.columns, PayloadOf(row)) == Some(back)
    ensures RowFromPayload(back.columns, PayloadOf(back)) == Some(back) <==> RowSettles(row)
  {
    TripIsCanonicalIff(row, back);
    RoundTripIff(back);
  }

  /** A row whose arrays all list JSON settles. */
  lemma {:induction false} CleanRowSettles(row: EvidenceRow)
    requires CleanRow(row)
    ensures RowSettles(row)
  {
    forall i | 0 <= i < |row.envLabel| ensures Settles(row.envLabel[i]) { CleanSettles(row.envLabel[i]); }
    forall p: Opaque ensures Settles(row.plain[p]) { CleanSettles(row.plain[p]); }
    CleanCusumSettles(row.cusum);
  }

  lemma JsonKeepsPairs(v: Value)
    requires v.VDict? && IsJson(v)
    ensures KeptPairsAreJson(v.entries)
  {
    forall i | 0 <= i < |v.entries| && IsKept(v.entries[i]) ensures KeptOk(v.entries[i]) {
      assert IsJson(v.entries[i].1);
    }
  }

  lemma CleanCusumSettles(v: Value)
    requires Clean(v)
    ensures CusumSettles(v)
  {
    if v.VDict? {
      forall i | 0 <= i < |v.entries| ensures PairSettles(v.entries[i].1) { CleanPairSettles(v.entries[i].1); }
    } else if v.VArray? && v.tolist.VDict? {
      JsonKeepsPairs(v.tolist);
    }
  }

  lemma CleanPairSettles(v: Value)
    requires Clean(v)
    ensures PairSettles(v)
  {
    if (v.VTuple? || v.VList?) && |v.items| == 2 {
      CleanSettles(v.items[0]);
      CleanSettles(v.items[1]);
    }
  }
}
