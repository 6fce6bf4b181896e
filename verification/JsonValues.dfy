/** JSON values as the stores hold them; an object keeps its members in order. */
module JsonValues {
  import opened Results
  import opened Dicts

  datatype Json =
    | JNull
    | JBool(b: bool)
    | JInt(n: int)
    | JReal(x: real)
    | JStr(s: string)
    | JArr(items: seq<Json>)
    | JObj(members: seq<(string, Json)>)

  /** Python's truth value of a decoded document. */
  predicate Truthy(j: Json) {
    match j
    case JNull => false
    case JBool(b) => b
    case JInt(n) => n != 0
    case JReal(x) => x != 0.0
    case JStr(s) => s != ""
    case JArr(items) => items != []
    case JObj(members) => members != []
  }

  /** The falsy values are these seven. */
  lemma {:induction false} FalsyValues(j: Json)
    ensures !Truthy(j) <==>
      j in [JNull, JBool(false), JInt(0), JReal(0.0), JStr(""), JArr([]), JObj([])]
  {
    var falsy := [JNull, JBool(false), JInt(0), JReal(0.0), JStr(""), JArr([]), JObj([])];
    assert falsy[0] == JNull && falsy[1] == JBool(false) && falsy[2] == JInt(0) && falsy[3] == JReal(0.0);
    assert falsy[4] == JStr("") && falsy[5] == JArr([]) && falsy[6] == JObj([]);
  }

  /** A field that is absent or falsy. */
  predicate IsFalsy(v: Option<Json>) {
    v.None? || v.value in [JNull, JBool(false), JInt(0), JReal(0.0), JStr(""), JArr([]), JObj([])]
  }

  /** `d.get(key) or default` */
  function GetOr(d: Dict<Json>, key: string, default: Json): Json {
    var v := Get(d, key);
    if v.Some? && Truthy(v.value) then v.value else default
  }

  // Optional fields: absent or null reads as None; outside None is a type error.

  function OptionalText(v: Option<Json>): Option<Option<string>> {
    match v
    case None => Some(None)
    case Some(JNull) => Some(None)
    case Some(JStr(s)) => Some(Some(s))
    case _ => None
  }

  function OptionalInt(v: Option<Json>): Option<Option<int>> {
    match v
    case None => Some(None)
    case Some(JNull) => Some(None)
    case Some(JInt(n)) => Some(Some(n))
    case _ => None
  }

  function OptionalReal(v: Option<Json>): Option<Option<real>> {
    match v
    case None => Some(None)
    case Some(JNull) => Some(None)
    case Some(JReal(x)) => Some(Some(x))
    case Some(JInt(n)) => Some(Some(n as real))
    case _ => None
  }
}
