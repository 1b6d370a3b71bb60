/** Decoded JSON values as json-simple hands them to the code: a `JSONObject`
    is a map, a `JSONArray` a sequence, an integral number a `Long`. The
    text form (`toJSONString` and the parser) is outside this model. */
module Json {
  import opened Wrappers

  datatype Json =
    | JNull
    | JBool(b: bool)
    | JNum(n: int)
    | JStr(s: string)
    | JArr(elems: seq<Json>)
    | JObj(fields: map<string, Json>)

  /** `JSONObject.get(key)` (and `getOrDefault(key, null)`): a missing key reads as null. */
  function Get(obj: map<string, Json>, key: string): (r: Json)
    ensures key !in obj ==> r == JNull
    ensures key in obj ==> r == obj[key]
  {
    if key in obj then obj[key] else JNull
  }

  /** A Java String field written into a JSONObject: null stays null. */
  function FromText(s: Option<string>): (r: Json)
    ensures s.None? <==> r == JNull
    ensures s.Some? ==> r == JStr(s.value)
  {
    match s
    case Some(v) => JStr(v)
    case None => JNull
  }

  /** A Java Long field written into a JSONObject. */
  function FromLong(n: Option<int>): (r: Json)
    ensures n.None? <==> r == JNull
    ensures n.Some? ==> r == JNum(n.value)
  {
    match n
    case Some(v) => JNum(v)
    case None => JNull
  }

  /** The cast `(String) value`: null passes as null, anything but a string throws. */
  function AsText(j: Json): (r: Result<Option<string>>)
    ensures r.Ok? <==> (j.JNull? || j.JStr?)
    ensures r.Err? ==> r.error == ClassCast
    ensures j.JStr? ==> r == Ok(Some(j.s))
  {
    match j
    case JNull => Ok(None)
    case JStr(s) => Ok(Some(s))
    case _ => Err(ClassCast)
  }

  /** The cast `(Long) value`. */
  function AsLong(j: Json): (r: Result<Option<int>>)
    ensures r.Ok? <==> (j.JNull? || j.JNum?)
    ensures r.Err? ==> r.error == ClassCast
    ensures j.JNum? ==> r == Ok(Some(j.n))
  {
    match j
    case JNull => Ok(None)
    case JNum(n) => Ok(Some(n))
    case _ => Err(ClassCast)
  }

  /** The cast `(JSONObject) value`. */
  function AsObject(j: Json): (r: Result<Option<map<string, Json>>>)
    ensures r.Ok? <==> (j.JNull? || j.JObj?)
    ensures r.Err? ==> r.error == ClassCast
    ensures j.JObj? ==> r == Ok(Some(j.fields))
  {
    match j
    case JNull => Ok(None)
    case JObj(m) => Ok(Some(m))
    case _ => Err(ClassCast)
  }

  /** `(JSONArray) value` followed by a for-each loop over it: null throws on iteration. */
  function AsIterableArray(j: Json): (r: Result<seq<Json>>)
    ensures r.Ok? <==> j.JArr?
    ensures j.JNull? ==> r == Err(NullPointer)
    ensures j.JArr? ==> r == Ok(j.elems)
  {
    match j
    case JArr(es) => Ok(es)
    case JNull => Err(NullPointer)
    case _ => Err(ClassCast)
  }
}
