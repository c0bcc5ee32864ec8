/**
 * A JSON document as `json.load` hands it to the modelled code: objects are
 * ordered dicts with string keys (`json.dump` writes an int key as its decimal text).
 */
module Json {
  import opened Wrappers
  import opened Tables

  datatype Json =
    | JNull
    | JBool(b: bool)
    | JInt(i: int)
    | JStr(s: string)
    | JArr(items: seq<Json>)
    | JObj(members: Table<string, Json>)

  /** `data[key]` on a loaded document: an error for a non-object or a missing key. */
  function Field(j: Json, key: string): (r: Result<Json>)
    ensures r.Ok? <==> j.JObj? && HasKey(j.members, key)
    ensures r.Ok? ==> (key, r.value) in j.members
  {
    if !j.JObj? then Err("TypeError")
    else match Get(j.members, key)
      case None => Err("KeyError")
      case Some(v) => Ok(v)
  }

  /** A None-or-string attribute as JSON. */
  function Text(o: Option<string>): Json {
    match o
    case None => JNull
    case Some(s) => JStr(s)
  }

  /** A JSON value read back into a None-or-string attribute; other value types are refused. */
  function AsText(j: Json): (r: Result<Option<string>>)
    ensures r.Ok? <==> j.JNull? || j.JStr?
    ensures r.Ok? ==> Text(r.value) == j
  {
    match j
    case JNull => Ok(None)
    case JStr(s) => Ok(Some(s))
    case _ => Err("type")
  }

  /** `data[key]` read as a None-or-string attribute. */
  function TextField(j: Json, key: string): (r: Result<Option<string>>)
    ensures r.Ok? ==> Field(j, key) == Ok(Text(r.value))
    ensures Field(j, key).Ok? && (Field(j, key).value.JNull? || Field(j, key).value.JStr?) ==> r.Ok?
  {
    var v :- Field(j, key);
    AsText(v)
  }

  /** A member of an object is found by its key when no earlier member has that key. */
  lemma FieldAt(m: Table<string, Json>, i: nat)
    requires i < |m| && forall j :: 0 <= j < i ==> m[j].0 != m[i].0
    ensures Field(JObj(m), m[i].0) == Ok(m[i].1)
  {
    GetAt(m, i);
  }

  /** In an object with distinct keys, as json.load builds it, every member is found by its key. */
  lemma FieldUnique(m: Table<string, Json>, i: nat)
    requires UniqueKeys(m) && i < |m|
    ensures Field(JObj(m), m[i].0) == Ok(m[i].1)
  {
    FieldAt(m, i);
  }

  lemma TextRoundTrip(o: Option<string>)
    ensures AsText(Text(o)) == Ok(o)
  {
  }
}
