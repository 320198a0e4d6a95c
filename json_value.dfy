/**
 * The parsed JSON value tree that `json.load` hands to the flattener.
 *
 * An object is the list of its (key, value) pairs in the order the dictionary
 * is iterated; a Python dictionary never repeats a key, so a `JObject` whose
 * field list repeats one does not stand for any value the service can see.
 * Numbers keep the two kinds the JSON parser produces (integers and floats);
 * they are only ever copied, never computed with.
 */
module JsonValue {
  import opened Wrappers

  datatype Json =
    | JObject(fields: seq<(string, Json)>)
    | JArray(items: seq<Json>)
    | JString(str: string)
    | JInt(i: int)
    | JFloat(f: real)
    | JBool(b: bool)
    | JNull

  /** Neither a dictionary nor a list: what the flattener stores as a leaf. */
  predicate IsScalar(x: Json) {
    !x.JObject? && !x.JArray?
  }

  /** Every object in the tree lists each of its keys once, as a dictionary does. */
  ghost predicate DistinctKeys(x: Json)
    decreases x
  {
    match x
    case JObject(fields) =>
      (forall i, j :: 0 <= i < j < |fields| ==> fields[i].0 != fields[j].0) &&
      (forall i :: 0 <= i < |fields| ==> DistinctKeys(fields[i].1))
    case JArray(items) =>
      forall i :: 0 <= i < |items| ==> DistinctKeys(items[i])
    case _ => true
  }

  /**
   * Position of `key` among an object's fields: the first field carrying it,
   * or None when no field does (Python's `d[key]` then raises KeyError).
   */
  function FieldIndex(fields: seq<(string, Json)>, key: string): (r: Option<nat>)
    ensures r.Some? ==> r.value < |fields| && fields[r.value].0 == key
    ensures r.Some? ==> forall t :: 0 <= t < r.value ==> fields[t].0 != key
    ensures r.None? <==> forall t :: 0 <= t < |fields| ==> fields[t].0 != key
  {
    if fields == [] then None
    else if fields[0].0 == key then Some(0)
    else match FieldIndex(fields[1..], key)
      case None => None
      case Some(i) => Some(i + 1)
  }

  /** In an object whose keys are distinct, each field is found at its own position. */
  lemma FieldIndexOfDistinct(fields: seq<(string, Json)>, k: nat)
    requires k < |fields|
    requires forall i, j :: 0 <= i < j < |fields| ==> fields[i].0 != fields[j].0
    ensures FieldIndex(fields, fields[k].0) == Some(k)
  {
  }
}
