/**
 * The entry loop of `flatten_file`: `for entry in data["entry"]` appends
 * `flatten_json(entry)` to a list, in order.
 *
 * Both Python operations are modelled with what they do on every kind of
 * value: subscripting anything but a dictionary raises TypeError, a missing
 * key raises KeyError; iterating a list yields its elements, a dictionary its
 * keys, a string its characters, and anything else raises TypeError.
 */
module Entries {
  import opened Wrappers
  import opened JsonValue
  import opened Flatten

  /** The exception the document raises before any record is produced. */
  datatype Error = KeyError(key: string) | TypeError

  /** The field of the document that holds the records. */
  const EntryField: string := "entry"

  /** Python's `data[key]` on a parsed value. */
  function Subscript(data: Json, key: string): (r: Result<Json, Error>)
    ensures r.Ok? <==> data.JObject? && exists i :: 0 <= i < |data.fields| && data.fields[i].0 == key
    ensures r.Ok? ==> exists i :: 0 <= i < |data.fields| && data.fields[i] == (key, r.value)
    ensures data.JObject? && r.Err? ==> r.error == KeyError(key)
    ensures !data.JObject? ==> r == Err(TypeError)
  {
    match data
    case JObject(fields) =>
      (match FieldIndex(fields, key)
       case Some(i) => Ok(fields[i].1)
       case None => Err(KeyError(key)))
    case _ => Err(TypeError)
  }

  /** What `for entry in v` runs over. */
  function Iterated(v: Json): (r: Result<seq<Json>, Error>)
    ensures r.Err? <==> IsScalar(v) && !v.JString?
    ensures r.Err? ==> r.error == TypeError
    ensures v.JArray? ==> r == Ok(v.items)
    ensures v.JObject? ==>
              (r.Ok? && |r.value| == |v.fields| &&
               forall i :: 0 <= i < |v.fields| ==> r.value[i] == JString(v.fields[i].0))
    ensures v.JString? ==>
              (r.Ok? && |r.value| == |v.str| &&
               forall i :: 0 <= i < |v.str| ==> r.value[i] == JString([v.str[i]]))
  {
    match v
    case JArray(items) => Ok(items)
    case JObject(fields) => Ok(seq(|fields|, i requires 0 <= i < |fields| => JString(fields[i].0)))
    case JString(s) => Ok(seq(|s|, i requires 0 <= i < |s| => JString([s[i]])))
    case _ => Err(TypeError)
  }

  /** The values the loop flattens, or the exception it raises first. */
  function EntriesOf(data: Json): Result<seq<Json>, Error> {
    match Subscript(data, EntryField)
    case Err(e) => Err(e)
    case Ok(v) => Iterated(v)
  }

  /** The loop itself: one flat record per entry, in the entries' order. */
  method FlattenEntries(data: Json) returns (r: Result<seq<FlatRecord>, Error>)
    ensures r.Err? <==> EntriesOf(data).Err?
    ensures r.Err? ==> r.error == EntriesOf(data).error
    ensures r.Ok? ==>
              (|r.value| == |EntriesOf(data).value| &&
               forall i :: 0 <= i < |r.value| ==> r.value[i] == Flat(EntriesOf(data).value[i]))
  {
    var field := Subscript(data, EntryField);
    if field.Err? {
      return Err(field.error);
    }
    var iterated := Iterated(field.value);
    if iterated.Err? {
      return Err(iterated.error);
    }
    var es := iterated.value;
    var entries: seq<FlatRecord> := [];
    var i := 0;
    while i < |es|
      invariant i <= |es|
      invariant |entries| == i
      invariant forall j :: 0 <= j < i ==> entries[j] == Flat(es[j])
    {
      var record := FlattenJson(es[i]);
      entries := entries + [record];
      i := i + 1;
    }
    return Ok(entries);
  }

  /**
   * When the loop fails: the document is not a dictionary (TypeError), has
   * no "entry" field (KeyError), or its "entry" is a number, a boolean or
   * null (TypeError). A list, a dictionary or a string is always iterated.
   */
  lemma EntriesErrors(data: Json)
    ensures !data.JObject? ==> EntriesOf(data) == Err(TypeError)
    ensures data.JObject? && (forall i :: 0 <= i < |data.fields| ==> data.fields[i].0 != EntryField) ==>
              EntriesOf(data) == Err(KeyError(EntryField))
    ensures EntriesOf(data).Ok? <==>
              Subscript(data, EntryField).Ok? &&
              !(IsScalar(Subscript(data, EntryField).value) && !Subscript(data, EntryField).value.JString?)
  {
  }

  /** A document whose "entry" is a list yields exactly its elements, in order. */
  lemma ListEntries(fields: seq<(string, Json)>, k: nat, items: seq<Json>)
    requires k < |fields| && fields[k] == (EntryField, JArray(items))
    requires forall i :: 0 <= i < k ==> fields[i].0 != EntryField
    ensures EntriesOf(JObject(fields)) == Ok(items)
  {
  }
}
