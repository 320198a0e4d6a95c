/**
 * `flatten_json`: one nested JSON value becomes a single-level record.
 *
 * The source's inner `flatten(x, name)` walks the tree depth first and, at
 * every scalar, writes `out[name[:-1]] = value`, where `name` is the path
 * accumulated so far: each dictionary key and each list position followed by
 * '_'. `Leaves` is the list of those writes in the order they happen,
 * `Store` performs them on a map (a later write to the same key replaces an
 * earlier one), and the method `FlattenInto` is the recursive procedure with
 * its two loops, proved to perform exactly those writes.
 */
module Flatten {
  import opened JsonValue
  import opened Text

  /** The result of flattening one value: path-key to scalar value. */
  type FlatRecord = map<string, Json>

  /** One write `out[key] = value` made by the traversal. */
  type Write = (string, Json)

  /** The value stored for a scalar leaf: strings lose their line breaks, anything else is kept. */
  function Stored(x: Json): (r: Json)
    ensures r.JString? <==> x.JString?
    ensures x.JString? ==> r.str == WithoutLineBreaks(x.str)
    ensures !x.JString? ==> r == x
  {
    if x.JString? then
      StripNewlinesIsFilter(x.str);
      JString(StripNewlines(x.str))
    else x
  }

  // ---------------------------------------------------------------------------
  // The writes `flatten(x, name)` makes, in order.

  function Leaves(x: Json, name: string): seq<Write>
    decreases x, 1, 0
  {
    match x
    case JObject(_) => FieldLeaves(x, 0, name)
    case JArray(_) => ItemLeaves(x, 0, name)
    case _ => [(DropLast(name), Stored(x))]
  }

  /** The writes made for the keys of object `x` from the `k`-th on. */
  function FieldLeaves(x: Json, k: nat, name: string): seq<Write>
    requires x.JObject? && k <= |x.fields|
    decreases x, 0, |x.fields| - k
  {
    if k == |x.fields| then []
    else Leaves(x.fields[k].1, name + x.fields[k].0 + "_") + FieldLeaves(x, k + 1, name)
  }

  /** The writes made for the elements of list `x` from position `i` on; `i` is the loop counter. */
  function ItemLeaves(x: Json, i: nat, name: string): seq<Write>
    requires x.JArray? && i <= |x.items|
    decreases x, 0, |x.items| - i
  {
    if i == |x.items| then []
    else Leaves(x.items[i], name + Decimal(i) + "_") + ItemLeaves(x, i + 1, name)
  }

  /** Performs the writes in order on `out`: the last write to a key is the one that stays. */
  function Store(out: FlatRecord, writes: seq<Write>): FlatRecord
    decreases |writes|
  {
    if writes == [] then out
    else Store(out[writes[0].0 := writes[0].1], writes[1..])
  }

  /** `flatten_json(y)`: start from an empty record and an empty name. */
  function Flat(y: Json): FlatRecord {
    Store(map[], Leaves(y, ""))
  }

  // ---------------------------------------------------------------------------
  // The procedure as the source runs it.

  method FlattenInto(x: Json, name: string, out: FlatRecord) returns (result: FlatRecord)
    ensures result == Store(out, Leaves(x, name))
    decreases x
  {
    match x {
      case JObject(fields) =>
        result := out;
        var k := 0;
        while k < |fields|
          invariant k <= |fields|
          invariant Store(result, FieldLeaves(x, k, name)) == Store(out, Leaves(x, name))
        {
          var key := fields[k].0;
          StoreAppend(result, Leaves(fields[k].1, name + key + "_"), FieldLeaves(x, k + 1, name));
          result := FlattenInto(fields[k].1, name + key + "_", result);
          k := k + 1;
        }
      case JArray(items) =>
        result := out;
        var i := 0;
        while i < |items|
          invariant i <= |items|
          invariant Store(result, ItemLeaves(x, i, name)) == Store(out, Leaves(x, name))
        {
          StoreAppend(result, Leaves(items[i], name + Decimal(i) + "_"), ItemLeaves(x, i + 1, name));
          result := FlattenInto(items[i], name + Decimal(i) + "_", result);
          i := i + 1;
        }
      case JString(s) =>
        result := out[DropLast(name) := JString(StripNewlines(s))];
      case _ =>
        result := out[DropLast(name) := x];
    }
  }

  method FlattenJson(y: Json) returns (out: FlatRecord)
    ensures out == Flat(y)
  {
    out := FlattenInto(y, "", map[]);
  }

  // ---------------------------------------------------------------------------
  // Store: last write wins.

  lemma {:induction false} StoreAppend(out: FlatRecord, a: seq<Write>, b: seq<Write>)
    ensures Store(out, a + b) == Store(Store(out, a), b)
    decreases |a|
  {
    if a == [] {
      assert a + b == b;
    } else {
      assert (a + b)[1..] == a[1..] + b;
      StoreAppend(out[a[0].0 := a[0].1], a[1..], b);
    }
  }

  /** The set of keys a list of writes writes to. */
  function KeysOf(writes: seq<Write>): set<string> {
    set j | 0 <= j < |writes| :: writes[j].0
  }

  lemma KeysOfCons(writes: seq<Write>)
    requires writes != []
    ensures KeysOf(writes) == {writes[0].0} + KeysOf(writes[1..])
  {
    var rest := writes[1..];
    forall k | k in KeysOf(writes) ensures k in {writes[0].0} + KeysOf(rest) {
      var j :| 0 <= j < |writes| && writes[j].0 == k;
      if j > 0 { assert rest[j - 1].0 == k; }
    }
    forall k | k in KeysOf(rest) ensures k in KeysOf(writes) {
      var j :| 0 <= j < |rest| && rest[j].0 == k;
      assert writes[j + 1].0 == k;
    }
  }

  /** The keys of the record are the keys already there plus every key written. */
  lemma {:induction false} StoreKeys(out: FlatRecord, writes: seq<Write>)
    ensures Store(out, writes).Keys == out.Keys + KeysOf(writes)
    decreases |writes|
  {
    if writes != [] {
      StoreKeys(out[writes[0].0 := writes[0].1], writes[1..]);
      KeysOfCons(writes);
    }
  }

  /** A key written at position `j` and never again afterwards holds the value of that write. */
  lemma {:induction false} StoreLastWriteWins(out: FlatRecord, writes: seq<Write>, j: nat)
    requires j < |writes|
    requires forall t :: j < t < |writes| ==> writes[t].0 != writes[j].0
    ensures writes[j].0 in Store(out, writes) && Store(out, writes)[writes[j].0] == writes[j].1
    decreases |writes|
  {
    var out' := out[writes[0].0 := writes[0].1];
    if j == 0 {
      StoreUntouched(out', writes[1..], writes[0].0);
    } else {
      StoreLastWriteWins(out', writes[1..], j - 1);
    }
  }

  /** A key never written keeps whatever the record held before. */
  lemma {:induction false} StoreUntouched(out: FlatRecord, writes: seq<Write>, k: string)
    requires k in out
    requires forall t :: 0 <= t < |writes| ==> writes[t].0 != k
    ensures k in Store(out, writes) && Store(out, writes)[k] == out[k]
    decreases |writes|
  {
    if writes != [] {
      StoreUntouched(out[writes[0].0 := writes[0].1], writes[1..], k);
    }
  }

  /** Every value in the record is either from before or was written. */
  lemma {:induction false} StoreValues(out: FlatRecord, writes: seq<Write>, k: string)
    requires k in Store(out, writes)
    ensures (k in out && Store(out, writes)[k] == out[k]) ||
            exists j :: 0 <= j < |writes| && writes[j] == (k, Store(out, writes)[k])
    decreases |writes|
  {
    if writes != [] {
      var out' := out[writes[0].0 := writes[0].1];
      StoreValues(out', writes[1..], k);
      if exists j :: 0 <= j < |writes[1..]| && writes[1..][j] == (k, Store(out, writes)[k]) {
        var j :| 0 <= j < |writes[1..]| && writes[1..][j] == (k, Store(out, writes)[k]);
        assert writes[j + 1] == (k, Store(out, writes)[k]);
      }
    }
  }

  /** There are never more keys than writes, and exactly as many when, and only when, the written keys are distinct. */
  lemma {:induction false} StoreSize(writes: seq<Write>)
    ensures |Store(map[], writes)| <= |writes|
    ensures |Store(map[], writes)| == |writes| <==> WrittenKeysDistinct(writes)
  {
    StoreKeys(map[], writes);
    KeySetSize(writes);
  }

  /** No key is written twice. */
  predicate WrittenKeysDistinct(writes: seq<Write>) {
    forall i, j :: 0 <= i < j < |writes| ==> writes[i].0 != writes[j].0
  }

  lemma {:induction false} KeySetSize(writes: seq<Write>)
    ensures |KeysOf(writes)| <= |writes|
    ensures |KeysOf(writes)| == |writes| <==> WrittenKeysDistinct(writes)
    decreases |writes|
  {
    if writes != [] {
      var rest := writes[1..];
      KeySetSize(rest);
      KeysOfCons(writes);
      if WrittenKeysDistinct(writes) {
        assert WrittenKeysDistinct(rest) by {
          forall i, j | 0 <= i < j < |rest| ensures rest[i].0 != rest[j].0 {
            assert rest[i] == writes[i + 1] && rest[j] == writes[j + 1];
          }
        }
        assert writes[0].0 !in KeysOf(rest);
      }
      if |KeysOf(writes)| == |writes| {
        assert writes[0].0 !in KeysOf(rest);
        forall i, j | 0 <= i < j < |writes| ensures writes[i].0 != writes[j].0 {
          assert writes[j] == rest[j - 1];
          if i > 0 {
            assert writes[i] == rest[i - 1];
          }
        }
      }
    }
  }
}
