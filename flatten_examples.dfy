/** Worked cases of `flatten_json`, including the key collision the scheme allows. */
module FlattenExamples {
  import opened JsonValue
  import opened Text
  import opened Flatten

  lemma ScalarLeaf(x: Json, name: string, key: string)
    requires IsScalar(x) && name == key + "_"
    ensures Leaves(x, name) == [(key, Stored(x))]
  {
    assert DropLast(name) == key;
  }

  lemma CleanString(s: string)
    requires '\n' !in s && '\r' !in s
    ensures Stored(JString(s)) == JString(s)
  {
    WithoutLineBreaksClean(s);
  }

  /** `{"a_b": 1, "a": {"b": 2}}`: both leaves write key "a_b"; the later write stays. */
  lemma CollisionLaterWins()
    ensures Flat(JObject([("a_b", JInt(1)), ("a", JObject([("b", JInt(2))]))])) == map["a_b" := JInt(2)]
  {
    var inner := JObject([("b", JInt(2))]);
    var x := JObject([("a_b", JInt(1)), ("a", inner)]);
    ScalarLeaf(JInt(1), "" + "a_b" + "_", "a_b");
    ScalarLeaf(JInt(2), "a_" + "b" + "_", "a_b");
    assert "" + "a" + "_" == "a_";
    assert FieldLeaves(inner, 1, "a_") == [];
    assert Leaves(inner, "a_") == FieldLeaves(inner, 0, "a_") == [("a_b", JInt(2))];
    assert FieldLeaves(x, 1, "") == [("a_b", JInt(2))];
    assert Leaves(x, "") == [("a_b", JInt(1)), ("a_b", JInt(2))];
  }

  /** Listing the nested leaf first makes the flat one win instead. */
  lemma CollisionOrderMatters()
    ensures Flat(JObject([("a", JObject([("b", JInt(2))])), ("a_b", JInt(1))])) == map["a_b" := JInt(1)]
  {
    var inner := JObject([("b", JInt(2))]);
    var x := JObject([("a", inner), ("a_b", JInt(1))]);
    ScalarLeaf(JInt(1), "" + "a_b" + "_", "a_b");
    ScalarLeaf(JInt(2), "a_" + "b" + "_", "a_b");
    assert "" + "a" + "_" == "a_";
    assert FieldLeaves(inner, 1, "a_") == [];
    assert Leaves(inner, "a_") == FieldLeaves(inner, 0, "a_") == [("a_b", JInt(2))];
    assert FieldLeaves(x, 1, "") == [("a_b", JInt(1))];
    assert Leaves(x, "") == [("a_b", JInt(2)), ("a_b", JInt(1))];
  }

  /** A one-item list: its item is walked under position "0". */
  lemma SingleItemLeaves(v: Json, name: string)
    ensures Leaves(JArray([v]), name) == Leaves(v, name + "0" + "_")
  {
    var x := JArray([v]);
    assert Decimal(0) == "0";
    assert ItemLeaves(x, 1, name) == [];
    assert ItemLeaves(x, 0, name) == Leaves(v, name + "0" + "_") + [];
  }

  /** A string without line breaks is stored as it is, under the name without its last '_'. */
  lemma CleanStringLeaf(s: string, name: string, key: string)
    requires '\n' !in s && '\r' !in s && name == key + "_"
    ensures Leaves(JString(s), name) == [(key, JString(s))]
  {
    CleanString(s);
    ScalarLeaf(JString(s), name, key);
  }

  /** `[s]` under the name "name_given_". */
  lemma GivenLeaves(s: string)
    requires '\n' !in s && '\r' !in s
    ensures Leaves(JArray([JString(s)]), "name_given_") == [("name_given_0", JString(s))]
  {
    var key := "name_given_" + "0";
    SingleItemLeaves(JString(s), "name_given_");
    CleanStringLeaf(s, key + "_", key);
    assert key == "name_given_0";
  }

  /** `s` under the name "name_family_". */
  lemma FamilyLeaves(s: string)
    requires '\n' !in s && '\r' !in s
    ensures Leaves(JString(s), "name_family_") == [("name_family", JString(s))]
  {
    CleanStringLeaf(s, "name_family_", "name_family");
  }

  /** The two fields of an object, one after the other. */
  lemma TwoFieldLeaves(k1: string, v1: Json, k2: string, v2: Json, name: string)
    ensures Leaves(JObject([(k1, v1), (k2, v2)]), name) == Leaves(v1, name + k1 + "_") + Leaves(v2, name + k2 + "_")
  {
    var x := JObject([(k1, v1), (k2, v2)]);
    assert FieldLeaves(x, 2, name) == [];
    assert FieldLeaves(x, 1, name) == Leaves(v2, name + k2 + "_") + [];
  }

  /** `{"given": [g], "family": f}` under the name "name_". */
  lemma NameLeaves(g: string, f: string)
    requires '\n' !in g && '\r' !in g && '\n' !in f && '\r' !in f
    ensures Leaves(JObject([("given", JArray([JString(g)])), ("family", JString(f))]), "name_")
            == [("name_given_0", JString(g)), ("name_family", JString(f))]
  {
    assert "name_" + "family" + "_" == "name_family_";
    assert "name_" + "given" + "_" == "name_given_";
    TwoFieldLeaves("given", JArray([JString(g)]), "family", JString(f), "name_");
    GivenLeaves(g);
    FamilyLeaves(f);
  }

  /** The leaves of `{"name": {"given": [g], "family": f}, "active": true}`, in order. */
  lemma NestedLeaves(g: string, f: string)
    requires '\n' !in g && '\r' !in g && '\n' !in f && '\r' !in f
    ensures Leaves(JObject([("name", JObject([("given", JArray([JString(g)])), ("family", JString(f))])),
                            ("active", JBool(true))]), "")
            == [("name_given_0", JString(g)), ("name_family", JString(f)), ("active", JBool(true))]
  {
    assert "" + "name" + "_" == "name_";
    assert "" + "active" + "_" == "active_";
    var name := JObject([("given", JArray([JString(g)])), ("family", JString(f))]);
    TwoFieldLeaves("name", name, "active", JBool(true), "");
    NameLeaves(g, f);
    ScalarLeaf(JBool(true), "active_", "active");
  }

  /** `{"name": {"given": ["Jane"], "family": "Doe"}, "active": true}`. */
  lemma NestedRecord()
    ensures Flat(JObject([
              ("name", JObject([("given", JArray([JString("Jane")])), ("family", JString("Doe"))])),
              ("active", JBool(true))]))
            == map["name_given_0" := JString("Jane"), "name_family" := JString("Doe"), "active" := JBool(true)]
  {
    NestedLeaves("Jane", "Doe");
  }

  /** A one-field object with a scalar value. */
  lemma OneFieldFlat(k: string, v: Json)
    requires IsScalar(v)
    ensures Flat(JObject([(k, v)])) == map[k := Stored(v)]
  {
    var x := JObject([(k, v)]);
    ScalarLeaf(v, "" + k + "_", k);
    assert FieldLeaves(x, 1, "") == [];
    assert Leaves(x, "") == [(k, Stored(v))];
    assert Store(map[], [(k, Stored(v))]) == Store(map[k := Stored(v)], []);
  }

  /** `{"note": "line1\r\nline2"}`: the line break is removed, not replaced. */
  lemma NoteWithLineBreak()
    ensures Flat(JObject([("note", JString("line1\r\nline2"))])) == map["note" := JString("line1line2")]
  {
    var s := "line1\r\nline2";
    OneFieldFlat("note", JString(s));
    StripNewlinesExample();
    StripNewlinesIsFilter(s);
    assert Stored(JString(s)) == JString("line1line2");
  }

  /** `{"tags": [], "id": "x"}`: the empty list adds no key. */
  lemma EmptyListAddsNothing()
    ensures Flat(JObject([("tags", JArray([])), ("id", JString("x"))])) == map["id" := JString("x")]
  {
    var x := JObject([("tags", JArray([])), ("id", JString("x"))]);
    CleanString("x");
    assert Leaves(JArray([]), "tags_") == [];
    ScalarLeaf(JString("x"), "" + "id" + "_", "id");
    assert FieldLeaves(x, 1, "") == [("id", JString("x"))];
    assert Leaves(x, "") == [("id", JString("x"))];
  }

  /** `{"a": {}, "b": null}`: the empty object adds no key, the null still does. */
  lemma NullKeptEmptyObjectDropped()
    ensures Flat(JObject([("a", JObject([])), ("b", JNull)])) == map["b" := JNull]
  {
    var x := JObject([("a", JObject([])), ("b", JNull)]);
    assert Leaves(JObject([]), "a_") == [];
    ScalarLeaf(JNull, "" + "b" + "_", "b");
    assert FieldLeaves(x, 1, "") == [("b", JNull)];
    assert Leaves(x, "") == [("b", JNull)];
  }

  /** A top-level scalar is stored under the empty key, since `''[:-1]` is `''`. */
  lemma TopLevelScalar(x: Json)
    requires IsScalar(x)
    ensures Flat(x) == map["" := Stored(x)]
  {
    var ws := [("", Stored(x))];
    assert Leaves(x, "") == ws;
    assert ws[1..] == [];
    assert Flat(x) == Store(map["" := Stored(x)], ws[1..]);
  }

  lemma {:induction false} ShallowFieldLeaves(x: Json, k: nat)
    requires x.JObject? && k <= |x.fields|
    requires forall i :: 0 <= i < |x.fields| ==> IsScalar(x.fields[i].1)
    ensures FieldLeaves(x, k, "") ==
            seq(|x.fields| - k, i requires 0 <= i < |x.fields| - k => (x.fields[k + i].0, Stored(x.fields[k + i].1)))
    decreases |x.fields| - k
  {
    if k < |x.fields| {
      ShallowFieldLeaves(x, k + 1);
      ScalarLeaf(x.fields[k].1, "" + x.fields[k].0 + "_", x.fields[k].0);
    }
  }

  /**
   * An object none of whose fields is a dictionary or a list flattens to its
   * own field names, each holding the stored form of its value.
   */
  lemma ShallowObject(fields: seq<(string, Json)>)
    requires forall i :: 0 <= i < |fields| ==> IsScalar(fields[i].1)
    requires forall i, j :: 0 <= i < j < |fields| ==> fields[i].0 != fields[j].0
    ensures Flat(JObject(fields)).Keys == set i | 0 <= i < |fields| :: fields[i].0
    ensures forall i :: 0 <= i < |fields| ==> Flat(JObject(fields))[fields[i].0] == Stored(fields[i].1)
  {
    var x := JObject(fields);
    ShallowFieldLeaves(x, 0);
    var ws := Leaves(x, "");
    assert |ws| == |fields|;
    assert forall i :: 0 <= i < |fields| ==> ws[i] == (fields[i].0, Stored(fields[i].1));
    StoreKeys(map[], ws);
    assert KeysOf(ws) == set i | 0 <= i < |fields| :: fields[i].0;
    forall i | 0 <= i < |fields| ensures Flat(x)[fields[i].0] == Stored(fields[i].1) {
      StoreLastWriteWins(map[], ws, i);
    }
  }
}
