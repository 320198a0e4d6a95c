/**
 * An independent description of what `flatten_json` visits: the path, as a
 * list of dictionary keys and list positions, of every scalar in the tree, in
 * depth-first order. `LeavesAsPaths` shows that the writes `Flatten.Leaves`
 * lists are these paths rendered as keys, and the theorems below show that
 *   - the listed paths are exactly the paths that lead to a scalar (`At`),
 *     each listed once: every child is visited exactly once;
 *   - the key written for a leaf is its components joined by '_'
 *     (`c1_c2_..._cn`, and '' for a top-level scalar);
 *   - the record holds, for each such key, the stored value of the last leaf
 *     that produced it.
 */
module LeafPaths {
  import opened Wrappers
  import opened JsonValue
  import opened Text
  import opened Flatten

  /** One step down the tree: a dictionary key or a zero-based list position. */
  datatype Component = Field(key: string) | Index(pos: nat)

  type LeafPath = (seq<Component>, Json)

  /** The text a component adds to the accumulated name (before its '_'). */
  function Label(c: Component): string {
    match c
    case Field(k) => k
    case Index(i) => Decimal(i)
  }

  /** Every scalar of `x` with the path leading to it, depth first, keys and positions in order. */
  function Paths(x: Json): seq<LeafPath>
    decreases x, 1, 0
  {
    match x
    case JObject(_) => FieldPaths(x, 0)
    case JArray(_) => ItemPaths(x, 0)
    case _ => [([], x)]
  }

  function FieldPaths(x: Json, k: nat): seq<LeafPath>
    requires x.JObject? && k <= |x.fields|
    decreases x, 0, |x.fields| - k
  {
    if k == |x.fields| then []
    else Prefixed(Field(x.fields[k].0), Paths(x.fields[k].1)) + FieldPaths(x, k + 1)
  }

  function ItemPaths(x: Json, i: nat): seq<LeafPath>
    requires x.JArray? && i <= |x.items|
    decreases x, 0, |x.items| - i
  {
    if i == |x.items| then []
    else Prefixed(Index(i), Paths(x.items[i])) + ItemPaths(x, i + 1)
  }

  /** The same leaves, seen from one level up. */
  function Prefixed(c: Component, ps: seq<LeafPath>): seq<LeafPath> {
    seq(|ps|, j requires 0 <= j < |ps| => ([c] + ps[j].0, ps[j].1))
  }

  /** The value `path` leads to in `x`, if any. */
  function At(x: Json, path: seq<Component>): Option<Json>
    decreases |path|
  {
    if path == [] then Some(x)
    else match path[0]
      case Field(k) =>
        if !x.JObject? then None
        else (match FieldIndex(x.fields, k)
          case None => None
          case Some(i) => At(x.fields[i].1, path[1..]))
      case Index(i) =>
        if x.JArray? && i < |x.items| then At(x.items[i], path[1..]) else None
  }

  /** The name accumulated along a path: every label followed by '_'. */
  function Trail(path: seq<Component>): string {
    if path == [] then "" else Label(path[0]) + "_" + Trail(path[1..])
  }

  /** The labels of a path joined by '_'. */
  function Join(path: seq<Component>): string {
    if path == [] then ""
    else if |path| == 1 then Label(path[0])
    else Label(path[0]) + "_" + Join(path[1..])
  }

  /** The writes made for the given leaves when the walk starts with `name`. */
  function Render(name: string, ps: seq<LeafPath>): seq<Write> {
    seq(|ps|, j requires 0 <= j < |ps| => (DropLast(name + Trail(ps[j].0)), Stored(ps[j].1)))
  }

  /** The writes made for the given leaves from the top: key is the joined path. */
  function KeyedLeaves(ps: seq<LeafPath>): seq<Write> {
    seq(|ps|, j requires 0 <= j < |ps| => (Join(ps[j].0), Stored(ps[j].1)))
  }

  ghost predicate DistinctPaths(ps: seq<LeafPath>) {
    forall i, j :: 0 <= i < j < |ps| ==> ps[i].0 != ps[j].0
  }

  // ---------------------------------------------------------------------------
  // The walk writes exactly the rendered leaves.

  lemma RenderAppend(name: string, a: seq<LeafPath>, b: seq<LeafPath>)
    ensures Render(name, a + b) == Render(name, a) + Render(name, b)
  {
  }

  lemma RenderPrefixed(name: string, c: Component, ps: seq<LeafPath>)
    ensures Render(name, Prefixed(c, ps)) == Render(name + Label(c) + "_", ps)
  {
    var q := Prefixed(c, ps);
    var name' := name + Label(c) + "_";
    assert |Render(name, q)| == |Render(name', ps)|;
    forall j | 0 <= j < |ps|
      ensures Render(name, q)[j] == Render(name', ps)[j]
    {
      TrailUnder(name, c, ps[j].0);
    }
  }

  lemma TrailUnder(name: string, c: Component, p: seq<Component>)
    ensures name + Trail([c] + p) == (name + Label(c) + "_") + Trail(p)
  {
    TrailCons(c, p);
  }

  lemma TrailCons(c: Component, p: seq<Component>)
    ensures Trail([c] + p) == Label(c) + "_" + Trail(p)
  {
    assert ([c] + p)[1..] == p;
  }

  /** What `flatten(x, name)` writes is the rendering of the leaf paths of `x`. */
  lemma {:induction false} LeavesAsPaths(x: Json, name: string)
    ensures Leaves(x, name) == Render(name, Paths(x))
    decreases x, 1, 0
  {
    match x
    case JObject(_) => FieldLeavesAsPaths(x, 0, name);
    case JArray(_) => ItemLeavesAsPaths(x, 0, name);
    case _ => assert name + Trail([]) == name;
  }

  lemma {:induction false} FieldLeavesAsPaths(x: Json, k: nat, name: string)
    requires x.JObject? && k <= |x.fields|
    ensures FieldLeaves(x, k, name) == Render(name, FieldPaths(x, k))
    decreases x, 0, |x.fields| - k
  {
    if k < |x.fields| {
      var (key, child) := x.fields[k];
      LeavesAsPaths(child, name + key + "_");
      FieldLeavesAsPaths(x, k + 1, name);
      RenderPrefixed(name, Field(key), Paths(child));
      RenderAppend(name, Prefixed(Field(key), Paths(child)), FieldPaths(x, k + 1));
    }
  }

  lemma {:induction false} ItemLeavesAsPaths(x: Json, i: nat, name: string)
    requires x.JArray? && i <= |x.items|
    ensures ItemLeaves(x, i, name) == Render(name, ItemPaths(x, i))
    decreases x, 0, |x.items| - i
  {
    if i < |x.items| {
      LeavesAsPaths(x.items[i], name + Decimal(i) + "_");
      ItemLeavesAsPaths(x, i + 1, name);
      RenderPrefixed(name, Index(i), Paths(x.items[i]));
      RenderAppend(name, Prefixed(Index(i), Paths(x.items[i])), ItemPaths(x, i + 1));
    }
  }

  /** Dropping the final '_' of the accumulated name leaves the labels joined by '_'. */
  lemma {:induction false} TrailIsJoin(path: seq<Component>)
    ensures path == [] ==> Trail(path) == ""
    ensures path != [] ==> Trail(path) == Join(path) + "_"
    ensures DropLast(Trail(path)) == Join(path)
  {
    if |path| > 1 {
      TrailIsJoin(path[1..]);
    }
  }

  /**
   * The writes `flatten_json(y)` makes: one per scalar leaf, in depth-first
   * order, under the key `c1_c2_..._cn` built from the leaf's path and with the
   * stored form of its value.
   */
  lemma FlattenWrites(y: Json)
    ensures Leaves(y, "") == KeyedLeaves(Paths(y))
  {
    LeavesAsPaths(y, "");
    forall j | 0 <= j < |Paths(y)| ensures Render("", Paths(y))[j] == KeyedLeaves(Paths(y))[j] {
      TrailIsJoin(Paths(y)[j].0);
      assert "" + Trail(Paths(y)[j].0) == Trail(Paths(y)[j].0);
    }
  }

  // ---------------------------------------------------------------------------
  // The listed paths are exactly the paths to scalars, each listed once.

  /** Every listed path ends at a scalar. */
  lemma {:induction false} PathsEndAtScalars(x: Json)
    ensures forall j :: 0 <= j < |Paths(x)| ==> IsScalar(Paths(x)[j].1)
    decreases x, 1, 0
  {
    match x
    case JObject(_) => FieldPathsEndAtScalars(x, 0);
    case JArray(_) => ItemPathsEndAtScalars(x, 0);
    case _ =>
  }

  lemma {:induction false} FieldPathsEndAtScalars(x: Json, k: nat)
    requires x.JObject? && k <= |x.fields|
    ensures forall j :: 0 <= j < |FieldPaths(x, k)| ==> IsScalar(FieldPaths(x, k)[j].1)
    decreases x, 0, |x.fields| - k
  {
    if k < |x.fields| {
      PathsEndAtScalars(x.fields[k].1);
      FieldPathsEndAtScalars(x, k + 1);
    }
  }

  lemma {:induction false} ItemPathsEndAtScalars(x: Json, i: nat)
    requires x.JArray? && i <= |x.items|
    ensures forall j :: 0 <= j < |ItemPaths(x, i)| ==> IsScalar(ItemPaths(x, i)[j].1)
    decreases x, 0, |x.items| - i
  {
    if i < |x.items| {
      PathsEndAtScalars(x.items[i]);
      ItemPathsEndAtScalars(x, i + 1);
    }
  }

  /** Soundness: each listed path leads, in the tree, to the scalar listed with it. */
  lemma {:induction false} PathsLeadToLeaves(x: Json)
    requires DistinctKeys(x)
    ensures forall j :: 0 <= j < |Paths(x)| ==> At(x, Paths(x)[j].0) == Some(Paths(x)[j].1)
    decreases x, 1, 0
  {
    match x
    case JObject(_) => FieldPathsLeadToLeaves(x, 0);
    case JArray(_) => ItemPathsLeadToLeaves(x, 0);
    case _ =>
  }

  lemma {:induction false} FieldPathsLeadToLeaves(x: Json, k: nat)
    requires x.JObject? && k <= |x.fields| && DistinctKeys(x)
    ensures forall j :: 0 <= j < |FieldPaths(x, k)| ==> At(x, FieldPaths(x, k)[j].0) == Some(FieldPaths(x, k)[j].1)
    decreases x, 0, |x.fields| - k
  {
    if k < |x.fields| {
      var (key, child) := x.fields[k];
      PathsLeadToLeaves(child);
      FieldPathsLeadToLeaves(x, k + 1);
      FieldIndexOfDistinct(x.fields, k);
      var block := Prefixed(Field(key), Paths(child));
      forall j | 0 <= j < |block| ensures At(x, block[j].0) == Some(block[j].1) {
        var p := Paths(child)[j].0;
        assert ([Field(key)] + p)[1..] == p;
      }
      assert FieldPaths(x, k) == block + FieldPaths(x, k + 1);
    }
  }

  lemma {:induction false} ItemPathsLeadToLeaves(x: Json, i: nat)
    requires x.JArray? && i <= |x.items| && DistinctKeys(x)
    ensures forall j :: 0 <= j < |ItemPaths(x, i)| ==> At(x, ItemPaths(x, i)[j].0) == Some(ItemPaths(x, i)[j].1)
    decreases x, 0, |x.items| - i
  {
    if i < |x.items| {
      PathsLeadToLeaves(x.items[i]);
      ItemPathsLeadToLeaves(x, i + 1);
      var block := Prefixed(Index(i), Paths(x.items[i]));
      forall j | 0 <= j < |block| ensures At(x, block[j].0) == Some(block[j].1) {
        var p := Paths(x.items[i])[j].0;
        assert ([Index(i)] + p)[1..] == p;
      }
      assert ItemPaths(x, i) == block + ItemPaths(x, i + 1);
    }
  }

  /** Completeness: every path that leads to a scalar is listed, with that scalar. */
  lemma {:induction false} LeavesAreListed(x: Json, path: seq<Component>, v: Json)
    requires At(x, path) == Some(v) && IsScalar(v)
    ensures (path, v) in Paths(x)
    decreases |path|
  {
    if path == [] {
      assert Paths(x) == [([], x)];
    } else {
      var rest := path[1..];
      assert path == [path[0]] + rest;
      match path[0]
      case Field(k) =>
        var i := FieldIndex(x.fields, k).value;
        LeavesAreListed(x.fields[i].1, rest, v);
        var j :| 0 <= j < |Paths(x.fields[i].1)| && Paths(x.fields[i].1)[j] == (rest, v);
        var block := Prefixed(Field(k), Paths(x.fields[i].1));
        assert block[j] == (path, v);
        assert (path, v) in multiset(block);
        FieldBlockListed(x, 0, i);
        assert (path, v) in multiset(FieldPaths(x, 0));
      case Index(i) =>
        LeavesAreListed(x.items[i], rest, v);
        var j :| 0 <= j < |Paths(x.items[i])| && Paths(x.items[i])[j] == (rest, v);
        var block := Prefixed(Index(i), Paths(x.items[i]));
        assert block[j] == (path, v);
        assert (path, v) in multiset(block);
        ItemBlockListed(x, 0, i);
        assert (path, v) in multiset(ItemPaths(x, 0));
    }
  }

  lemma {:induction false} FieldBlockListed(x: Json, k: nat, i: nat)
    requires x.JObject? && k <= i < |x.fields|
    ensures multiset(Prefixed(Field(x.fields[i].0), Paths(x.fields[i].1))) <= multiset(FieldPaths(x, k))
    decreases i - k
  {
    if k < i {
      FieldBlockListed(x, k + 1, i);
    }
  }

  lemma {:induction false} ItemBlockListed(x: Json, k: nat, i: nat)
    requires x.JArray? && k <= i < |x.items|
    ensures multiset(Prefixed(Index(i), Paths(x.items[i]))) <= multiset(ItemPaths(x, k))
    decreases i - k
  {
    if k < i {
      ItemBlockListed(x, k + 1, i);
    }
  }

  /** The first components found among the fields from the `k`-th on. */
  function FieldHeads(x: Json, k: nat): set<Component>
    requires x.JObject? && k <= |x.fields|
  {
    set m | k <= m < |x.fields| :: Field(x.fields[m].0)
  }

  /** The first components found among the elements from position `i` on. */
  function ItemHeads(x: Json, i: nat): set<Component>
    requires x.JArray? && i <= |x.items|
  {
    set m | i <= m < |x.items| :: Index(m)
  }

  lemma PrefixedDistinct(c: Component, ps: seq<LeafPath>)
    requires DistinctPaths(ps)
    ensures DistinctPaths(Prefixed(c, ps))
    ensures forall j :: 0 <= j < |ps| ==> Prefixed(c, ps)[j].0 != [] && Prefixed(c, ps)[j].0[0] == c
  {
    var q := Prefixed(c, ps);
    forall i, j | 0 <= i < j < |q| ensures q[i].0 != q[j].0 {
      assert q[i].0[1..] == ps[i].0 && q[j].0[1..] == ps[j].0;
    }
  }

  lemma AppendDistinct(a: seq<LeafPath>, b: seq<LeafPath>)
    requires DistinctPaths(a) && DistinctPaths(b)
    requires forall i, j :: 0 <= i < |a| && 0 <= j < |b| ==> a[i].0 != b[j].0
    ensures DistinctPaths(a + b)
  {
    var ab := a + b;
    forall i, j | 0 <= i < j < |ab| ensures ab[i].0 != ab[j].0 {
      if j < |a| {
      } else if i < |a| {
        assert ab[i] == a[i] && ab[j] == b[j - |a|];
      } else {
        assert ab[i] == b[i - |a|] && ab[j] == b[j - |a|];
      }
    }
  }

  /** At most once: no path is listed twice, so no leaf is visited twice. */
  lemma {:induction false} PathsDistinct(x: Json)
    requires DistinctKeys(x)
    ensures DistinctPaths(Paths(x))
    decreases x, 1, 0
  {
    match x
    case JObject(_) => FieldPathsDistinct(x, 0);
    case JArray(_) => ItemPathsDistinct(x, 0);
    case _ =>
  }

  lemma {:induction false} FieldPathsDistinct(x: Json, k: nat)
    requires x.JObject? && k <= |x.fields| && DistinctKeys(x)
    ensures DistinctPaths(FieldPaths(x, k))
    ensures forall j :: 0 <= j < |FieldPaths(x, k)| ==>
              FieldPaths(x, k)[j].0 != [] && FieldPaths(x, k)[j].0[0] in FieldHeads(x, k)
    decreases x, 0, |x.fields| - k
  {
    if k < |x.fields| {
      var (key, child) := x.fields[k];
      PathsDistinct(child);
      FieldPathsDistinct(x, k + 1);
      var block := Prefixed(Field(key), Paths(child));
      var rest := FieldPaths(x, k + 1);
      PrefixedDistinct(Field(key), Paths(child));
      assert Field(key) !in FieldHeads(x, k + 1);
      AppendDistinct(block, rest);
      assert FieldPaths(x, k) == block + rest;
    }
  }

  lemma {:induction false} ItemPathsDistinct(x: Json, i: nat)
    requires x.JArray? && i <= |x.items| && DistinctKeys(x)
    ensures DistinctPaths(ItemPaths(x, i))
    ensures forall j :: 0 <= j < |ItemPaths(x, i)| ==>
              ItemPaths(x, i)[j].0 != [] && ItemPaths(x, i)[j].0[0] in ItemHeads(x, i)
    decreases x, 0, |x.items| - i
  {
    if i < |x.items| {
      PathsDistinct(x.items[i]);
      ItemPathsDistinct(x, i + 1);
      var block := Prefixed(Index(i), Paths(x.items[i]));
      var rest := ItemPaths(x, i + 1);
      PrefixedDistinct(Index(i), Paths(x.items[i]));
      assert Index(i) !in ItemHeads(x, i + 1);
      AppendDistinct(block, rest);
      assert ItemPaths(x, i) == block + rest;
    }
  }

  /**
   * The traversal visits every scalar of a parsed value exactly once: the
   * listed paths lead to scalars, every path to a scalar is listed, and none
   * is listed twice.
   */
  lemma VisitsEachLeafOnce(x: Json)
    requires DistinctKeys(x)
    ensures forall j :: 0 <= j < |Paths(x)| ==>
              IsScalar(Paths(x)[j].1) && At(x, Paths(x)[j].0) == Some(Paths(x)[j].1)
    ensures forall path, v :: At(x, path) == Some(v) && IsScalar(v) ==> (path, v) in Paths(x)
    ensures DistinctPaths(Paths(x))
  {
    PathsEndAtScalars(x);
    PathsLeadToLeaves(x);
    PathsDistinct(x);
    forall path, v | At(x, path) == Some(v) && IsScalar(v) ensures (path, v) in Paths(x) {
      LeavesAreListed(x, path, v);
    }
  }

  // ---------------------------------------------------------------------------
  // The record flatten_json returns.

  /** Leaf `j` is the last one whose path joins to its key. */
  ghost predicate LastWithItsKey(ps: seq<LeafPath>, j: nat) {
    j < |ps| && forall t :: j < t < |ps| ==> Join(ps[t].0) != Join(ps[j].0)
  }

  /** No two leaf paths join to the same key. */
  ghost predicate KeysDistinct(ps: seq<LeafPath>) {
    forall i, j :: 0 <= i < j < |ps| ==> Join(ps[i].0) != Join(ps[j].0)
  }

  /** The record's keys are exactly the joined paths of the leaves. */
  lemma FlatKeys(y: Json)
    ensures forall k :: k in Flat(y) <==> exists j :: 0 <= j < |Paths(y)| && Join(Paths(y)[j].0) == k
  {
    var ps := Paths(y);
    var ws := KeyedLeaves(ps);
    FlattenWrites(y);
    StoreKeys(map[], ws);
    assert Flat(y).Keys == KeysOf(ws);
    forall k ensures k in Flat(y) <==> exists j :: 0 <= j < |ps| && Join(ps[j].0) == k {
      if k in Flat(y) {
        var j :| 0 <= j < |ws| && ws[j].0 == k;
        assert Join(ps[j].0) == k;
      }
      if exists j :: 0 <= j < |ps| && Join(ps[j].0) == k {
        var j :| 0 <= j < |ps| && Join(ps[j].0) == k;
        assert ws[j].0 == k;
      }
    }
  }

  /** A key produced by several leaves holds the stored value of the last of them. */
  lemma FlatLastWins(y: Json, j: nat)
    requires LastWithItsKey(Paths(y), j)
    ensures Join(Paths(y)[j].0) in Flat(y) && Flat(y)[Join(Paths(y)[j].0)] == Stored(Paths(y)[j].1)
  {
    var ps := Paths(y);
    var ws := KeyedLeaves(ps);
    FlattenWrites(y);
    assert forall t :: j < t < |ws| ==> ws[t].0 == Join(ps[t].0);
    StoreLastWriteWins(map[], ws, j);
  }

  /**
   * There are at most as many keys as leaves, and exactly as many when, and
   * only when, no two leaf paths join to the same key.
   */
  lemma FlatSize(y: Json)
    ensures |Flat(y)| <= |Paths(y)|
    ensures |Flat(y)| == |Paths(y)| <==> KeysDistinct(Paths(y))
  {
    var ps := Paths(y);
    var ws := KeyedLeaves(ps);
    FlattenWrites(y);
    StoreSize(ws);
    assert forall i :: 0 <= i < |ws| ==> ws[i].0 == Join(ps[i].0);
  }

  /** Every stored value is a scalar, and a stored string has no line break. */
  lemma FlatValues(y: Json)
    ensures forall k :: k in Flat(y) ==> IsScalar(Flat(y)[k])
    ensures forall k :: k in Flat(y) && Flat(y)[k].JString? ==>
              '\n' !in Flat(y)[k].str && '\r' !in Flat(y)[k].str
  {
    var ps := Paths(y);
    var ws := KeyedLeaves(ps);
    FlattenWrites(y);
    PathsEndAtScalars(y);
    forall k | k in Flat(y)
      ensures IsScalar(Flat(y)[k])
      ensures Flat(y)[k].JString? ==> '\n' !in Flat(y)[k].str && '\r' !in Flat(y)[k].str
    {
      StoreValues(map[], ws, k);
      var j :| 0 <= j < |ws| && ws[j] == (k, Flat(y)[k]);
      assert Flat(y)[k] == Stored(ps[j].1);
      if ps[j].1.JString? {
        WithoutLineBreaksSpec(ps[j].1.str);
      }
    }
  }
}
