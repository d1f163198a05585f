/**
 * The merge of install-config overrides, mergeJson and deepMerge of
 * controlplane/internal/controller/clusterdeployment_controller.go.
 */
module JsonMerge {
  import opened Basics

  datatype Json =
    | Null
    | Bool(b: bool)
    | Num(n: int)
    | Str(s: string)
    | Arr(items: seq<Json>)
    | Obj(fields: map<string, Json>)

  /** The overlay wins, except that two objects are merged key by key. */
  function Merge(b: Json, o: Json): Json
    decreases o
  {
    if b.Obj? && o.Obj? then
      Obj(map k | k in b.fields.Keys + o.fields.Keys ::
            if k !in o.fields then b.fields[k]
            else if k !in b.fields then o.fields[k]
            else Merge(b.fields[k], o.fields[k]))
    else o
  }

  /** The value at a path of keys. */
  function At(j: Json, path: seq<string>): Option<Json> {
    if path == [] then Some(j)
    else if j.Obj? && path[0] in j.fields then At(j.fields[path[0]], path[1..])
    else None
  }

  /** Nothing but objects on the way, as far as the path exists. */
  predicate Open(j: Json, path: seq<string>) {
    j.Obj? && (path != [] && path[0] in j.fields ==> Open(j.fields[path[0]], path[1..]))
  }

  /**
   * The law of the merge at every path: where only one side has a value that value is there, unless the
   * overlay put something that is no object on the way; where both have one, the two values merged.
   */
  lemma {:induction false} MergeAtPath(b: Json, o: Json, path: seq<string>)
    ensures At(Merge(b, o), path) == match (At(o, path), At(b, path))
                                     case (Some(x), Some(y)) => Some(Merge(y, x))
                                     case (Some(x), None) => Some(x)
                                     case (None, Some(y)) => if Open(o, path) then Some(y) else None
                                     case (None, None) => None
  {
    if path != [] && b.Obj? && o.Obj? && path[0] in b.fields && path[0] in o.fields {
      MergeAtPath(b.fields[path[0]], o.fields[path[0]], path[1..]);
    }
  }

  lemma {:induction false} MergeWithItself(o: Json)
    ensures Merge(o, o) == o
  {
    if o.Obj? {
      forall k | k in o.fields ensures Merge(o.fields[k], o.fields[k]) == o.fields[k] { MergeWithItself(o.fields[k]); }
      assert Merge(o, o).fields == o.fields;
    }
  }

  /** Applying the same overlay twice is applying it once. */
  lemma {:induction false} MergeIdempotent(b: Json, o: Json)
    ensures Merge(Merge(b, o), o) == Merge(b, o)
    decreases o
  {
    if b.Obj? && o.Obj? {
      var m := Merge(b, o);
      forall k | k in o.fields ensures Merge(m.fields[k], o.fields[k]) == m.fields[k] {
        if k in b.fields { MergeIdempotent(b.fields[k], o.fields[k]); } else { MergeWithItself(o.fields[k]); }
      }
      assert Merge(m, o).fields == m.fields;
    } else {
      MergeWithItself(o);
    }
  }

  /** Every key of the first object, at any depth, is also in the second. */
  predicate KeysWithin(a: Json, c: Json)
    decreases c
  {
    a.Obj? && c.Obj? ==> forall k | k in a.fields :: k in c.fields && KeysWithin(a.fields[k], c.fields[k])
  }

  lemma {:induction false} AbsorbedWhenKeysWithin(a: Json, c: Json)
    ensures Merge(a, c) == c <==> KeysWithin(a, c)
    decreases c
  {
    if a.Obj? && c.Obj? {
      var m := Merge(a, c);
      forall k | k in a.fields && k in c.fields ensures Merge(a.fields[k], c.fields[k]) == c.fields[k] <==> KeysWithin(a.fields[k], c.fields[k]) {
        AbsorbedWhenKeysWithin(a.fields[k], c.fields[k]);
      }
      if KeysWithin(a, c) { assert m.fields == c.fields; }
      if m == c { assert forall k | k in a.fields :: k in m.fields; }
    }
  }

  /** Nowhere does a middle value that is no object stand between two objects, unless the last has all keys of the first. */
  predicate Compatible(a: Json, b: Json, c: Json)
    decreases c
  {
    a.Obj? && c.Obj? ==>
      if !b.Obj? then KeysWithin(a, c)
      else forall k | k in a.fields && k in b.fields && k in c.fields ::
             Compatible(a.fields[k], b.fields[k], c.fields[k])
  }

  /** Merging is not associative in general; this is exactly when it is. */
  lemma {:induction false} AssociativeWhenCompatible(a: Json, b: Json, c: Json)
    ensures Merge(Merge(a, b), c) == Merge(a, Merge(b, c)) <==> Compatible(a, b, c)
    decreases c
  {
    if a.Obj? && c.Obj? && !b.Obj? {
      AbsorbedWhenKeysWithin(a, c);
    } else if a.Obj? && b.Obj? && c.Obj? {
      var l, r := Merge(Merge(a, b), c).fields, Merge(a, Merge(b, c)).fields;
      forall k | k in l ensures k in r && (l[k] == r[k] <==>
                        (k in a.fields && k in b.fields && k in c.fields ==> Compatible(a.fields[k], b.fields[k], c.fields[k]))) {
        if k in a.fields && k in b.fields && k in c.fields { AssociativeWhenCompatible(a.fields[k], b.fields[k], c.fields[k]); }
      }
      assert l.Keys == r.Keys;
      if Compatible(a, b, c) { assert l == r; }
      if l == r { assert forall k | k in a.fields && k in b.fields && k in c.fields :: k in l; }
    }
  }

  /** Three documents that show it: {"k": {"x": null}}, {"k": null} and {"k": {}}. */
  lemma NotAssociative()
    ensures var a, b, c := Obj(map["k" := Obj(map["x" := Null])]), Obj(map["k" := Null]), Obj(map["k" := Obj(map[])]);
            Merge(Merge(a, b), c) != Merge(a, Merge(b, c))
  {
    var a, b, c := Obj(map["k" := Obj(map["x" := Null])]), Obj(map["k" := Null]), Obj(map["k" := Obj(map[])]);
    assert !KeysWithin(a.fields["k"], c.fields["k"]) by { assert "x" in a.fields["k"].fields && "x" !in c.fields["k"].fields; }
    assert "k" in a.fields && "k" in b.fields && "k" in c.fields && !Compatible(a.fields["k"], b.fields["k"], c.fields["k"]);
    assert !Compatible(a, b, c);
    AssociativeWhenCompatible(a, b, c);
  }

  // ---------------------------------------------------------------- maps in memory

  datatype Value = Scalar(j: Json) | Nested(o: JsonObject)

  /** A Go map with nested maps as references; `view` is the JSON object it holds and `repr` its maps. */
  class JsonObject {
    var entries: map<string, Value>
    ghost var view: map<string, Json>
    ghost var repr: set<JsonObject>

    constructor ()
      ensures Valid() && view == map[] && repr == {this}
    {
      entries, view, repr := map[], map[], {this};
    }

    ghost predicate Valid()
      reads this, repr
      decreases repr, 0
    {
      && this in repr && entries.Keys == view.Keys
      && (forall k | k in entries && entries[k].Nested? ::
            && entries[k].o in repr && entries[k].o in entries[k].o.repr
            && entries[k].o.repr <= repr && this !in entries[k].o.repr)
      && (forall k | k in entries :: Holds(entries[k], view[k]))
      && (forall k, l | k in entries && l in entries && k != l && entries[k].Nested? && entries[l].Nested? ::
            entries[k].o.repr !! entries[l].o.repr)
    }
  }

  /** The value in memory stands for the JSON value. */
  ghost predicate Holds(v: Value, j: Json)
    reads if v.Nested? then {v.o} + v.o.repr else {}
    decreases if v.Nested? then v.o.repr else {}, 1
  {
    match v
    case Scalar(x) => !x.Obj? && j == x
    case Nested(o) => o.Valid() && j == Obj(o.view)
  }

  /** The merge with some keys of the overlay left to visit. */
  ghost function Partly(b: map<string, Json>, o: map<string, Json>, left: set<string>): map<string, Json> {
    map k | k in b.Keys + (o.Keys - left) ::
      if k !in o || k in left then b[k] else if k !in b then o[k] else Merge(b[k], o[k])
  }

  lemma PartlyAll(b: map<string, Json>, o: map<string, Json>)
    ensures Partly(b, o, o.Keys) == b
    ensures Obj(Partly(b, o, {})) == Merge(Obj(b), Obj(o))
  {
    assert Merge(Obj(b), Obj(o)).fields == Partly(b, o, {});
  }

  lemma PartlyNext(b: map<string, Json>, o: map<string, Json>, left: set<string>, k: string)
    requires k in o && k in left
    ensures var p := Partly(b, o, left);
            Partly(b, o, left - {k}) == p[k := if k in p then Merge(p[k], o[k]) else o[k]]
  {
  }

  /** The maps under the other keys are still the same ones, with the same maps below them. */
  twostate predicate OthersKept(base: JsonObject, k: string)
    reads base, set l | l in base.entries && base.entries[l].Nested? :: base.entries[l].o
  {
    forall l | l in base.entries && l != k ::
      && l in old(base.entries) && base.entries[l] == old(base.entries[l])
      && (base.entries[l].Nested? ==> base.entries[l].o.repr == old(base.entries[l].o.repr))
  }

  /** Takes note of what is now under a key. */
  ghost method Adopt(base: JsonObject, k: string, j: Json)
    requires base in base.repr && k in base.entries && base.entries.Keys == base.view.Keys + {k}
    requires forall l | l in base.entries && l != k && base.entries[l].Nested? ::
               && base.entries[l].o in base.entries[l].o.repr
               && base.entries[l].o.repr <= base.repr && base !in base.entries[l].o.repr
               && (base.entries[k].Nested? ==> base.entries[l].o.repr !! base.entries[k].o.repr)
    requires forall l | l in base.entries && l != k :: Holds(base.entries[l], base.view[l])
    requires forall l, m | l in base.entries && m in base.entries && l != m && l != k && m != k
                           && base.entries[l].Nested? && base.entries[m].Nested? ::
               base.entries[l].o.repr !! base.entries[m].o.repr
    requires Holds(base.entries[k], j)
    requires base.entries[k].Nested? ==> base.entries[k].o in base.entries[k].o.repr && base !in base.entries[k].o.repr
    modifies base`view, base`repr
    ensures base.Valid() && base.view == old(base.view)[k := j]
    ensures base.repr == old(base.repr) + if base.entries[k].Nested? then base.entries[k].o.repr else {}
  {
    base.view := base.view[k := j];
    if base.entries[k].Nested? { base.repr := base.repr + base.entries[k].o.repr; }
    assert forall l | l in base.entries :: Holds(base.entries[l], base.view[l]);
  }

  /** Stores a value under a key and takes over the maps below it. */
  method Put(base: JsonObject, k: string, v: Value, ghost j: Json)
    requires base.Valid() && Holds(v, j)
    requires v.Nested? ==> base.repr !! v.o.repr
    modifies base
    ensures base.Valid() && base.view == old(base.view)[k := j] && base.entries == old(base.entries)[k := v]
    ensures base.repr == old(base.repr) + if v.Nested? then v.o.repr else {}
    ensures OthersKept(base, k)
  {
    base.entries := base.entries[k := v];
    Adopt(base, k, j);
  }

  /** Merges into the map under a key, where it is, and takes note of what became of it. */
  method MergeChild(base: JsonObject, k: string, child: JsonObject, overlay: JsonObject)
    requires base.Valid() && k in base.entries && base.entries[k] == Nested(child)
    requires overlay.Valid() && base.repr !! overlay.repr
    modifies base, child.repr
    ensures base.Valid() && base.entries == old(base.entries)
    ensures base.view == old(base.view)[k := Merge(old(base.view[k]), Obj(overlay.view))]
    ensures base.repr <= old(base.repr) + overlay.repr
    ensures OthersKept(base, k)
    decreases overlay.repr, 1
  {
    assert forall l | l in base.entries :: Holds(base.entries[l], base.view[l]);
    DeepMerge(child, overlay);
    assert forall l | l in base.entries && l != k :: Holds(base.entries[l], base.view[l]);
    Adopt(base, k, Obj(child.view));
  }

  /** The visit of one key; `mine` are the maps the base had at the start. */
  method MergeKey(base: JsonObject, key: string, overlayVal: Value, ghost j: Json, ghost mine: set<JsonObject>)
    requires base.Valid() && base in mine && Holds(overlayVal, j)
    requires overlayVal.Nested? ==> base.repr !! overlayVal.o.repr
    requires key in base.entries && base.entries[key].Nested? ==> base.entries[key].o.repr <= mine
    modifies mine
    ensures base.Valid() && OthersKept(base, key)
    ensures base.view == old(base.view)[key := if key in old(base.view) then Merge(old(base.view)[key], j) else j]
    ensures base.repr <= old(base.repr) + if overlayVal.Nested? then overlayVal.o.repr else {}
    decreases if overlayVal.Nested? then overlayVal.o.repr else {}, 2
  {
    assert key in base.entries ==> Holds(base.entries[key], base.view[key]);
    if key in base.entries && base.entries[key].Nested? && overlayVal.Nested? {
      MergeChild(base, key, base.entries[key].o, overlayVal.o);
    } else {
      Put(base, key, overlayVal, j);
    }
  }

  /**
   * The in-place merge, the overlay's keys visited in any order: the base becomes the merge of both, and
   * the overlay keeps its content although the base now shares some of its maps.
   */
  method DeepMerge(base: JsonObject, overlay: JsonObject)
    requires base.Valid() && overlay.Valid() && base.repr !! overlay.repr
    modifies base.repr
    ensures base.Valid() && base.repr <= old(base.repr) + overlay.repr
    ensures Obj(base.view) == Merge(Obj(old(base.view)), Obj(overlay.view))
    decreases overlay.repr, 0
  {
    ghost var b, o, mine := base.view, overlay.view, base.repr;
    var todo := overlay.entries.Keys;
    PartlyAll(b, o);
    while todo != {}
      invariant base.Valid() && todo <= overlay.entries.Keys
      invariant base.view == Partly(b, o, todo)
      invariant base.repr <= mine + overlay.repr
      invariant forall k | k in todo && overlay.entries[k].Nested? :: overlay.entries[k].o.repr !! base.repr
      invariant forall k | k in todo && k in base.entries && base.entries[k].Nested? :: base.entries[k].o.repr <= mine
      decreases todo
    {
      var key :| key in todo;
      PartlyNext(b, o, todo, key);
      todo := todo - {key};
      assert overlay.Valid() && Holds(overlay.entries[key], o[key]);
      MergeKey(base, key, overlay.entries[key], o[key], mine);
      forall k | k in todo && overlay.entries[k].Nested? ensures overlay.entries[k].o.repr !! base.repr {
        assert overlay.entries[key].Nested? ==> overlay.entries[k].o.repr !! overlay.entries[key].o.repr;
      }
    }
  }

  // ---------------------------------------------------------------- documents

  /** Builds the maps of an object in memory. */
  method Load(j: Json) returns (o: JsonObject)
    requires j.Obj?
    ensures fresh(o.repr) && o.Valid() && o.view == j.fields
    decreases j
  {
    o := new JsonObject();
    var todo := j.fields.Keys;
    while todo != {}
      invariant fresh(o.repr) && o.Valid() && todo <= j.fields.Keys
      invariant o.view == map k | k in j.fields && k !in todo :: j.fields[k]
      decreases todo
    {
      var k :| k in todo;
      todo := todo - {k};
      if j.fields[k].Obj? {
        var child := Load(j.fields[k]);
        Put(o, k, Nested(child), j.fields[k]);
      } else {
        Put(o, k, Scalar(j.fields[k]), j.fields[k]);
      }
    }
  }

  /** Reads the object back from memory. */
  method Store(o: JsonObject) returns (j: Json)
    requires o.Valid()
    ensures j == Obj(o.view)
    decreases o.repr
  {
    var fields: map<string, Json> := map[];
    var todo := o.entries.Keys;
    while todo != {}
      invariant todo <= o.entries.Keys
      invariant fields == map k | k in o.view && k !in todo :: o.view[k]
      decreases todo
    {
      var k :| k in todo;
      todo := todo - {k};
      assert Holds(o.entries[k], o.view[k]);
      match o.entries[k] {
        case Scalar(x) => fields := fields[k := x];
        case Nested(child) =>
          var x := Store(child);
          fields := fields[k := x];
      }
    }
    j := Obj(fields);
  }

  datatype MergeResult = Merged(j: Json) | Unreadable | NilMapPanic

  /** What the merge of two documents comes to, each None where it is no JSON at all. */
  function MergeDocuments(first: Option<Json>, second: Option<Json>): MergeResult {
    match (first, second)
    case (Some(Obj(b)), Some(Obj(o))) => Merged(Merge(Obj(b), Obj(o)))
    case (Some(Obj(b)), Some(Null)) => Merged(Obj(b))
    case (Some(Null), Some(Obj(o))) => if o == map[] then Merged(Null) else NilMapPanic
    case (Some(Null), Some(Null)) => Merged(Null)
    case _ => Unreadable
  }

  /** `null` decodes to a nil map, which can be read from and ranged over but not written to. */
  method MergeJson(first: Option<Json>, second: Option<Json>) returns (r: MergeResult)
    ensures r == MergeDocuments(first, second)
  {
    if first.None? || !(first.value.Obj? || first.value.Null?) { return Unreadable; }
    if second.None? || !(second.value.Obj? || second.value.Null?) { return Unreadable; }
    if second.value.Null? { return Merged(first.value); }
    if first.value.Null? {
      return if second.value.fields == map[] then Merged(Null) else NilMapPanic;
    }
    var base := Load(first.value);
    var overlay := Load(second.value);
    DeepMerge(base, overlay);
    var j := Store(base);
    r := Merged(j);
  }

  predicate Decodes(document: Option<Json>) { document.Some? && (document.value.Obj? || document.value.Null?) }

  /** What becomes of documents that are not both objects: each outcome, exactly when. */
  lemma DocumentsOutcome(first: Option<Json>, second: Option<Json>)
    ensures var r := MergeDocuments(first, second);
            && (r.Unreadable? <==> !(Decodes(first) && Decodes(second)))
            && (r.NilMapPanic? <==> first == Some(Null) && second.Some? && second.value.Obj? && second.value.fields != map[])
            && (second == Some(Null) && Decodes(first) ==> r == Merged(first.value))
            && (first == Some(Null) && second == Some(Obj(map[])) ==> r == Merged(Null))
            && (first.Some? && first.value.Obj? && second == Some(Obj(map[])) ==> r == Merged(first.value))
  {
    if first.Some? && first.value.Obj? { assert Merge(first.value, Obj(map[])).fields == first.value.fields; }
  }

  /** Two objects always merge, and at each path the result is what the law of the merge says. */
  lemma ObjectsAlwaysMerge(first: Json, second: Json, path: seq<string>)
    requires first.Obj? && second.Obj?
    ensures var r := MergeDocuments(Some(first), Some(second));
            r.Merged? && r.j.Obj?
            && (At(second, path).Some? && !At(second, path).value.Obj? ==> At(r.j, path) == At(second, path))
            && (At(second, path).None? && Open(second, path) ==> At(r.j, path) == At(first, path))
  {
    MergeAtPath(first, second, path);
  }
}
