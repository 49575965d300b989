/**
 * Overlay request defaults (cmd/llm-proxy/main.go, applyOverlay and mergeDefaults): the defaults fill
 * what the client left out, at every depth, and never override the client.
 */
module Overlay {
  import opened Prelude

  datatype Json =
    | Null | Bool(b: bool) | Number(text: string) | Str(s: string)
    | Arr(items: seq<Json>) | Obj(fields: map<string, Json>)

  /** What the merge computes, on values: `r` where the client spoke, `d` where it did not. */
  function Fill(r: Json, d: Json): Json
    decreases d
  {
    if r.Obj? && d.Obj? then
      Obj(map k | k in r.fields.Keys + d.fields.Keys ::
            if k !in r.fields then d.fields[k]
            else if k in d.fields then Fill(r.fields[k], d.fields[k])
            else r.fields[k])
    else r
  }

  /** The value at a path of keys, if every step is an object that has the key. */
  function At(j: Json, path: seq<string>): Option<Json> {
    if path == [] then Some(j)
    else if j.Obj? && path[0] in j.fields then At(j.fields[path[0]], path[1..])
    else None
  }

  /** The client has set a value that is not an object somewhere above `path`. */
  predicate Shadowed(r: Json, path: seq<string>) {
    path != [] &&
    (!r.Obj? || (path[0] in r.fields && Shadowed(r.fields[path[0]], path[1..])))
  }

  /**
   * Every path of the merged request, exactly: what the client set stays (objects are filled further
   * down), a path below a client value that is not an object stays absent, and any other path has the
   * default's value.
   */
  lemma {:induction false} FilledAtEveryPath(r: Json, d: Json, path: seq<string>)
    ensures At(Fill(r, d), path) ==
            if At(r, path).Some? then
              Some(if At(d, path).Some? then Fill(At(r, path).value, At(d, path).value) else At(r, path).value)
            else if Shadowed(r, path) then None
            else At(d, path)
    decreases path
  {
    if path != [] && r.Obj? && d.Obj? && path[0] in r.fields && path[0] in d.fields {
      FilledAtEveryPath(r.fields[path[0]], d.fields[path[0]], path[1..]);
    }
  }

  /** A client value that is not an object, null included, is returned unchanged. */
  lemma ClientValueKept(r: Json, d: Json, path: seq<string>)
    requires At(r, path).Some?
    ensures At(Fill(r, d), path).Some?
    ensures !At(r, path).value.Obj? ==> At(Fill(r, d), path) == At(r, path)
    ensures At(r, path).value.Obj? ==>
              At(Fill(r, d), path).value.Obj? && At(r, path).value.fields.Keys <= At(Fill(r, d), path).value.fields.Keys
  {
    FilledAtEveryPath(r, d, path);
  }

  /** Filling with the same defaults again changes nothing. */
  lemma {:induction false} FillIdempotent(r: Json, d: Json)
    ensures Fill(Fill(r, d), d) == Fill(r, d)
    decreases d
  {
    if r.Obj? && d.Obj? {
      var once := Fill(r, d);
      forall k | k in d.fields ensures Fill(once.fields[k], d.fields[k]) == once.fields[k] {
        if k in r.fields {
          FillIdempotent(r.fields[k], d.fields[k]);
        } else {
          FillSelf(d.fields[k]);
        }
      }
      assert Fill(once, d).fields == once.fields;
    }
  }

  lemma {:induction false} FillSelf(d: Json)
    ensures Fill(d, d) == d
  {
    if d.Obj? {
      forall k | k in d.fields ensures Fill(d.fields[k], d.fields[k]) == d.fields[k] { FillSelf(d.fields[k]); }
      assert Fill(d, d).fields == d.fields;
    }
  }

  // ------------------------------------------------------------------ applyOverlay

  /** A decoded body or defaults document; None when decoding fails. */
  function ApplyOverlay(body: Option<Json>, defaults: Option<Json>, baseModel: string): Result<Json> {
    if body.None? || !body.value.Obj? then Failure("overlay requests must contain a JSON object")
    else if defaults.None? || !(defaults.value.Obj? || defaults.value.Null?)
    then Failure("decode overlay request defaults")
    else Success(Obj(Fill(body.value, defaults.value).fields["model" := Str(baseModel)]))
  }

  /** The model is forced to the base model; every path outside it is what the merge gives. */
  lemma OverlayForcesModelOnly(body: Option<Json>, defaults: Option<Json>, baseModel: string, path: seq<string>)
    requires ApplyOverlay(body, defaults, baseModel).Success?
    ensures var out := ApplyOverlay(body, defaults, baseModel).value;
            && At(out, ["model"]) == Some(Str(baseModel))
            && (path != [] && path[0] != "model" ==>
                  At(out, path) ==
                  if At(body.value, path).Some? then
                    Some(if At(defaults.value, path).Some? then Fill(At(body.value, path).value,
                        At(defaults.value, path).value)
                         else At(body.value, path).value)
                  else if Shadowed(body.value, path) then None
                  else At(defaults.value, path))
  {
    var out := ApplyOverlay(body, defaults, baseModel).value;
    assert ["model"][1..] == [];
    if path != [] && path[0] != "model" {
      FilledAtEveryPath(body.value, defaults.value, path);
      assert At(out, path) == At(Fill(body.value, defaults.value), path);
    }
  }

  // ------------------------------------------------------------------ in place

  /** A map value: an object by reference, anything else by value. */
  datatype Value = Leaf(json: Json) | Ref(object': JsonObject)

  /** A decoded JSON object (map[string]any), updated in place; `tree` is the document it stands for. */
  class JsonObject {
    var fields: map<string, Value>
    ghost var tree: map<string, Json>
    ghost var Repr: set<JsonObject>

    ghost predicate Valid()
      reads this, Repr
      decreases Repr
    {
      && this in Repr && fields.Keys == tree.Keys
      && (forall k :: k in fields && fields[k].Leaf? ==> tree[k] == fields[k].json && !tree[k].Obj?)
      && (forall k :: k in fields && fields[k].Ref? ==> Child(fields[k].object', tree[k]))
      && (forall j, k :: j in fields && k in fields && j != k && fields[j].Ref? && fields[k].Ref? ==>
            fields[j].object'.Repr !! fields[k].object'.Repr)
    }

    ghost predicate Child(o: JsonObject, t: Json)
      reads this, Repr
      requires this in Repr
      decreases Repr, 0
    {
      o in Repr && o in o.Repr && o.Repr < Repr && this !in o.Repr && o.Valid() && t == Obj(o.tree)
    }

    constructor ()
      ensures Valid() && fresh(Repr) && tree == map[]
    {
      fields, tree, Repr := map[], map[], {this};
    }
  }

  /** The merge after the keys in `done` have been visited. */
  ghost function Partial(r: map<string, Json>, d: map<string, Json>, done: set<string>): map<string, Json>
    requires done <= d.Keys
  {
    map k | k in r.Keys + done :: if k in done then (if k in r then Fill(r[k], d[k]) else d[k]) else r[k]
  }

  lemma PartialDone(r: map<string, Json>, d: map<string, Json>)
    ensures Obj(Partial(r, d, d.Keys)) == Fill(Obj(r), Obj(d))
  {
    assert Partial(r, d, d.Keys) == Fill(Obj(r), Obj(d)).fields;
  }

  lemma PartialStep(r: map<string, Json>, d: map<string, Json>, done: set<string>, k: string)
    requires done <= d.Keys && k in d && k !in done
    ensures Partial(r, d, done + {k}) == Partial(r, d, done)[k := if k in r then Fill(r[k], d[k]) else d[k]]
  {
  }

  /** A default value that the client left out becomes part of the request, by reference. */
  method Graft(request: JsonObject, k: string, v: Value, ghost t: Json)
    requires request.Valid() && k !in request.fields
    requires v.Leaf? ==> t == v.json && !t.Obj?
    requires v.Ref? ==> v.object'.Valid() && t == Obj(v.object'.tree) && v.object'.Repr !! request.Repr
    modifies request
    ensures request.Valid()
    ensures request.fields == old(request.fields)[k := v] && request.tree == old(request.tree)[k := t]
    ensures request.Repr == old(request.Repr) + if v.Ref? then v.object'.Repr else {}
  {
    request.fields := request.fields[k := v];
    request.tree := request.tree[k := t];
    if v.Ref? {
      request.Repr := request.Repr + v.object'.Repr;
    }
    forall j | j in request.fields && request.fields[j].Ref?
      ensures request.Child(request.fields[j].object', request.tree[j])
    {
      if j != k {
        assert old(request.Child(request.fields[j].object', request.tree[j]));
      }
    }
  }

  /** How request and defaults lie to each other when `todo` is left to visit. */
  ghost predicate Midway(request: JsonObject, defaults: JsonObject, todo: set<string>, R0: set<JsonObject>)
    reads request, request.Repr, defaults, defaults.Repr
  {
    && request.Valid() && defaults.Valid() && R0 !! defaults.Repr
    && request in R0 && request.Repr <= R0 + defaults.Repr && defaults !in request.Repr
    && todo <= defaults.tree.Keys
    && (forall k :: k in todo ==> Owns(request, k, R0))
    && (forall k :: k in todo ==> Lends(defaults, k, request.Repr))
  }

  /** An object of the request at `k` lies within the request as it was. */
  ghost predicate Owns(request: JsonObject, k: string, R0: set<JsonObject>)
    reads request, request.Repr
  {
    k in request.fields && request.fields[k].Ref? ==>
      request.fields[k].object' in request.Repr && request.fields[k].object'.Repr <= R0
  }

  /** A default object at `k` shares nothing with the given footprint. */
  ghost predicate Lends(defaults: JsonObject, k: string, R: set<JsonObject>)
    reads defaults, defaults.Repr
  {
    k in defaults.fields && defaults.fields[k].Ref? ==>
      defaults.fields[k].object' in defaults.Repr && defaults.fields[k].object'.Repr !! R
  }

  /** mergeDefaults, visiting the default keys in any order. */
  method MergeDefaults(request: JsonObject, defaults: JsonObject)
    requires request.Valid() && defaults.Valid() && request.Repr !! defaults.Repr
    modifies request.Repr
    ensures request.Valid() && request.Repr <= old(request.Repr) + old(defaults.Repr)
    ensures Obj(request.tree) == Fill(Obj(old(request.tree)), Obj(old(defaults.tree)))
    ensures defaults.Valid() && unchanged(old(defaults.Repr))
    decreases defaults.Repr, 2
  {
    var todo := defaults.fields.Keys;
    ghost var r0, d0, R0 := request.tree, defaults.tree, request.Repr;
    assert d0.Keys - todo == {};
    assert Partial(r0, d0, {}) == r0;
    Childless(defaults, request);
    while todo != {}
      invariant Midway(request, defaults, todo, R0) && defaults.tree == d0
      invariant request.tree == Partial(r0, d0, d0.Keys - todo)
      decreases todo
    {
      var k :| k in todo;
      PartialStep(r0, d0, d0.Keys - todo, k);
      assert d0.Keys - (todo - {k}) == (d0.Keys - todo) + {k};
      if k !in request.fields {
        VisitMissing(request, defaults, todo, k, R0);
      } else if request.fields[k].Ref? && defaults.fields[k].Ref? {
        VisitObject(request, defaults, todo, k, R0);
      } else {
        KeptAsIs(request, defaults, k);
      }
      todo := todo - {k};
    }
    assert d0.Keys - {} == d0.Keys;
    PartialDone(r0, d0);
  }

  /** The children of an object that shares nothing with `other` share nothing with it either. */
  lemma Childless(o: JsonObject, other: JsonObject)
    requires o.Valid() && other.Valid() && o.Repr !! other.Repr
    ensures forall k :: k in o.fields && o.fields[k].Ref? ==>
              o.fields[k].object' in o.Repr && o.fields[k].object'.Repr !! other.Repr
    ensures forall k :: k in other.fields && other.fields[k].Ref? ==>
              other.fields[k].object' in other.Repr && other.fields[k].object'.Repr <= other.Repr
  {
    forall k | k in o.fields && o.fields[k].Ref?
      ensures o.fields[k].object' in o.Repr && o.fields[k].object'.Repr !! other.Repr
    {
      assert o.Child(o.fields[k].object', o.tree[k]);
    }
    forall k | k in other.fields && other.fields[k].Ref?
      ensures other.fields[k].object' in other.Repr && other.fields[k].object'.Repr <= other.Repr
    {
      assert other.Child(other.fields[k].object', other.tree[k]);
    }
  }

  /** A client value that cannot be filled further is the merge's value already. */
  lemma KeptAsIs(request: JsonObject, defaults: JsonObject, k: string)
    requires request.Valid() && defaults.Valid() && k in request.fields && k in defaults.fields
    requires request.fields[k].Leaf? || defaults.fields[k].Leaf?
    ensures k in request.tree && k in defaults.tree && Fill(request.tree[k], defaults.tree[k]) == request.tree[k]
    ensures request.tree[k := request.tree[k]] == request.tree
  {
    if request.fields[k].Ref? {
      assert request.Child(request.fields[k].object', request.tree[k]);
    }
  }

  method VisitMissing(
      request: JsonObject, defaults: JsonObject, ghost todo: set<string>, k: string, ghost R0: set<JsonObject>)
    requires Midway(request, defaults, todo, R0) && k in todo && k !in request.fields
    modifies request
    ensures Midway(request, defaults, todo - {k}, R0) && defaults.tree == old(defaults.tree)
    ensures request.tree == old(request.tree)[k := defaults.tree[k]]
    decreases defaults.Repr, 0
  {
    var v := defaults.fields[k];
    ghost var R := request.Repr;
    assert Lends(defaults, k, R);
    if v.Ref? {
      assert defaults.Child(v.object', defaults.tree[k]);
    }
    Graft(request, k, v, defaults.tree[k]);
    KeepsLending(defaults, todo, k, R, request.Repr);
  }

  /** Lending out the object at `k` leaves the other default objects apart from the borrower. */
  lemma KeepsLending(defaults: JsonObject, todo: set<string>, k: string, R: set<JsonObject>, R': set<JsonObject>)
    requires defaults.Valid() && k in defaults.fields && forall j :: j in todo ==> Lends(defaults, j, R)
    requires defaults.fields[k].Leaf? ==> R' <= R
    requires defaults.fields[k].Ref? ==> R' <= R + defaults.fields[k].object'.Repr
    ensures forall j :: j in todo - {k} ==> Lends(defaults, j, R')
  {
    if defaults.fields[k].Ref? {
      Separate(defaults, k);
    }
    forall j | j in todo - {k} ensures Lends(defaults, j, R') {
      assert Lends(defaults, j, R);
    }
  }

  method VisitObject(
      request: JsonObject, defaults: JsonObject, ghost todo: set<string>, k: string, ghost R0: set<JsonObject>)
    requires Midway(request, defaults, todo, R0) && k in todo && k in request.fields
    requires request.fields[k].Ref? && defaults.fields[k].Ref?
    modifies R0
    ensures Midway(request, defaults, todo - {k}, R0) && defaults.tree == old(defaults.tree)
    ensures k in request.tree && request.tree == old(request.tree)[k := Fill(old(request.tree[k]), defaults.tree[k])]
    decreases defaults.Repr, 1
  {
    var o := defaults.fields[k].object';
    assert Owns(request, k, R0) && Lends(defaults, k, request.Repr);
    assert defaults.Child(o, defaults.tree[k]);
    ghost var R := request.Repr;
    Separate(request, k);
    Descend(request, k, o, R0);
    KeepsLending(defaults, todo, k, R, request.Repr);
  }

  /** Merge the default object into the request's own object at `k`. */
  method Descend(request: JsonObject, k: string, defaults: JsonObject, ghost R0: set<JsonObject>)
    requires request.Valid() && k in request.fields && request.fields[k].Ref?
    requires defaults.Valid() && defaults.Repr !! request.Repr
    requires request in R0 && request.fields[k].object'.Repr <= R0
    modifies request`tree, request`Repr, request.fields[k].object'.Repr
    ensures request.Valid() && request.fields == old(request.fields)
    ensures request.tree == old(request.tree)[k := Fill(old(request.tree[k]), Obj(old(defaults.tree)))]
    ensures request.Repr <= old(request.Repr) + old(defaults.Repr)
    decreases defaults.Repr, 3
  {
    var child := request.fields[k].object';
    assert request.Child(child, request.tree[k]);
    Separate(request, k);
    MergeDefaults(child, defaults);
    forall j | j in request.fields && request.fields[j].Ref? && j != k
      ensures request.Child(request.fields[j].object', request.tree[j]) && request.fields[j].object'.Repr !! child.Repr
    {
      assert old(request.Child(request.fields[j].object', request.tree[j]));
    }
    Reseat(request, k);
  }

  /** The document and footprint of an object whose child at `k` has changed. */
  ghost method Reseat(o: JsonObject, k: string)
    requires o in o.Repr && o.fields.Keys == o.tree.Keys && k in o.fields && o.fields[k].Ref?
    requires o.fields[k].object'.Valid() && o.fields[k].object' in o.Repr && o !in o.fields[k].object'.Repr
    requires forall j :: j in o.fields && o.fields[j].Leaf? ==> o.tree[j] == o.fields[j].json && !o.tree[j].Obj?
    requires forall j :: j in o.fields && o.fields[j].Ref? && j != k ==> o.Child(o.fields[j].object', o.tree[j])
    requires forall j :: j in o.fields && o.fields[j].Ref? && j != k ==>
               o.fields[j].object'.Repr !! o.fields[k].object'.Repr
    requires forall i, j ::
               i in o.fields && j in o.fields && i != j && i != k && j != k && o.fields[i].Ref? && o.fields[j].Ref? ==>
               o.fields[i].object'.Repr !! o.fields[j].object'.Repr
    modifies o`tree, o`Repr
    ensures o.Valid()
    ensures o.tree == old(o.tree)[k := Obj(o.fields[k].object'.tree)]
    ensures o.Repr == old(o.Repr) + o.fields[k].object'.Repr
  {
    o.tree := o.tree[k := Obj(o.fields[k].object'.tree)];
    o.Repr := o.Repr + o.fields[k].object'.Repr;
    forall j | j in o.fields && o.fields[j].Ref? ensures o.Child(o.fields[j].object', o.tree[j]) {
      if j != k {
        assert old(o.Child(o.fields[j].object', o.tree[j]));
      }
    }
  }

  /** The other children of an object lie outside the child at `k`. */
  lemma Separate(o: JsonObject, k: string)
    requires o.Valid() && k in o.fields && o.fields[k].Ref?
    ensures forall j :: j in o.fields && o.fields[j].Ref? && j != k ==>
              o.fields[j].object'.Repr !! o.fields[k].object'.Repr && o.fields[j].object' !in o.fields[k].object'.Repr
  {
    forall j | j in o.fields && o.fields[j].Ref? && j != k
      ensures o.fields[j].object'.Repr !! o.fields[k].object'.Repr && o.fields[j].object' !in o.fields[k].object'.Repr
    {
      assert o.Child(o.fields[j].object', o.tree[j]);
    }
  }
}
