/** Contract documents, and the difference between two of them. */
module Json {
  import opened Common

  /** A JSON value, plus the marker object that stands for a dropped key in a delta. */
  datatype Json =
    | Null
    | Bool(b: bool)
    | Num(n: int)
    | Str(s: string)
    | List(items: seq<Json>)
    | Dict(fields: map<string, Json>)
    | Dropped

  type Fields = map<string, Json>

  predicate Truthy(j: Json): (r: bool)
    ensures !r <==> j in [Null, Bool(false), Num(0), Str(""), List([]), Dict(map[])]
  {
    match j
    case Null => false
    case Bool(b) => b
    case Num(n) => n != 0
    case Str(s) => s != ""
    case List(items) => items != []
    case Dict(fields) => fields != map[]
    case Dropped => true
  }

  function Get(d: Fields, k: string): Option<Json> {
    if k in d then Some(d[k]) else None
  }

  /** No marker anywhere: what a contract server can send. */
  ghost predicate Plain(j: Json) {
    match j
    case List(items) => forall x :: x in items ==> Plain(x)
    case Dict(fields) => forall k :: k in fields ==> Plain(fields[k])
    case Dropped => false
    case _ => true
  }

  /** The recursion of the diff never meets a non-dict where the old document has a dict. */
  ghost predicate Comparable(orig: Json, new_: Json) {
    orig.Dict? ==>
      && new_.Dict?
      && forall k :: k in orig.fields && k in new_.fields ==> Comparable(orig.fields[k], new_.fields[k])
  }

  /** The delta of one key present in either document: None when nothing is recorded. */
  ghost function KeyDelta(orig: Json, new_: Json, k: string): Option<Json>
    requires orig.Dict? && new_.Dict? && (k in orig.fields || k in new_.fields)
    decreases orig, 0
  {
    if k !in orig.fields then Some(new_.fields[k])
    else if k !in new_.fields then if orig.fields[k] == Dropped then None else Some(Dropped)
    else if orig.fields[k].Dict? then
      var sub := if new_.fields[k].Dict? then Delta(orig.fields[k], new_.fields[k]) else map[];
      if sub == map[] then None else Some(Dict(sub))
    else if orig.fields[k] != new_.fields[k] then Some(new_.fields[k])
    else None
  }

  ghost function Delta(orig: Json, new_: Json): Fields
    requires orig.Dict? && new_.Dict?
    decreases orig, 1
  {
    map k | k in orig.fields.Keys + new_.fields.Keys && KeyDelta(orig, new_, k).Some? :: KeyDelta(orig, new_, k).value
  }

  /** The loops of the diff; the keys are visited in any order. Fails where Python raises AttributeError. */
  method GetDictDeltas(orig: Fields, new_: Fields) returns (r: Result<Fields, ()>)
    ensures r.Success? <==> Comparable(Dict(orig), Dict(new_))
    ensures r.Success? ==> r.value == Delta(Dict(orig), Dict(new_))
    decreases Dict(orig)
  {
    ghost var o, n := Dict(orig), Dict(new_);
    var deltas: Fields := map[];
    var todo := orig.Keys;
    while todo != {}
      invariant todo <= orig.Keys
      invariant forall k :: k in orig && k !in todo && k in new_ ==> Comparable(orig[k], new_[k])
      invariant forall k :: k in orig && k !in todo ==> Get(deltas, k) == KeyDelta(o, n, k)
      invariant forall k :: k in deltas ==> k in orig && k !in todo
    {
      var k :| k in todo;
      var value := orig[k];
      var newValue := if k in new_ then new_[k] else Dropped;
      if value.Dict? {
        if k in new_ {
          if !newValue.Dict? {
            return Failure(());
          }
          assert value == Dict(value.fields) && value == o.fields[k];
          var sub := GetDictDeltas(value.fields, newValue.fields);
          if sub.Failure? {
            return Failure(());
          }
          if sub.value != map[] {
            deltas := deltas[k := Dict(sub.value)];
          }
        } else {
          deltas := deltas[k := Dropped];
        }
      } else if value != newValue {
        deltas := deltas[k := newValue];
      }
      todo := todo - {k};
    }
    ghost var first := deltas;
    todo := new_.Keys;
    while todo != {}
      invariant todo <= new_.Keys
      invariant forall k ::
        Get(deltas, k) == if k in orig then Get(first, k) else if k in new_ && k !in todo then Some(new_[k]) else None
    {
      var k :| k in todo;
      if k !in orig {
        deltas := deltas[k := new_[k]];
      }
      todo := todo - {k};
    }
    forall k ensures Get(deltas, k) == Get(Delta(o, n), k) {
    }
    SameFields(deltas, Delta(o, n));
    return Success(deltas);
  }

  lemma SameFields(a: Fields, b: Fields)
    requires forall k :: Get(a, k) == Get(b, k)
    ensures a == b
  {
    forall k ensures k in a <==> k in b {
      assert Get(a, k) == Get(b, k);
    }
    forall k | k in a ensures a[k] == b[k] {
      assert Get(a, k) == Get(b, k);
    }
  }

  lemma DeltaAt(orig: Json, new_: Json, k: string)
    requires orig.Dict? && new_.Dict?
    ensures Get(Delta(orig, new_), k) ==
      if k in orig.fields || k in new_.fields then KeyDelta(orig, new_, k) else None
  {
  }

  /** Applying a delta: dropped keys go, dicts are patched in depth, anything else is replaced. */
  ghost function Patch(orig: Json, delta: Fields): Fields
    requires orig.Dict?
    decreases orig
  {
    map k | k in orig.fields.Keys + delta.Keys && !(k in delta && delta[k].Dropped?) ::
      if k !in delta then orig.fields[k]
      else if k in orig.fields && orig.fields[k].Dict? && delta[k].Dict? then
        Dict(Patch(orig.fields[k], delta[k].fields))
      else delta[k]
  }

  /** A key is recorded exactly when the documents differ there, presence included. */
  lemma {:induction false} DeltaKeys(orig: Json, new_: Json)
    requires orig.Dict? && Comparable(orig, new_) && Plain(orig) && Plain(new_)
    ensures forall k :: k in Delta(orig, new_) <==> Get(orig.fields, k) != Get(new_.fields, k)
    ensures Delta(orig, new_) == map[] <==> orig == new_
    decreases orig
  {
    var d := Delta(orig, new_);
    forall k ensures k in d <==> Get(orig.fields, k) != Get(new_.fields, k) {
      DeltaAt(orig, new_, k);
      assert k in orig.fields ==> Plain(orig.fields[k]);
      if k in orig.fields && k in new_.fields && orig.fields[k].Dict? {
        DeltaKeys(orig.fields[k], new_.fields[k]);
      }
    }
    if d == map[] {
      forall k ensures Get(orig.fields, k) == Get(new_.fields, k) {
        assert k !in d;
      }
      SameFields(orig.fields, new_.fields);
    }
    if orig == new_ {
      assert forall k :: k !in d;
      assert d.Keys == {};
    }
  }

  /** Patching the old document with the delta gives exactly the new one. */
  lemma {:induction false} DiffRoundTrip(orig: Json, new_: Json)
    requires orig.Dict? && Comparable(orig, new_) && Plain(orig) && Plain(new_)
    ensures Dict(Patch(orig, Delta(orig, new_))) == new_
    decreases orig
  {
    var d := Delta(orig, new_);
    var p := Patch(orig, d);
    forall k ensures Get(p, k) == Get(new_.fields, k) {
      DeltaAt(orig, new_, k);
      assert k in orig.fields ==> Plain(orig.fields[k]);
      assert k in new_.fields ==> Plain(new_.fields[k]);
      if k in orig.fields && k in new_.fields && orig.fields[k].Dict? {
        DiffRoundTrip(orig.fields[k], new_.fields[k]);
        DeltaKeys(orig.fields[k], new_.fields[k]);
      }
    }
    SameFields(p, new_.fields);
  }

  /** Without the shape condition the diff fails: a dict replaced by a string, for instance. */
  lemma DiffNeedsShapes()
    ensures !Comparable(Dict(map["a" := Dict(map[])]), Dict(map["a" := Str("x")]))
  {
    var o, n := Dict(map["a" := Dict(map[])]), Dict(map["a" := Str("x")]);
    assert "a" in o.fields && "a" in n.fields && !Comparable(o.fields["a"], n.fields["a"]);
  }
}
