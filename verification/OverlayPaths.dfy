/** What the overlay merge means path by path. A path goes through dict keys and, in keyed lists, through ids. */
module OverlayPaths {
  import opened Common
  import opened Json
  import opened Overlay
  import opened KeyedLists
  import opened OverlayLaws

  /** The child of a value stored under key k: the child's own key and value. */
  ghost function Child(k: string, v: Json, step: string): Option<(string, Json)> {
    if v.Dict? then
      if step in v.fields then Some((step, v.fields[step])) else None
    else if KeyedListAt(k, v) then
      var item := Item(IdKey(k).value, v.items, Str(step));
      if item.Some? then Some(("", item.value)) else None
    else None
  }

  ghost function At(k: string, v: Json, path: seq<string>): Option<(string, Json)>
    decreases |path|
  {
    if path == [] then Some((k, v))
    else
      var c := Child(k, v, path[0]);
      if c.None? then None else At(c.value.0, c.value.1, path[1..])
  }

  ghost predicate SameContainer(k: string, a: Json, b: Json) {
    (a.Dict? && b.Dict?) || (KeyedListAt(k, a) && KeyedListAt(k, b))
  }

  ghost predicate IsLeaf(k: string, v: Json) {
    !v.Dict? && !KeyedListAt(k, v)
  }

  lemma ChildWellFormed(k: string, v: Json, step: string)
    requires WellFormedAt(k, v) && Child(k, v, step).Some?
    ensures WellFormedAt(Child(k, v, step).value.0, Child(k, v, step).value.1)
    ensures KeyedListAt(k, v) ==> Child(k, v, step).value.1.Dict?
  {
    if KeyedListAt(k, v) {
      ItemInside(k, v, Str(step));
    }
  }

  /** One level of a pure deep merge: children of one side are kept, children of both are merged. */
  lemma MergeByChildren(k: string, base: Json, overlay: Json, step: string)
    requires WellFormedAt(k, base) && WellFormedAt(k, overlay) && SameContainer(k, base, overlay)
    ensures var b, o := Child(k, base, step), Child(k, overlay, step);
      Child(k, MergeValue(k, base, overlay), step) ==
        if o.None? then b else if b.None? then o
        else Some((o.value.0, MergeValue(o.value.0, b.value.1, o.value.1)))
  {
    if base.Dict? {
      MergeKeys(base, overlay, step);
    } else {
      MergedKeyedLists(k, base, overlay);
    }
  }

  /** Containers of different kinds, and leaves, are replaced by the overlay. */
  lemma MergeReplaces(k: string, base: Json, overlay: Json)
    requires WellFormedAt(k, base) && WellFormedAt(k, overlay) && !SameContainer(k, base, overlay)
    ensures MergeValue(k, base, overlay) == overlay
  {
  }

  /** Every leaf of the overlay is found in the result, under its own path. */
  lemma {:induction false} LeavesArrive(k: string, base: Json, overlay: Json, path: seq<string>)
    requires WellFormedAt(k, base) && WellFormedAt(k, overlay)
    requires At(k, overlay, path).Some? && IsLeaf(At(k, overlay, path).value.0, At(k, overlay, path).value.1)
    ensures At(k, MergeValue(k, base, overlay), path) == At(k, overlay, path)
    decreases |path|
  {
    if !SameContainer(k, base, overlay) {
      MergeReplaces(k, base, overlay);
    } else {
      MergeByChildren(k, base, overlay, path[0]);
      var b, o := Child(k, base, path[0]), Child(k, overlay, path[0]);
      if b.Some? {
        ChildWellFormed(k, base, path[0]);
        ChildWellFormed(k, overlay, path[0]);
        LeavesArrive(o.value.0, b.value.1, o.value.1, path[1..]);
      }
    }
  }

  /** The overlay leaves the path alone: both documents agree on the kind of every container down to a step that the
      overlay does not take. */
  ghost predicate Untouched(k: string, base: Json, overlay: Json, path: seq<string>)
    decreases |path|
  {
    path != [] && SameContainer(k, base, overlay) &&
    var b, o := Child(k, base, path[0]), Child(k, overlay, path[0]);
    o.None? || (b.Some? && b.value.0 == o.value.0 && Untouched(b.value.0, b.value.1, o.value.1, path[1..]))
  }

  /** Every path the overlay does not touch reads the same before and after. */
  lemma {:induction false} UntouchedPathsStay(k: string, base: Json, overlay: Json, path: seq<string>)
    requires WellFormedAt(k, base) && WellFormedAt(k, overlay) && Untouched(k, base, overlay, path)
    ensures At(k, MergeValue(k, base, overlay), path) == At(k, base, path)
    decreases |path|
  {
    MergeByChildren(k, base, overlay, path[0]);
    var b, o := Child(k, base, path[0]), Child(k, overlay, path[0]);
    if o.Some? {
      ChildWellFormed(k, base, path[0]);
      ChildWellFormed(k, overlay, path[0]);
      UntouchedPathsStay(b.value.0, b.value.1, o.value.1, path[1..]);
    }
  }

  /** Well-formed documents merge without an error. */
  lemma {:induction false} WellFormedMerges(base: Json, overlay: Json)
    requires base.Dict? && overlay.Dict? && WellFormed(base) && WellFormed(overlay)
    ensures Mergeable(base, overlay)
    decreases overlay, 1
  {
    forall k | k in overlay.fields && k in base.fields ensures MergeableValue(k, base.fields[k], overlay.fields[k]) {
      var b, o := base.fields[k], overlay.fields[k];
      assert WellFormedAt(k, b) && WellFormedAt(k, o);
      if b.Dict? && o.Dict? {
        WellFormedMerges(b, o);
      } else if UpdatesInPlace(b, o) {
        assert b.items[0] in b.items;
        ListsMerge(IdKey(k).value, b.items, o.items);
      }
    }
  }

  lemma {:induction false} ListsMerge(idk: string, base: seq<Json>, overlays: seq<Json>)
    requires Keyed(idk, base) && Keyed(idk, overlays)
    requires (forall x :: x in base ==> WellFormed(x)) && (forall x :: x in overlays ==> WellFormed(x))
    ensures MergeableList(Some(idk), base, overlays)
    decreases overlays, 0
  {
    if overlays == [] {
    } else {
      var front, last := overlays[..|overlays| - 1], overlays[|overlays| - 1];
      ListsMerge(idk, base, front);
      UpdatedIs(idk, base, front);
      var before := Updated(Some(idk), base, front);
      forall b | b in before && SameId(Some(idk), b, last) ensures Mergeable(b, last) {
        var i :| 0 <= i < |before| && before[i] == b;
        ItemIs(idk, front, Id(idk, base[i]));
        assert b == base[i];
        WellFormedMerges(b, last);
      }
    }
  }

  /** In a list without an id key every overlay item is merged into every base item. */
  lemma UnkeyedPair(x: Json, y: Json)
    requires x.Dict? && y.Dict?
    ensures var r := MergeValue("xs", List([x, y]), List([x, y]));
      r.List? && |r.items| >= 2 && r.items[0] == Merge(Merge(x, x), y)
  {
    assert [x, y][..1] == [x] && [x][..0] == [];
    var once := UpdateItems(None, [x, y], x);
    assert Updated(None, [x, y], [x]) == once;
    assert Updated(None, [x, y], [x, y]) == UpdateItems(None, once, y);
  }

  /** Hence, where lists of dicts have no id key, a second merge can differ from the first. */
  lemma IdempotenceNeedsIdKeys()
    ensures var o := Dict(map["xs" := List([Dict(map["a" := Num(1)]), Dict(map["b" := Num(2)])])]);
      Merge(Dict(map[]), o) == o && Merge(o, o) != o
  {
    var x, y := Dict(map["a" := Num(1)]), Dict(map["b" := Num(2)]);
    var o := Dict(map["xs" := List([x, y])]);
    assert Merge(Dict(map[]), o).fields == o.fields;
    UnkeyedPair(x, y);
    MergeKeys(Merge(x, x), y, "b");
    MergeKeys(o, o, "xs");
  }

  /** Why the kinds must agree: the second document replaces a dict that the third extends again. */
  lemma StackingNeedsKinds()
    ensures !Stackable(
      Dict(map["k" := Dict(map["x" := Num(1)])]), Dict(map["k" := Num(5)]), Dict(map["k" := Dict(map["y" := Num(2)])]))
  {
    var a, c := Dict(map["x" := Num(1)]), Dict(map["y" := Num(2)]);
    assert "x" in a.fields && "x" !in c.fields;
    assert !StackableAt("k", a, Num(5), c);
    var da, db, dc := Dict(map["k" := a]), Dict(map["k" := Num(5)]), Dict(map["k" := c]);
    assert "k" in da.fields && "k" in db.fields && "k" in dc.fields;
  }
}
