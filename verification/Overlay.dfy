/** The depth-first merge of an overlay document into a base document. */
module Overlay {
  import opened Common
  import opened Json

  /** The key that identifies the dicts of a list stored under `key`. */
  function IdKey(key: string): Option<string> {
    if key == "availableResources" then Some("name")
    else if key == "resourceEntitlements" then Some("type")
    else None
  }

  /** Python's dict.get(id_key): missing and null are both None. */
  function IdOf(item: Json, idKey: Option<string>): Json
    requires item.Dict?
  {
    if idKey.Some? && idKey.value in item.fields then item.fields[idKey.value] else Null
  }

  ghost predicate SameId(idKey: Option<string>, a: Json, b: Json) {
    a.Dict? && b.Dict? && IdOf(a, idKey) == IdOf(b, idKey)
  }

  ghost function Merge(base: Json, overlay: Json): Json
    requires base.Dict? && overlay.Dict?
    ensures Merge(base, overlay).Dict?
    decreases overlay, 2
  {
    Dict(map k | k in base.fields.Keys + overlay.fields.Keys :: MergeAt(base, overlay, k))
  }

  ghost function MergeAt(base: Json, overlay: Json, k: string): Json
    requires base.Dict? && overlay.Dict? && (k in base.fields || k in overlay.fields)
    decreases overlay, 1
  {
    if k !in overlay.fields then base.fields[k]
    else if k !in base.fields then overlay.fields[k]
    else MergeValue(k, base.fields[k], overlay.fields[k])
  }

  ghost predicate UpdatesInPlace(base: Json, overlay: Json) {
    base.List? && overlay.List? && base.items != [] && base.items[0].Dict?
  }

  ghost function MergeValue(k: string, base: Json, overlay: Json): Json
    decreases overlay, 3
  {
    if base.Dict? && overlay.Dict? then Merge(base, overlay)
    else if UpdatesInPlace(base, overlay) then
      List(Updated(IdKey(k), base.items, overlay.items) + Appended(IdKey(k), base.items, overlay.items))
    else overlay
  }

  /** Every base item with the id of the overlay item is merged with it. */
  ghost function UpdateItems(idKey: Option<string>, base: seq<Json>, overlay: Json): (r: seq<Json>)
    ensures |r| == |base|
    ensures forall i :: 0 <= i < |r| ==>
      r[i] == if SameId(idKey, base[i], overlay) then Merge(base[i], overlay) else base[i]
    decreases overlay, 3, |base|
  {
    if base == [] then []
    else
      UpdateItems(idKey, base[..|base| - 1], overlay)
      + [if SameId(idKey, base[|base| - 1], overlay) then Merge(base[|base| - 1], overlay) else base[|base| - 1]]
  }

  /** The base list after all overlay items have been looked up in it, one after the other. */
  ghost function Updated(idKey: Option<string>, base: seq<Json>, overlays: seq<Json>): (r: seq<Json>)
    ensures |r| == |base|
    decreases overlays, 0, 0
  {
    if overlays == [] then base
    else UpdateItems(idKey, Updated(idKey, base, overlays[..|overlays| - 1]), overlays[|overlays| - 1])
  }

  /** The overlay items that matched nothing, in order. */
  ghost function Appended(idKey: Option<string>, base: seq<Json>, overlays: seq<Json>): seq<Json>
    decreases overlays, 1, 0
  {
    if overlays == [] then []
    else
      var front, last := overlays[..|overlays| - 1], overlays[|overlays| - 1];
      Appended(idKey, base, front)
      + if exists b :: b in Updated(idKey, base, front) && SameId(idKey, b, last) then [] else [last]
  }

  /** Where Python raises nothing: list items that are looked at are all dicts. */
  ghost predicate Mergeable(base: Json, overlay: Json)
    requires base.Dict? && overlay.Dict?
    decreases overlay, 2
  {
    forall k :: k in overlay.fields && k in base.fields ==> MergeableValue(k, base.fields[k], overlay.fields[k])
  }

  ghost predicate MergeableValue(k: string, base: Json, overlay: Json)
    decreases overlay, 3
  {
    && (base.Dict? && overlay.Dict? ==> Mergeable(base, overlay))
    && (UpdatesInPlace(base, overlay) ==> MergeableList(IdKey(k), base.items, overlay.items))
  }

  ghost predicate MergeableList(idKey: Option<string>, base: seq<Json>, overlays: seq<Json>)
    decreases overlays, 1
  {
    overlays != [] ==>
      var front, last := overlays[..|overlays| - 1], overlays[|overlays| - 1];
      MergeableList(idKey, base, front) && MergeableItem(idKey, Updated(idKey, base, front), last)
  }

  ghost predicate MergeableItem(idKey: Option<string>, base: seq<Json>, overlay: Json)
    decreases overlay, 3
  {
    forall b :: b in base ==> b.Dict? && overlay.Dict? && (SameId(idKey, b, overlay) ==> Mergeable(b, overlay))
  }

  method MergeOverlay(base: Fields, overlay: Fields) returns (r: Result<Fields, ()>)
    ensures r.Success? <==> Mergeable(Dict(base), Dict(overlay))
    ensures r.Success? ==> Dict(r.value) == Merge(Dict(base), Dict(overlay))
    decreases Dict(overlay), 1
  {
    ghost var b, o := Dict(base), Dict(overlay);
    var merged := base;
    var todo := overlay.Keys;
    while todo != {}
      invariant todo <= overlay.Keys
      invariant forall k :: k in overlay && k !in todo && k in base ==> MergeableValue(k, base[k], overlay[k])
      invariant merged.Keys == base.Keys + (overlay.Keys - todo)
      invariant forall k :: k in merged ==> merged[k] == if k in todo then base[k] else MergeAt(b, o, k)
    {
      var key :| key in todo;
      var value := overlay[key];
      assert value == o.fields[key];
      if key in merged && merged[key].Dict? && value.Dict? {
        assert value == Dict(value.fields) && merged[key] == Dict(merged[key].fields);
        var sub := MergeOverlay(merged[key].fields, value.fields);
        if sub.Failure? {
          return Failure(());
        }
        merged := merged[key := Dict(sub.value)];
      } else if key in merged && merged[key].List? && value.List? {
        var items := merged[key].items;
        if items != [] && items[0].Dict? {
          var updated := UpdateDictList(IdKey(key), items, value.items);
          if updated.Failure? {
            return Failure(());
          }
          merged := merged[key := List(updated.value)];
        } else {
          merged := merged[key := value];
        }
      } else {
        merged := merged[key := value];
      }
      todo := todo - {key};
    }
    assert merged == Merge(b, o).fields;
    return Success(merged);
  }

  lemma {:induction false} MergeablePrefix(idKey: Option<string>, base: seq<Json>, overlays: seq<Json>, n: nat)
    requires n <= |overlays| && MergeableList(idKey, base, overlays)
    ensures MergeableList(idKey, base, overlays[..n])
  {
    if n < |overlays| {
      assert overlays[..|overlays| - 1][..n] == overlays[..n];
      MergeablePrefix(idKey, base, overlays[..|overlays| - 1], n);
    } else {
      assert overlays[..n] == overlays;
    }
  }

  lemma ListStep(idKey: Option<string>, base: seq<Json>, overlays: seq<Json>, n: nat)
    requires n < |overlays|
    ensures var updated, more := Updated(idKey, base, overlays[..n]), overlays[..n + 1];
      && Updated(idKey, base, more) == UpdateItems(idKey, updated, overlays[n])
      && Appended(idKey, base, more) == Appended(idKey, base, overlays[..n])
           + (if exists b :: b in updated && SameId(idKey, b, overlays[n]) then [] else [overlays[n]])
      && (MergeableList(idKey, base, more) <==>
        MergeableList(idKey, base, overlays[..n]) && MergeableItem(idKey, updated, overlays[n]))
      && (MergeableList(idKey, base, overlays) ==> MergeableList(idKey, base, more))
  {
    assert overlays[..n + 1][..n] == overlays[..n] && overlays[..n + 1][n] == overlays[n];
    if MergeableList(idKey, base, overlays) {
      MergeablePrefix(idKey, base, overlays, n + 1);
    }
  }

  method UpdateDictList(idKey: Option<string>, base: seq<Json>, overlays: seq<Json>) returns (r: Result<seq<Json>, ()>)
    requires base != []
    ensures r.Success? <==> MergeableList(idKey, base, overlays)
    ensures r.Success? ==> r.value == Updated(idKey, base, overlays) + Appended(idKey, base, overlays)
    decreases overlays, 0
  {
    var baseValues, toAppend := base, [];
    var n := 0;
    while n < |overlays|
      invariant n <= |overlays|
      invariant MergeableList(idKey, base, overlays[..n])
      invariant baseValues == Updated(idKey, base, overlays[..n])
      invariant toAppend == Appended(idKey, base, overlays[..n])
    {
      ListStep(idKey, base, overlays, n);
      var sub := UpdateMatching(idKey, baseValues, overlays[n]);
      if sub.Failure? {
        return Failure(());
      }
      if !sub.value.1 {
        toAppend := toAppend + [overlays[n]];
      }
      baseValues := sub.value.0;
      n := n + 1;
    }
    assert overlays[..n] == overlays;
    return Success(baseValues + toAppend);
  }

  /** One overlay item against the whole base list; every match is merged, not only the first. */
  method UpdateMatching(idKey: Option<string>, base: seq<Json>, overlay: Json)
    returns (r: Result<(seq<Json>, bool), ()>)
    requires base != []
    ensures r.Success? <==> MergeableItem(idKey, base, overlay)
    ensures r.Success? ==>
      r.value == (UpdateItems(idKey, base, overlay), exists b :: b in base && SameId(idKey, b, overlay))
    decreases overlay, 2
  {
    var values, wasReplaced := [], false;
    var i := 0;
    while i < |base|
      invariant i <= |base| && |values| == i
      invariant forall j :: 0 <= j < i ==>
        && base[j].Dict? && overlay.Dict? && (SameId(idKey, base[j], overlay) ==> Mergeable(base[j], overlay))
        && values[j] == if SameId(idKey, base[j], overlay) then Merge(base[j], overlay) else base[j]
      invariant wasReplaced <==> exists j :: 0 <= j < i && SameId(idKey, base[j], overlay)
    {
      var item := base[i];
      assert item in base;
      if !item.Dict? || !overlay.Dict? {
        return Failure(());
      }
      if IdOf(item, idKey) == IdOf(overlay, idKey) {
        var sub := MergeOverlay(item.fields, overlay.fields);
        assert item == Dict(item.fields) && overlay == Dict(overlay.fields);
        if sub.Failure? {
          return Failure(());
        }
        item := Dict(sub.value);
        wasReplaced := true;
      }
      values := values + [item];
      i := i + 1;
    }
    assert values == UpdateItems(idKey, base, overlay);
    return Success((values, wasReplaced));
  }
}
