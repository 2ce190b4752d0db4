/** Laws of the overlay merge on well-formed documents. */
module OverlayLaws {
  import opened Common
  import opened Json
  import opened Overlay
  import opened KeyedLists

  /** Lists of dicts occur only under the keys that have an id key, with string ids, present and unique. */
  ghost predicate WellFormed(j: Json)
    decreases j, 0
  {
    j.Dict? ==> forall k :: k in j.fields ==> WellFormedAt(k, j.fields[k])
  }

  ghost predicate WellFormedAt(k: string, v: Json)
    decreases v, 1
  {
    match v
    case Dict(_) => WellFormed(v)
    case List(items) =>
      if IdKey(k).Some? then Keyed(IdKey(k).value, items) && forall x :: x in items ==> WellFormed(x)
      else forall x :: x in items ==> !x.Dict?
    case _ => true
  }

  ghost predicate KeyedListAt(k: string, v: Json) {
    v.List? && IdKey(k).Some?
  }

  lemma {:induction false} FreshAll(idk: string, base: seq<Json>, overlays: seq<Json>)
    requires forall x :: x in overlays ==> Item(idk, base, Id(idk, x)).None?
    ensures Fresh(idk, base, overlays) == overlays
  {
    if overlays == [] {
    } else {
      FreshAll(idk, base, overlays[..|overlays| - 1]);
    }
  }

  lemma {:induction false} FreshNone(idk: string, base: seq<Json>, overlays: seq<Json>)
    requires forall x :: x in overlays ==> Item(idk, base, Id(idk, x)).Some?
    ensures Fresh(idk, base, overlays) == []
  {
    if overlays == [] {
    } else {
      FreshNone(idk, base, overlays[..|overlays| - 1]);
    }
  }

  /** Two keyed lists under the same key, the base possibly empty: base order first, then the new ids in overlay order;
      under each id the merged item. */
  lemma MergedKeyedLists(k: string, a: Json, b: Json)
    requires KeyedListAt(k, a) && KeyedListAt(k, b) && WellFormedAt(k, a) && WellFormedAt(k, b)
    ensures var idk, r := IdKey(k).value, MergeValue(k, a, b);
      && r.List? && Keyed(idk, r.items)
      && Ids(idk, r.items) == Ids(idk, a.items) + FreshIds(Ids(idk, b.items), Ids(idk, a.items))
      && forall id ::
           && (Item(idk, a.items, id).Some? ==> Item(idk, a.items, id).value.Dict?)
           && (Item(idk, b.items, id).Some? ==> Item(idk, b.items, id).value.Dict?)
           && Item(idk, r.items, id) == Combined(Item(idk, a.items, id), Item(idk, b.items, id))
  {
    var idk := IdKey(k).value;
    MergedList(idk, a.items, b.items);
    IdsOfFresh(idk, a.items, b.items);
    if a.items == [] {
      FreshAll(idk, [], b.items);
    }
  }

  lemma ItemInside(k: string, v: Json, id: Json)
    requires KeyedListAt(k, v) && WellFormedAt(k, v)
    ensures var it := Item(IdKey(k).value, v.items, id);
      it.Some? ==> it.value in v.items && it.value.Dict? && WellFormed(it.value)
  {
    ItemIs(IdKey(k).value, v.items, id);
  }

  /** Merging well-formed documents raises nothing and stays well-formed. */
  lemma {:induction false} MergeWellFormed(a: Json, b: Json)
    requires a.Dict? && b.Dict? && WellFormed(a) && WellFormed(b)
    ensures WellFormed(Merge(a, b))
    decreases b, 1
  {
    forall k | k in Merge(a, b).fields ensures WellFormedAt(k, Merge(a, b).fields[k]) {
      if k in a.fields && k in b.fields {
        ValueWellFormed(k, a.fields[k], b.fields[k]);
      }
    }
  }

  lemma {:induction false} ValueWellFormed(k: string, a: Json, b: Json)
    requires WellFormedAt(k, a) && WellFormedAt(k, b)
    ensures WellFormedAt(k, MergeValue(k, a, b))
    decreases b, 2
  {
    if a.Dict? && b.Dict? {
      MergeWellFormed(a, b);
    } else if KeyedListAt(k, a) && KeyedListAt(k, b) {
      var idk, r := IdKey(k).value, MergeValue(k, a, b);
      MergedKeyedLists(k, a, b);
      forall x | x in r.items ensures WellFormed(x) {
        var id := Id(idk, x);
        ItemIs(idk, r.items, id);
        ItemInside(k, a, id);
        ItemInside(k, b, id);
        if Item(idk, a.items, id).Some? && Item(idk, b.items, id).Some? {
          MergeWellFormed(Item(idk, a.items, id).value, Item(idk, b.items, id).value);
        }
      }
    }
  }

  lemma {:induction false} SelfMerge(a: Json)
    requires a.Dict? && WellFormed(a)
    ensures Merge(a, a) == a
    decreases a, 1
  {
    forall k | k in a.fields ensures MergeValue(k, a.fields[k], a.fields[k]) == a.fields[k] {
      SelfMergeValue(k, a.fields[k]);
    }
    assert Merge(a, a).fields == a.fields;
  }

  lemma {:induction false} SelfMergeValue(k: string, v: Json)
    requires WellFormedAt(k, v)
    ensures MergeValue(k, v, v) == v
    decreases v, 2
  {
    if v.Dict? {
      SelfMerge(v);
    } else if KeyedListAt(k, v) {
      var idk, r := IdKey(k).value, MergeValue(k, v, v);
      MergedKeyedLists(k, v, v);
      assert forall i :: 0 <= i < |v.items| ==> Ids(idk, v.items)[i] == Id(idk, v.items[i]);
      KeepIds(idk, v.items, v.items);
      forall id ensures Item(idk, r.items, id) == Item(idk, v.items, id) {
        ItemInside(k, v, id);
        if Item(idk, v.items, id).Some? {
          SelfMerge(Item(idk, v.items, id).value);
        }
      }
      KeyedExtensional(idk, r.items, v.items);
    }
  }

  lemma {:induction false} FreshIdsNone(ids: seq<Json>, known: seq<Json>)
    requires forall x :: x in ids ==> x in known
    ensures FreshIds(ids, known) == []
  {
    if ids == [] {
    } else {
      FreshIdsNone(ids[..|ids| - 1], known);
    }
  }

  /** An overlay with known ids only adds none. */
  lemma KeepIds(idk: string, base: seq<Json>, overlays: seq<Json>)
    requires forall x :: x in overlays ==> Id(idk, x) in Ids(idk, base)
    ensures Ids(idk, base) + FreshIds(Ids(idk, overlays), Ids(idk, base)) == Ids(idk, base)
  {
    forall i | 0 <= i < |overlays| ensures Ids(idk, overlays)[i] in Ids(idk, base) {
      assert overlays[i] in overlays;
    }
    FreshIdsNone(Ids(idk, overlays), Ids(idk, base));
  }

  lemma MergeKeys(a: Json, b: Json, k: string)
    requires a.Dict? && b.Dict?
    ensures Get(Merge(a, b).fields, k) == if k in a.fields || k in b.fields then Some(MergeAt(a, b, k)) else None
  {
  }

  /** Merging the same overlay twice equals merging it once. */
  lemma {:induction false} MergeIdempotent(base: Json, overlay: Json)
    requires base.Dict? && overlay.Dict? && WellFormed(base) && WellFormed(overlay)
    ensures Merge(Merge(base, overlay), overlay) == Merge(base, overlay)
    decreases overlay, 1
  {
    var r := Merge(base, overlay);
    forall k | k in overlay.fields ensures MergeValue(k, r.fields[k], overlay.fields[k]) == r.fields[k] {
      MergeKeys(base, overlay, k);
      if k in base.fields {
        ValueIdempotent(k, base.fields[k], overlay.fields[k]);
      } else {
        SelfMergeValue(k, overlay.fields[k]);
      }
    }
    assert Merge(r, overlay).fields == r.fields;
  }

  lemma {:induction false} ValueIdempotent(k: string, base: Json, overlay: Json)
    requires WellFormedAt(k, base) && WellFormedAt(k, overlay)
    ensures MergeValue(k, MergeValue(k, base, overlay), overlay) == MergeValue(k, base, overlay)
    decreases overlay, 2
  {
    if base.Dict? && overlay.Dict? {
      MergeIdempotent(base, overlay);
    } else if KeyedListAt(k, base) && KeyedListAt(k, overlay) {
      var idk, r := IdKey(k).value, MergeValue(k, base, overlay);
      ValueWellFormed(k, base, overlay);
      MergedKeyedLists(k, base, overlay);
      MergedKeyedLists(k, r, overlay);
      forall x | x in overlay.items ensures Id(idk, x) in Ids(idk, r.items) {
        ItemIs(idk, overlay.items, Id(idk, x));
        ItemIs(idk, r.items, Id(idk, x));
        var i :| 0 <= i < |r.items| && Id(idk, r.items[i]) == Id(idk, x);
        assert Ids(idk, r.items)[i] == Id(idk, x);
      }
      KeepIds(idk, r.items, overlay.items);
      var rr := MergeValue(k, r, overlay);
      forall id ensures Item(idk, rr.items, id) == Item(idk, r.items, id) {
        ItemInside(k, base, id);
        ItemInside(k, overlay, id);
        if Item(idk, overlay.items, id).Some? {
          if Item(idk, base.items, id).Some? {
            MergeIdempotent(Item(idk, base.items, id).value, Item(idk, overlay.items, id).value);
          } else {
            SelfMerge(Item(idk, overlay.items, id).value);
          }
        }
      }
      KeyedExtensional(idk, rr.items, r.items);
    } else {
      SelfMergeValue(k, overlay);
    }
  }

  /** The second document already says everything about the first: it has all its keys, its dicts cover those of the
      first, and a keyed list starts with the ids of the first, in order, each item covering the old one. */
  ghost predicate Covers(a: Json, c: Json)
    requires a.Dict? && c.Dict?
    decreases a, 0
  {
    forall k :: k in a.fields ==> k in c.fields && CoversAt(k, a.fields[k], c.fields[k])
  }

  ghost predicate CoversAt(k: string, a: Json, c: Json)
    decreases a, 1
  {
    if a.Dict? && c.Dict? then Covers(a, c)
    else if KeyedListAt(k, a) && KeyedListAt(k, c) then
      Ids(IdKey(k).value, a.items) <= Ids(IdKey(k).value, c.items) && CoversItems(a.items, c.items)
    else true
  }

  ghost predicate CoversItems(a: seq<Json>, c: seq<Json>)
    requires |a| <= |c|
    decreases a, 0
  {
    forall i :: 0 <= i < |a| && a[i].Dict? && c[i].Dict? ==> Covers(a[i], c[i])
  }

  /** Merging into a document changes the overlay itself in no way exactly when it covers the document. */
  lemma {:induction false} CoversIsAbsorption(a: Json, c: Json)
    requires a.Dict? && c.Dict? && WellFormed(a) && WellFormed(c)
    ensures Merge(a, c) == c <==> Covers(a, c)
    decreases a, 1
  {
    var r := Merge(a, c);
    forall k ensures Get(r.fields, k) == Get(c.fields, k) <==>
      (k in a.fields ==> k in c.fields && CoversAt(k, a.fields[k], c.fields[k]))
    {
      MergeKeys(a, c, k);
      if k in a.fields && k in c.fields {
        ValueAbsorbed(k, a.fields[k], c.fields[k]);
      }
    }
    if Covers(a, c) {
      SameFields(r.fields, c.fields);
    }
  }

  lemma {:induction false} ValueAbsorbed(k: string, a: Json, c: Json)
    requires WellFormedAt(k, a) && WellFormedAt(k, c)
    ensures MergeValue(k, a, c) == c <==> CoversAt(k, a, c)
    decreases a, 2
  {
    if a.Dict? && c.Dict? {
      CoversIsAbsorption(a, c);
    } else if KeyedListAt(k, a) && KeyedListAt(k, c) {
      var idk, r := IdKey(k).value, MergeValue(k, a, c);
      ValueWellFormed(k, a, c);
      MergedKeyedLists(k, a, c);
      if Ids(idk, a.items) <= Ids(idk, c.items) {
        FreshIdsOfPrefix(idk, a.items, c.items);
        ItemsAbsorbed(k, idk, a, c, r);
        if CoversAt(k, a, c) {
          KeyedExtensional(idk, r.items, c.items);
        }
      }
    }
  }

  lemma FreshIdsOfPrefix(idk: string, a: seq<Json>, c: seq<Json>)
    requires Keyed(idk, c) && Ids(idk, a) <= Ids(idk, c)
    ensures Ids(idk, a) + FreshIds(Ids(idk, c), Ids(idk, a)) == Ids(idk, c)
  {
    var x, z := Ids(idk, a), Ids(idk, c);
    assert Distinct(z) && z == x + z[|x|..];
    PrefixIsKnown(x, z[|x|..]);
  }

  lemma RestIsUnknown(x: seq<Json>, rest: seq<Json>)
    requires Distinct(x + rest)
    ensures forall y :: y in rest ==> y !in x
  {
    forall i, j | 0 <= i < |x| && 0 <= j < |rest| ensures x[i] != rest[j] {
      assert (x + rest)[i] != (x + rest)[|x| + j];
    }
  }

  lemma PrefixIsKnown(x: seq<Json>, rest: seq<Json>)
    requires Distinct(x + rest)
    ensures FreshIds(x + rest, x) == rest
  {
    RestIsUnknown(x, rest);
    FreshIdsOfConcat(x, rest, x);
    FreshIdsNone(x, x);
    FreshIdsAll(rest, x);
    assert [] + rest == rest;
  }

  lemma {:induction false} FreshIdsAll(ids: seq<Json>, known: seq<Json>)
    requires forall x :: x in ids ==> x !in known
    ensures FreshIds(ids, known) == ids
  {
    if ids == [] {
    } else {
      FreshIdsAll(ids[..|ids| - 1], known);
    }
  }

  /** Id by id, the merged list equals the overlay exactly when each of its items covers the old one. */
  lemma {:induction false} ItemsAbsorbed(k: string, idk: string, a: Json, c: Json, r: Json)
    requires KeyedListAt(k, a) && KeyedListAt(k, c) && WellFormedAt(k, a) && WellFormedAt(k, c)
    requires IdKey(k) == Some(idk) && Ids(idk, a.items) <= Ids(idk, c.items)
    requires r == MergeValue(k, a, c) && r.List?
    ensures CoversItems(a.items, c.items) ==> forall id :: Item(idk, r.items, id) == Item(idk, c.items, id)
    ensures (forall id :: Item(idk, r.items, id) == Item(idk, c.items, id)) ==> CoversItems(a.items, c.items)
    decreases a, 1
  {
    MergedKeyedLists(k, a, c);
    if CoversItems(a.items, c.items) {
      forall id ensures Item(idk, r.items, id) == Item(idk, c.items, id) {
        if Item(idk, a.items, id).Some? {
          ItemIs(idk, a.items, id);
          var i :| 0 <= i < |a.items| && Id(idk, a.items[i]) == id;
          ItemAbsorbed(k, idk, a, c, r, i);
        }
      }
    }
    if forall id :: Item(idk, r.items, id) == Item(idk, c.items, id) {
      forall i | 0 <= i < |a.items| && a.items[i].Dict? && c.items[i].Dict? ensures Covers(a.items[i], c.items[i]) {
        ItemAbsorbed(k, idk, a, c, r, i);
      }
      assert CoversItems(a.items, c.items);
    }
  }

  lemma {:induction false} ItemAbsorbed(k: string, idk: string, a: Json, c: Json, r: Json, i: nat)
    requires KeyedListAt(k, a) && KeyedListAt(k, c) && WellFormedAt(k, a) && WellFormedAt(k, c)
    requires IdKey(k) == Some(idk) && Ids(idk, a.items) <= Ids(idk, c.items) && i < |a.items|
    requires r == MergeValue(k, a, c) && r.List?
    ensures a.items[i].Dict? && c.items[i].Dict?
    ensures Item(idk, r.items, Id(idk, a.items[i])) == Item(idk, c.items, Id(idk, a.items[i])) <==>
      Covers(a.items[i], c.items[i])
    decreases a, 0
  {
    var id := Id(idk, a.items[i]);
    MergedKeyedLists(k, a, c);
    assert Ids(idk, a.items)[i] == Ids(idk, c.items)[i];
    ItemIs(idk, a.items, id);
    ItemIs(idk, c.items, id);
    assert a.items[i] in a.items && c.items[i] in c.items;
    CoversIsAbsorption(a.items[i], c.items[i]);
  }

  /** Two overlays can be merged into one first. The condition looks only at places where the first and third document
      hold containers of the same kind: there the second must too, or else the third must cover the first. */
  ghost predicate Stackable(a: Json, b: Json, c: Json)
    requires a.Dict? && b.Dict? && c.Dict?
    decreases a, 0
  {
    forall k :: k in a.fields && k in b.fields && k in c.fields ==>
      StackableAt(k, a.fields[k], b.fields[k], c.fields[k])
  }

  ghost predicate StackableAt(k: string, a: Json, b: Json, c: Json)
    decreases a, 1
  {
    if a.Dict? && c.Dict? then (if b.Dict? then Stackable(a, b, c) else Covers(a, c))
    else if KeyedListAt(k, a) && KeyedListAt(k, c) then
      if b.List? then
        forall x :: x in a.items && x.Dict? ==>
          var y, z := Item(IdKey(k).value, b.items, Id(IdKey(k).value, x)),
            Item(IdKey(k).value, c.items, Id(IdKey(k).value, x));
          y.Some? && z.Some? && y.value.Dict? && z.value.Dict? ==> Stackable(x, y.value, z.value)
      else CoversAt(k, a, c)
    else true
  }

  /** Merging b and then c equals merging c into b first, list order included, exactly under that condition. */
  lemma {:induction false} OverlaysStack(a: Json, b: Json, c: Json)
    requires a.Dict? && b.Dict? && c.Dict? && WellFormed(a) && WellFormed(b) && WellFormed(c)
    ensures Merge(Merge(a, b), c) == Merge(a, Merge(b, c)) <==> Stackable(a, b, c)
    decreases a, 1
  {
    var left, right := Merge(Merge(a, b), c), Merge(a, Merge(b, c));
    forall k ensures Get(left.fields, k) == Get(right.fields, k) <==>
      (k in a.fields && k in b.fields && k in c.fields ==> StackableAt(k, a.fields[k], b.fields[k], c.fields[k]))
    {
      MergeKeys(a, b, k);
      MergeKeys(b, c, k);
      MergeKeys(Merge(a, b), c, k);
      MergeKeys(a, Merge(b, c), k);
      if k in a.fields && k in b.fields && k in c.fields {
        ValuesStack(k, a.fields[k], b.fields[k], c.fields[k]);
      }
    }
    if Stackable(a, b, c) {
      SameFields(left.fields, right.fields);
    }
  }

  lemma {:induction false} ValuesStack(k: string, a: Json, b: Json, c: Json)
    requires WellFormedAt(k, a) && WellFormedAt(k, b) && WellFormedAt(k, c)
    ensures MergeValue(k, MergeValue(k, a, b), c) == MergeValue(k, a, MergeValue(k, b, c)) <==> StackableAt(k, a, b, c)
    decreases a, 2
  {
    if a.Dict? && b.Dict? && c.Dict? {
      OverlaysStack(a, b, c);
    } else if KeyedListAt(k, a) && KeyedListAt(k, b) && KeyedListAt(k, c) {
      ListsStack(k, a, b, c);
    } else {
      ValueAbsorbed(k, a, c);
    }
  }

  lemma {:induction false} ListsStack(k: string, a: Json, b: Json, c: Json)
    requires WellFormedAt(k, a) && WellFormedAt(k, b) && WellFormedAt(k, c)
    requires KeyedListAt(k, a) && KeyedListAt(k, b) && KeyedListAt(k, c)
    ensures MergeValue(k, MergeValue(k, a, b), c) == MergeValue(k, a, MergeValue(k, b, c)) <==> StackableAt(k, a, b, c)
    decreases a, 1
  {
    var idk := IdKey(k).value;
    var ab, bc := MergeValue(k, a, b), MergeValue(k, b, c);
    var left, right := MergeValue(k, ab, c), MergeValue(k, a, bc);
    ValueWellFormed(k, a, b);
    ValueWellFormed(k, b, c);
    MergedKeyedLists(k, a, b);
    MergedKeyedLists(k, b, c);
    MergedKeyedLists(k, ab, c);
    MergedKeyedLists(k, a, bc);
    IdsStack(Ids(idk, a.items), Ids(idk, b.items), Ids(idk, c.items));
    forall id ensures Item(idk, left.items, id) == Item(idk, right.items, id) <==> StackableItem(k, a, b, c, id) {
      ItemInside(k, a, id);
      ItemInside(k, b, id);
      ItemInside(k, c, id);
      var x, y, z := Item(idk, a.items, id), Item(idk, b.items, id), Item(idk, c.items, id);
      if x.Some? && y.Some? && z.Some? {
        OverlaysStack(x.value, y.value, z.value);
      }
    }
    StackableItems(k, a, b, c);
    if StackableAt(k, a, b, c) {
      KeyedExtensional(idk, left.items, right.items);
    }
  }

  ghost predicate StackableItem(k: string, a: Json, b: Json, c: Json, id: Json)
    requires KeyedListAt(k, a) && KeyedListAt(k, b) && KeyedListAt(k, c)
  {
    var idk := IdKey(k).value;
    var x, y, z := Item(idk, a.items, id), Item(idk, b.items, id), Item(idk, c.items, id);
    x.Some? && y.Some? && z.Some? && x.value.Dict? && y.value.Dict? && z.value.Dict? ==>
      Stackable(x.value, y.value, z.value)
  }

  lemma StackableItems(k: string, a: Json, b: Json, c: Json)
    requires KeyedListAt(k, a) && KeyedListAt(k, b) && KeyedListAt(k, c) && WellFormedAt(k, a)
    ensures StackableAt(k, a, b, c) <==> forall id :: StackableItem(k, a, b, c, id)
  {
    var idk := IdKey(k).value;
    forall x | x in a.items ensures Item(idk, a.items, Id(idk, x)) == Some(x) {
      ItemIs(idk, a.items, Id(idk, x));
    }
    if StackableAt(k, a, b, c) {
      forall id ensures StackableItem(k, a, b, c, id) {
        ItemIs(idk, a.items, id);
      }
    } else {
      var x :| x in a.items && x.Dict? &&
        var y, z := Item(idk, b.items, Id(idk, x)), Item(idk, c.items, Id(idk, x));
        y.Some? && z.Some? && y.value.Dict? && z.value.Dict? && !Stackable(x, y.value, z.value);
      assert !StackableItem(k, a, b, c, Id(idk, x));
    }
  }

  /** The lists whose items have names, and the key of the name. */
  ghost predicate NamesItems(k: string, idk: string) {
    (k == "resourceEntitlements" && idk == "type") || (k == "availableResources" && idk == "name")
  }

  ghost predicate HasNames(idk: string, items: seq<Json>) {
    && (forall i :: 0 <= i < |items| ==>
          items[i].Dict? && idk in items[i].fields && items[i].fields[idk].Str?)
    && forall i, j :: 0 <= i < j < |items| ==> items[i].fields[idk] != items[j].fields[idk]
  }

  ghost predicate SameName(idk: string, x: Json, y: Json) {
    x.Dict? && y.Dict? && idk in x.fields && idk in y.fields && x.fields[idk] == y.fields[idk]
  }

  /** Entitlements merge by type and resources by name: in place where the overlay names them, and behind all others
      where the base does not. */
  lemma NamedListsMerge(k: string, idk: string, base: Json, overlay: Json)
    requires NamesItems(k, idk) && base.List? && overlay.List?
    requires HasNames(idk, base.items) && HasNames(idk, overlay.items)
    ensures var r := MergeValue(k, base, overlay);
      && r.List? && |r.items| >= |base.items|
      && (forall i, y :: 0 <= i < |base.items| && y in overlay.items && SameName(idk, base.items[i], y) ==>
            r.items[i] == Merge(base.items[i], y))
      && (forall i :: 0 <= i < |base.items| && (forall y :: y in overlay.items ==> !SameName(idk, base.items[i], y)) ==>
            r.items[i] == base.items[i])
      && (forall y :: y in r.items[|base.items|..] <==>
            y in overlay.items && forall x :: x in base.items ==> !SameName(idk, x, y))
  {
    var b, o := base.items, overlay.items;
    NewNames(idk, b, o);
    if b == [] {
      FreshAll(idk, b, o);
    } else {
      UpdatedIs(idk, b, o);
      AppendedIs(idk, b, o);
      assert MergeValue(k, base, overlay).items[|b|..] == Fresh(idk, b, o);
      forall i | 0 <= i < |b|
        ensures forall y :: y in o && SameName(idk, b[i], y) ==> Item(idk, o, Id(idk, b[i])) == Some(y)
        ensures (forall y :: y in o ==> !SameName(idk, b[i], y)) ==> Item(idk, o, Id(idk, b[i])) == None
      {
        NamedItem(idk, o, b[i]);
      }
    }
  }

  lemma NamedItem(idk: string, items: seq<Json>, x: Json)
    requires HasNames(idk, items) && x.Dict? && idk in x.fields
    ensures forall y :: y in items && SameName(idk, x, y) ==> Item(idk, items, Id(idk, x)) == Some(y)
    ensures (forall y :: y in items ==> !SameName(idk, x, y)) ==> Item(idk, items, Id(idk, x)) == None
  {
    ItemIs(idk, items, Id(idk, x));
  }

  lemma NewNames(idk: string, base: seq<Json>, overlays: seq<Json>)
    requires HasNames(idk, base) && HasNames(idk, overlays)
    ensures forall y :: y in Fresh(idk, base, overlays) <==>
      y in overlays && forall x :: x in base ==> !SameName(idk, x, y)
  {
    forall y ensures y in Fresh(idk, base, overlays) <==>
      y in overlays && forall x :: x in base ==> !SameName(idk, x, y)
    {
      FreshAre(idk, base, overlays, y);
      if y in overlays {
        ItemIs(idk, base, Id(idk, y));
      }
    }
  }

  /** Under any other key, dicts in a list are not told apart. */
  lemma UnnamedListsMerge(k: string, x: Json, y: Json)
    requires k != "resourceEntitlements" && k != "availableResources" && x.Dict? && y.Dict?
    ensures MergeValue(k, List([x]), List([y])) == List([Merge(x, y)])
  {
    assert Updated(None, [x], [y]) == [Merge(x, y)] by {
      assert [y][..0] == [] && [x][..0] == [];
      assert Updated(None, [x], []) == [x] && SameId(None, x, y);
      assert UpdateItems(None, [x], y) == [Merge(x, y)];
    }
    assert Appended(None, [x], [y]) == [] by {
      assert [y][..0] == [] && SameId(None, x, y);
      assert x in Updated(None, [x], []);
    }
  }
}
