/** Lists of dicts identified by a key: what merging two of them means when ids are present and unique. */
module KeyedLists {
  import opened Common
  import opened Json
  import opened Overlay

  ghost function Id(idk: string, item: Json): Json {
    if item.Dict? then IdOf(item, Some(idk)) else Null
  }

  ghost function Ids(idk: string, items: seq<Json>): seq<Json> {
    seq(|items|, i requires 0 <= i < |items| => Id(idk, items[i]))
  }

  ghost predicate Keyed(idk: string, items: seq<Json>) {
    && (forall i :: 0 <= i < |items| ==> items[i].Dict? && Id(idk, items[i]).Str?)
    && forall i, j :: 0 <= i < j < |items| ==> Id(idk, items[i]) != Id(idk, items[j])
  }

  ghost function Item(idk: string, items: seq<Json>, id: Json): Option<Json> {
    if items == [] then None
    else if Id(idk, items[|items| - 1]) == id then Some(items[|items| - 1])
    else Item(idk, items[..|items| - 1], id)
  }

  lemma {:induction false} ItemIs(idk: string, items: seq<Json>, id: Json)
    ensures Item(idk, items, id).Some? <==> exists i :: 0 <= i < |items| && Id(idk, items[i]) == id
    ensures Item(idk, items, id).Some? ==>
      Item(idk, items, id).value in items && Id(idk, Item(idk, items, id).value) == id
    ensures Keyed(idk, items) ==>
      forall i :: 0 <= i < |items| && Id(idk, items[i]) == id ==> Item(idk, items, id) == Some(items[i])
  {
    if items == [] {
    } else {
      ItemIs(idk, items[..|items| - 1], id);
    }
  }

  lemma {:induction false} ItemOfConcat(idk: string, a: seq<Json>, b: seq<Json>, id: Json)
    ensures Item(idk, a + b, id) == if Item(idk, b, id).Some? then Item(idk, b, id) else Item(idk, a, id)
  {
    if b == [] {
      assert a + b == a;
    } else {
      assert (a + b)[..|a + b| - 1] == a + b[..|b| - 1];
      ItemOfConcat(idk, a, b[..|b| - 1], id);
    }
  }

  /** Two keyed lists with the same ids in the same order and the same item under each id are equal. */
  lemma KeyedExtensional(idk: string, a: seq<Json>, b: seq<Json>)
    requires Keyed(idk, a) && Keyed(idk, b) && Ids(idk, a) == Ids(idk, b)
    requires forall i :: 0 <= i < |a| ==> Item(idk, a, Id(idk, a[i])) == Item(idk, b, Id(idk, a[i]))
    ensures a == b
  {
    assert |a| == |Ids(idk, a)| == |Ids(idk, b)| == |b|;
    forall i | 0 <= i < |a| ensures a[i] == b[i] {
      assert Ids(idk, a)[i] == Ids(idk, b)[i];
      ItemIs(idk, a, Id(idk, a[i]));
      ItemIs(idk, b, Id(idk, a[i]));
    }
  }

  /** The items of the overlay whose id the base lacks, in overlay order. */
  ghost function Fresh(idk: string, base: seq<Json>, overlays: seq<Json>): seq<Json> {
    if overlays == [] then []
    else
      var last := overlays[|overlays| - 1];
      Fresh(idk, base, overlays[..|overlays| - 1]) + if Item(idk, base, Id(idk, last)).Some? then [] else [last]
  }

  lemma {:induction false} FreshMembers(idk: string, base: seq<Json>, overlays: seq<Json>)
    requires Keyed(idk, overlays)
    ensures Keyed(idk, Fresh(idk, base, overlays))
    ensures forall x :: x in Fresh(idk, base, overlays) ==> x in overlays && Item(idk, base, Id(idk, x)).None?
  {
    if overlays == [] {
    } else {
      var front, last := overlays[..|overlays| - 1], overlays[|overlays| - 1];
      FreshMembers(idk, base, front);
      var f := Fresh(idk, base, front);
      forall x | x in f ensures x in overlays && Id(idk, x) != Id(idk, last) {
        var i :| 0 <= i < |front| && front[i] == x;
        assert overlays[i] == x;
      }
    }
  }

  lemma {:induction false} FreshAre(idk: string, base: seq<Json>, overlays: seq<Json>, x: Json)
    ensures x in Fresh(idk, base, overlays) <==> x in overlays && Item(idk, base, Id(idk, x)).None?
  {
    if overlays == [] {
    } else {
      FreshAre(idk, base, overlays[..|overlays| - 1], x);
      assert overlays == overlays[..|overlays| - 1] + [overlays[|overlays| - 1]];
    }
  }

  lemma {:induction false} FreshItems(idk: string, base: seq<Json>, overlays: seq<Json>)
    ensures forall id ::
      Item(idk, Fresh(idk, base, overlays), id) == if Item(idk, base, id).Some? then None else Item(idk, overlays, id)
  {
    if overlays == [] {
    } else {
      var front, last := overlays[..|overlays| - 1], overlays[|overlays| - 1];
      FreshItems(idk, base, front);
      var f := Fresh(idk, base, front);
      forall id ensures Item(idk, Fresh(idk, base, overlays), id) ==
        if Item(idk, base, id).Some? then None else Item(idk, overlays, id)
      {
        ItemOfConcat(idk, f, [last], id);
        ItemOfConcat(idk, f, [], id);
        assert f + [] == f;
      }
    }
  }

  /** One item of the merged list. */
  ghost function Combined(a: Option<Json>, b: Option<Json>): Option<Json>
    requires a.Some? ==> a.value.Dict?
    requires b.Some? ==> b.value.Dict?
  {
    if a.None? then b else if b.None? then a else Some(Merge(a.value, b.value))
  }

  lemma MergeKeepsId(idk: string, base: Json, overlay: Json)
    requires base.Dict? && overlay.Dict? && Id(idk, base) == Id(idk, overlay) && Id(idk, base).Str?
    ensures Id(idk, Merge(base, overlay)) == Id(idk, base)
  {
    assert Merge(base, overlay).fields[idk] == MergeAt(base, overlay, idk);
  }

  lemma {:induction false} UpdatedIs(idk: string, base: seq<Json>, overlays: seq<Json>)
    requires Keyed(idk, base) && Keyed(idk, overlays)
    ensures |Updated(Some(idk), base, overlays)| == |base|
    ensures forall i :: 0 <= i < |base| ==>
      && Item(idk, overlays, Id(idk, base[i])).Some? ==> Item(idk, overlays, Id(idk, base[i])).value.Dict?
    ensures forall i :: 0 <= i < |base| ==>
      && Some(Updated(Some(idk), base, overlays)[i]) == Combined(Some(base[i]), Item(idk, overlays, Id(idk, base[i])))
      && Id(idk, Updated(Some(idk), base, overlays)[i]) == Id(idk, base[i])
      && Updated(Some(idk), base, overlays)[i].Dict?
  {
    forall i | 0 <= i < |base| {
      ItemIs(idk, overlays, Id(idk, base[i]));
    }
    if overlays != [] {
      var front, last := overlays[..|overlays| - 1], overlays[|overlays| - 1];
      UpdatedIs(idk, base, front);
      var before := Updated(Some(idk), base, front);
      forall i | 0 <= i < |base|
        ensures Some(UpdateItems(Some(idk), before, last)[i]) ==
          Combined(Some(base[i]), Item(idk, overlays, Id(idk, base[i])))
        ensures Id(idk, UpdateItems(Some(idk), before, last)[i]) == Id(idk, base[i])
      {
        ItemIs(idk, front, Id(idk, base[i]));
        if SameId(Some(idk), before[i], last) {
          assert before[i] == base[i];
          MergeKeepsId(idk, base[i], last);
        }
      }
    }
  }

  lemma {:induction false} AppendedIs(idk: string, base: seq<Json>, overlays: seq<Json>)
    requires Keyed(idk, base) && Keyed(idk, overlays)
    ensures Appended(Some(idk), base, overlays) == Fresh(idk, base, overlays)
  {
    if overlays == [] {
    } else {
      var front, last := overlays[..|overlays| - 1], overlays[|overlays| - 1];
      AppendedIs(idk, base, front);
      UpdatedIs(idk, base, front);
      ItemIs(idk, base, Id(idk, last));
      var before := Updated(Some(idk), base, front);
      if Item(idk, base, Id(idk, last)).Some? {
        var i :| 0 <= i < |base| && Id(idk, base[i]) == Id(idk, last);
        assert before[i] in before && SameId(Some(idk), before[i], last);
      }
    }
  }

  /** The merged list: base items first and in place, each merged with the overlay item of the same id, then the overlay
      items with new ids in overlay order. */
  lemma MergedList(idk: string, base: seq<Json>, overlays: seq<Json>)
    requires Keyed(idk, base) && Keyed(idk, overlays)
    ensures var r := Updated(Some(idk), base, overlays) + Appended(Some(idk), base, overlays);
      && Keyed(idk, r)
      && Ids(idk, r) == Ids(idk, base) + Ids(idk, Fresh(idk, base, overlays))
      && forall id ::
           && (Item(idk, base, id).Some? ==> Item(idk, base, id).value.Dict?)
           && (Item(idk, overlays, id).Some? ==> Item(idk, overlays, id).value.Dict?)
           && Item(idk, r, id) == Combined(Item(idk, base, id), Item(idk, overlays, id))
  {
    var u, f := Updated(Some(idk), base, overlays), Fresh(idk, base, overlays);
    UpdatedIs(idk, base, overlays);
    AppendedIs(idk, base, overlays);
    FreshItems(idk, base, overlays);
    FreshMembers(idk, base, overlays);
    assert Keyed(idk, u);
    forall i | 0 <= i < |base| ensures Item(idk, base, Id(idk, u[i])).Some? {
      ItemIs(idk, base, Id(idk, base[i]));
    }
    forall j | 0 <= j < |f| ensures Item(idk, base, Id(idk, f[j])).None? {
      assert f[j] in f;
    }
    assert Keyed(idk, u + f);
    assert Ids(idk, u + f) == Ids(idk, base) + Ids(idk, f);
    forall id
      ensures Item(idk, base, id).Some? ==> Item(idk, base, id).value.Dict?
      ensures Item(idk, overlays, id).Some? ==> Item(idk, overlays, id).value.Dict?
      ensures Item(idk, u + f, id) == Combined(Item(idk, base, id), Item(idk, overlays, id))
    {
      ItemIs(idk, base, id);
      ItemIs(idk, overlays, id);
      ItemIs(idk, u, id);
      ItemOfConcat(idk, u, f, id);
      if Item(idk, base, id).Some? {
        var i :| 0 <= i < |base| && Id(idk, base[i]) == id;
        assert Id(idk, u[i]) == id;
      } else {
        assert Item(idk, u, id).None?;
      }
    }
  }

  /** The ids that are not among the known ones. */
  ghost function FreshIds(ids: seq<Json>, known: seq<Json>): seq<Json> {
    if ids == [] then []
    else FreshIds(ids[..|ids| - 1], known) + if ids[|ids| - 1] in known then [] else [ids[|ids| - 1]]
  }

  lemma {:induction false} IdsOfFresh(idk: string, base: seq<Json>, overlays: seq<Json>)
    ensures Ids(idk, Fresh(idk, base, overlays)) == FreshIds(Ids(idk, overlays), Ids(idk, base))
  {
    if overlays == [] {
    } else {
      var front, last := overlays[..|overlays| - 1], overlays[|overlays| - 1];
      IdsOfFresh(idk, base, front);
      ItemIs(idk, base, Id(idk, last));
      assert Ids(idk, overlays)[..|overlays| - 1] == Ids(idk, front);
      assert Id(idk, last) in Ids(idk, base) <==> exists i :: 0 <= i < |base| && Id(idk, base[i]) == Id(idk, last) by {
        if i :| 0 <= i < |base| && Id(idk, base[i]) == Id(idk, last) {
          assert Ids(idk, base)[i] == Id(idk, last);
        }
      }
      assert Ids(idk, [last]) == [Id(idk, last)];
      assert Ids(idk, Fresh(idk, base, front) + [last]) == Ids(idk, Fresh(idk, base, front)) + [Id(idk, last)];
    }
  }

  lemma {:induction false} FreshIdsMembers(ids: seq<Json>, known: seq<Json>)
    ensures forall x :: x in FreshIds(ids, known) <==> x in ids && x !in known
  {
    if ids == [] {
    } else {
      FreshIdsMembers(ids[..|ids| - 1], known);
    }
  }

  lemma {:induction false} FreshIdsOfConcat(a: seq<Json>, b: seq<Json>, known: seq<Json>)
    ensures FreshIds(a + b, known) == FreshIds(a, known) + FreshIds(b, known)
  {
    if b == [] {
      assert a + b == a;
    } else {
      assert (a + b)[..|a + b| - 1] == a + b[..|b| - 1];
      FreshIdsOfConcat(a, b[..|b| - 1], known);
    }
  }

  lemma {:induction false} FreshIdsTwice(ids: seq<Json>, known: seq<Json>, more: seq<Json>, all: seq<Json>)
    requires forall x :: x in all <==> x in known || x in more
    ensures FreshIds(FreshIds(ids, known), more) == FreshIds(ids, all)
  {
    if ids == [] {
    } else {
      var front, last := ids[..|ids| - 1], ids[|ids| - 1];
      FreshIdsTwice(front, known, more, all);
      if last in known {
        assert FreshIds(front, known) + [] == FreshIds(front, known);
      } else {
        FreshIdsOfConcat(FreshIds(front, known), [last], more);
        assert [last][..0] == [];
      }
    }
  }

  /** The ids after two merges do not depend on which merge comes first. */
  lemma IdsStack(a: seq<Json>, b: seq<Json>, c: seq<Json>)
    ensures var ab, bc := a + FreshIds(b, a), b + FreshIds(c, b);
      ab + FreshIds(c, ab) == a + FreshIds(bc, a)
  {
    var ab := a + FreshIds(b, a);
    FreshIdsOfConcat(b, FreshIds(c, b), a);
    FreshIdsMembers(b, a);
    FreshIdsTwice(c, b, a, ab);
  }
}
