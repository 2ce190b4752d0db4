/** Series-specific overrides of an entitlement dict. */
module SeriesOverrides {
  import opened Common
  import opened Json

  /** The override map for a series: {} when there is none, None where Python raises on a non-dict. */
  ghost function OverridesFor(ent: Fields, series: string): Option<Fields> {
    if "series" !in ent then Some(map[])
    else if !ent["series"].Dict? then None
    else if series !in ent["series"].fields then Some(map[])
    else if !ent["series"].fields[series].Dict? then None
    else Some(ent["series"].fields[series].fields)
  }

  /** What dict.update takes as a key and a value: a list of the two, or a string of two characters. */
  ghost predicate IsPair(item: Json, key: string, value: Json) {
    item == List([Str(key), value]) || (value.Str? && |key| == 1 && |value.s| == 1 && item == Str(key + value.s))
  }

  ghost predicate IsPairFor(item: Json, key: string) {
    exists value :: IsPair(item, key, value)
  }

  ghost predicate IsSomePair(item: Json) {
    exists key :: IsPairFor(item, key)
  }

  /** What dict.update takes at all. */
  ghost predicate TakesUpdate(value: Json) {
    || value.Dict? || value == Str("")
    || (value.List? && forall i :: 0 <= i < |value.items| ==> IsSomePair(value.items[i]))
  }

  function Pair(item: Json): (r: Option<(string, Json)>)
    ensures forall k, v :: r == Some((k, v)) <==> IsPair(item, k, v)
  {
    match item
    case List(parts) => if |parts| == 2 && parts[0].Str? then Some((parts[0].s, parts[1])) else None
    case Str(s) => if |s| == 2 then Some((s[..1], Str(s[1..]))) else None
    case _ => None
  }

  /** Later pairs replace earlier ones; None at the first element that is no pair. */
  function Pairs(items: seq<Json>): Option<Fields> {
    if items == [] then Some(map[])
    else
      var front, last := Pairs(items[..|items| - 1]), Pair(items[|items| - 1]);
      if front.None? || last.None? then None else Some(front.value[last.value.0 := last.value.1])
  }

  /** What dict.update adds for a value: a dict, a list of pairs, or an empty string; None where it raises. */
  function UpdateWith(value: Json): Option<Fields> {
    match value
    case Dict(fields) => Some(fields)
    case List(items) => Pairs(items)
    case Str(s) => if s == "" then Some(map[]) else None
    case _ => None
  }

  lemma PairIs(item: Json, key: string)
    ensures Pair(item).Some? <==> IsSomePair(item)
    ensures IsPairFor(item, key) <==> Pair(item).Some? && Pair(item).value.0 == key
  {
    if Pair(item).Some? {
      assert IsPair(item, Pair(item).value.0, Pair(item).value.1);
      assert IsPairFor(item, Pair(item).value.0);
    }
    if IsSomePair(item) {
      var k :| IsPairFor(item, k);
      var v :| IsPair(item, k, v);
      assert Pair(item) == Some((k, v));
    }
  }

  lemma {:induction false} AllPairs(items: seq<Json>)
    ensures Pairs(items).Some? <==> forall i :: 0 <= i < |items| ==> IsSomePair(items[i])
  {
    if items == [] {
    } else {
      var n := |items| - 1;
      AllPairs(items[..n]);
      PairIs(items[n], "");
      assert forall i :: 0 <= i < n ==> items[..n][i] == items[i];
    }
  }

  /** Of several pairs for a key the last one counts. */
  lemma {:induction false} LastPairCounts(items: seq<Json>, key: string, i: nat)
    requires Pairs(items).Some? && i < |items| && IsPairFor(items[i], key)
    requires forall j :: i < j < |items| ==> !IsPairFor(items[j], key)
    ensures key in Pairs(items).value && IsPair(items[i], key, Pairs(items).value[key])
  {
    var n := |items| - 1;
    PairIs(items[n], key);
    if i < n {
      assert items[..n][i] == items[i] && forall j :: i < j < n ==> items[..n][j] == items[j];
      LastPairCounts(items[..n], key, i);
    }
  }

  lemma {:induction false} NoOtherKeys(items: seq<Json>, key: string)
    requires Pairs(items).Some? && forall i :: 0 <= i < |items| ==> !IsPairFor(items[i], key)
    ensures key !in Pairs(items).value
  {
    if items == [] {
    } else {
      var n := |items| - 1;
      PairIs(items[n], key);
      assert forall i :: 0 <= i < n ==> items[..n][i] == items[i];
      NoOtherKeys(items[..n], key);
    }
  }

  /** Exactly these values can update a dict; a dict adds its own entries, an empty string none. */
  lemma UpdatesAre(value: Json)
    ensures UpdateWith(value).Some? <==> TakesUpdate(value)
    ensures value.Dict? ==> UpdateWith(value) == Some(value.fields)
    ensures value == Str("") ==> UpdateWith(value) == Some(map[])
  {
    if value.List? {
      AllPairs(value.items);
    }
  }

  ghost predicate DictsUpdatable(base: Fields, overrides: Fields) {
    forall k :: k in overrides && k in base && base[k].Dict? ==> UpdateWith(overrides[k]).Some?
  }

  /** No override raises. */
  ghost predicate Applicable(ent: Fields, series: string) {
    var o := OverridesFor(ent, series);
    o.Some? && DictsUpdatable(ent - {"series"}, o.value)
  }

  /** The same, read off the document: what is looked up is a dict, and every dict to be updated meets a value that an
      update takes. */
  ghost predicate CanApply(ent: Fields, series: string) {
    "series" in ent ==>
      && ent["series"].Dict?
      && (series in ent["series"].fields ==>
            && ent["series"].fields[series].Dict?
            && forall k :: k in ent["series"].fields[series].fields && k in ent && k != "series" && ent[k].Dict? ==>
                 TakesUpdate(ent["series"].fields[series].fields[k]))
  }

  lemma ApplicableIs(ent: Fields, series: string)
    ensures Applicable(ent, series) <==> CanApply(ent, series)
  {
    if OverridesFor(ent, series).Some? {
      var o, base := OverridesFor(ent, series).value, ent - {"series"};
      forall k | k in o ensures UpdateWith(o[k]).Some? <==> TakesUpdate(o[k]) {
        UpdatesAre(o[k]);
      }
    }
  }

  ghost function OverrideValue(base: Fields, overrides: Fields, k: string): Json
    requires k in base || k in overrides
  {
    if k !in overrides then base[k]
    else if k in base && base[k].Dict? && UpdateWith(overrides[k]).Some? then
      Dict(base[k].fields + UpdateWith(overrides[k]).value)
    else overrides[k]
  }

  ghost function Overridden(ent: Fields, series: string): Fields
    requires Applicable(ent, series)
  {
    var base, overrides := ent - {"series"}, OverridesFor(ent, series).value;
    map k | k in base.Keys + overrides.Keys :: OverrideValue(base, overrides, k)
  }

  /** An entitlement dict that several places hold a reference to. */
  class Entitlement {
    var fields: Fields

    constructor (fields: Fields)
      ensures this.fields == fields
    {
      this.fields := fields;
    }

    /** Pops the `series` key first, then updates or replaces key by key, in any order. An error leaves the dict without
        its `series` key and with some of the overrides applied. */
    method ApplySeriesOverrides(series: string) returns (ok: bool)
      modifies this
      ensures ok <==> old(Applicable(fields, series))
      ensures ok <==> old(CanApply(fields, series))
      ensures ok ==> fields == old(Overridden(fields, series))
      ensures "series" in fields ==> old(BringsSeries(fields, series))
    {
      ApplicableIs(fields, series);
      ghost var was := fields;
      if "series" !in fields {
        assert fields - {"series"} == fields;
        assert Overridden(was, series) == was;
        return true;
      }
      var seriesMap := fields["series"];
      fields := fields - {"series"};
      if !seriesMap.Dict? {
        return false;
      }
      if series !in seriesMap.fields {
        assert Overridden(was, series) == fields;
        return true;
      }
      var overrides := seriesMap.fields[series];
      if !overrides.Dict? {
        return false;
      }
      ghost var base := fields;
      var todo := overrides.fields.Keys;
      while todo != {}
        invariant todo <= overrides.fields.Keys
        invariant DictsUpdatable(base, map k | k in overrides.fields && k !in todo :: overrides.fields[k])
        invariant fields.Keys == base.Keys + (overrides.fields.Keys - todo)
        invariant forall k :: k in fields ==>
          fields[k] == if k in todo then base[k] else OverrideValue(base, overrides.fields, k)
      {
        var key :| key in todo;
        var value := overrides.fields[key];
        if key in fields && fields[key].Dict? {
          var update := UpdateWith(value);
          if update.None? {
            return false;
          }
          fields := fields[key := Dict(fields[key].fields + update.value)];
        } else {
          fields := fields[key := value];
        }
        todo := todo - {key};
      }
      assert DictsUpdatable(base, overrides.fields);
      assert fields == Overridden(was, series);
      return true;
    }

    /** An error is raised once only: the second attempt finds no overrides and leaves the dict as the first left it,
        unless the override map has brought a `series` key of its own. */
    method RetryAfterFailure(series: string, again: string) returns (first: bool, second: bool)
      modifies this
      ensures first <==> old(Applicable(fields, series))
      ensures first ==> (second <==> old(Applicable(Overridden(fields, series), again)))
      ensures first && second ==> fields == old(Overridden(Overridden(fields, series), again))
      ensures !old(BringsSeries(fields, series)) ==> second && (first ==> fields == old(Overridden(fields, series)))
    {
      first := ApplySeriesOverrides(series);
      ghost var was := fields;
      second := ApplySeriesOverrides(again);
      if "series" !in was {
        assert was - {"series"} == was;
        assert Overridden(was, again) == was;
      }
    }
  }

  /** The override map has a `series` key. */
  ghost predicate BringsSeries(ent: Fields, series: string) {
    OverridesFor(ent, series).Some? && "series" in OverridesFor(ent, series).value
  }

  /** What a caller sees afterwards, key by key. */
  lemma OverriddenKeys(ent: Fields, series: string, k: string)
    requires Applicable(ent, series) && k != "series"
    ensures var o, r := OverridesFor(ent, series).value, Overridden(ent, series);
      && (k in r <==> k in ent || k in o)
      && (k !in o && k in ent ==> r[k] == ent[k])
      && (k in o && !(k in ent && ent[k].Dict?) ==> r[k] == o[k])
      && (k in o && k in ent && ent[k].Dict? ==> r[k].Dict? && forall s ::
            Get(r[k].fields, s) ==
            if s in UpdateWith(o[k]).value then Some(UpdateWith(o[k]).value[s]) else Get(ent[k].fields, s))
  {
  }

  /** The result has a `series` key only if the override map brings one along; applying overrides again, for any series,
      is the identity exactly when it has none. */
  lemma OverridesAppliedOnce(ent: Fields, series: string, again: string)
    requires Applicable(ent, series) && Applicable(Overridden(ent, series), again)
    ensures "series" in Overridden(ent, series) <==> BringsSeries(ent, series)
    ensures Overridden(Overridden(ent, series), again) == Overridden(ent, series) <==>
      "series" !in Overridden(ent, series)
  {
    var r := Overridden(ent, series);
    var rr := Overridden(r, again);
    if "series" !in r {
      assert r - {"series"} == r;
      assert rr == r;
    } else {
      // an override map cannot contain itself
      assert Get(rr, "series") != Get(r, "series");
    }
  }
}
