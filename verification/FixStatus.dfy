/** Package statuses: the USN override, the pockets, and the grouping of affected source packages. */
module FixStatus {
  import opened Common
  import opened Usn

  datatype PkgStatus = PkgStatus(status: string, pocket: string, fixedVersion: string)

  datatype Pocket = Standard | Infra | Apps

  /** The service behind the pocket string; of an unknown string, the fixed version tells. */
  ghost predicate PublishedIn(s: PkgStatus, p: Pocket) {
    && (s.pocket == "esm-apps" ==> p == Apps)
    && (s.pocket == "esm-infra" ==> p == Infra)
    && (s.pocket == "updates" || s.pocket == "security" ==> p == Standard)
    && (s.pocket !in ["esm-apps", "esm-infra", "updates", "security"] ==>
          p == if Occurs("esm", s.fixedVersion) then Infra else Standard)
  }

  /** Where a fix is published. */
  function PocketSource(s: PkgStatus): (source: Pocket)
    ensures forall p :: PublishedIn(s, p) <==> p == source
  {
    ContainsOccurs(s.fixedVersion, "esm");
    if s.pocket == "esm-infra" then Infra
    else if s.pocket == "esm-apps" then Apps
    else if s.pocket == "updates" || s.pocket == "security" then Standard
    else if Contains(s.fixedVersion, "esm") then Infra
    else Standard
  }

  /** Only installed sources that are affected are kept. */
  method AffectedByCve(statuses: map<string, PkgStatus>, installed: map<string, map<string, string>>)
    returns (r: map<string, PkgStatus>)
    ensures forall src :: src in r <==> src in statuses && src in installed && statuses[src].status != "not-affected"
    ensures forall src :: src in r ==> r[src] == statuses[src]
  {
    r := map[];
    var todo := statuses.Keys;
    while todo != {}
      invariant todo <= statuses.Keys
      invariant forall src :: src in r <==>
        src in statuses && src !in todo && src in installed && statuses[src].status != "not-affected"
      invariant forall src :: src in r ==> r[src] == statuses[src]
    {
      var src :| src in todo;
      todo := todo - {src};
      if statuses[src].status == "not-affected" {
        continue;
      }
      if src in installed {
        r := r[src := statuses[src]];
      }
    }
  }

  ghost function FixedVersions(cves: seq<map<string, PkgStatus>>, src: string): seq<Option<string>> {
    seq(|cves|, i requires 0 <= i < |cves| => if src in cves[i] then Some(cves[i][src].fixedVersion) else None)
  }

  /** The status kept for a source. Contrary to the merge of fixed binary versions, the *lowest* fixed version wins. */
  ghost function Lowest(le: VersionOrder, cves: seq<map<string, PkgStatus>>, src: string): Option<PkgStatus> {
    var k := Kept(Reversed(le), FixedVersions(cves, src));
    if k.None? then None else Some(cves[k.value][src])
  }

  lemma LowestStep(le: VersionOrder, cves: seq<map<string, PkgStatus>>, n: nat, src: string)
    requires n < |cves|
    ensures Lowest(le, cves[..n + 1], src) ==
      var held := Lowest(le, cves[..n], src);
      if src in cves[n] && (held.None? || !le(held.value.fixedVersion, cves[n][src].fixedVersion)) then
        Some(cves[n][src])
      else held
  {
    assert FixedVersions(cves[..n + 1], src)[..n] == FixedVersions(cves[..n], src);
  }

  lemma LowestIsFirstLeast(le: VersionOrder, cves: seq<map<string, PkgStatus>>, src: string)
    ensures Lowest(le, cves, src).Some? <==> exists i :: 0 <= i < |cves| && src in cves[i]
    ensures Lowest(le, cves, src).Some? ==> exists i: nat ::
      FirstGreatest(Reversed(le), FixedVersions(cves, src), i) && Lowest(le, cves, src).value == cves[i][src]
  {
    KeptIsFirstGreatest(Reversed(le), FixedVersions(cves, src));
    assert forall i :: 0 <= i < |cves| ==> (FixedVersions(cves, src)[i].Some? <==> src in cves[i]);
  }

  method AffectedByUsn(le: VersionOrder, cves: seq<map<string, PkgStatus>>) returns (r: map<string, PkgStatus>)
    ensures forall src :: Lowest(le, cves, src) == if src in r then Some(r[src]) else None
  {
    r := map[];
    for n := 0 to |cves|
      invariant forall src :: Lowest(le, cves[..n], src) == if src in r then Some(r[src]) else None
    {
      ghost var before := r;
      var todo := cves[n].Keys;
      while todo != {}
        invariant todo <= cves[n].Keys
        invariant r.Keys == before.Keys + (cves[n].Keys - todo)
        invariant forall src :: src in r ==>
          r[src] == if src !in cves[n] || src in todo then before[src]
                    else if src !in before || !le(before[src].fixedVersion, cves[n][src].fixedVersion) then cves[n][src]
                    else before[src]
      {
        var src :| src in todo;
        todo := todo - {src};
        if src !in r {
          r := r[src := cves[n][src]];
        } else {
          var currentVer := r[src].fixedVersion;
          if !le(currentVer, cves[n][src].fixedVersion) {
            r := r[src := cves[n][src]];
          }
        }
      }
      forall src ensures Lowest(le, cves[..n + 1], src) == if src in r then Some(r[src]) else None {
        LowestStep(le, cves, n, src);
      }
    }
    assert cves[..|cves|] == cves;
  }

  predicate HasPocket(e: Package) {
    e.pocket.Some? && e.pocket.value != ""
  }

  /** An empty pocket counts as none. */
  ghost predicate NamesPocket(e: Package, pocket: string) {
    pocket != "" && e.pocket == Some(pocket)
  }

  /** `after` is a possible result of overriding `before` with the USN packages of the same source. The pocket comes
      from whichever package with a pocket is met first. */
  ghost predicate Overridden(before: PkgStatus, usnSrc: map<string, Package>, after: PkgStatus) {
    if "source" !in usnSrc then after == before
    else
      && after.status == "released"
      && after.fixedVersion == usnSrc["source"].version
      && if exists k, pocket :: k in usnSrc && NamesPocket(usnSrc[k], pocket)
         then exists k :: k in usnSrc && NamesPocket(usnSrc[k], after.pocket)
         else after.pocket == before.pocket
  }

  method OverrideStatus(before: PkgStatus, usnSrc: map<string, Package>) returns (after: PkgStatus)
    ensures Overridden(before, usnSrc, after)
  {
    after := before;
    if "source" in usnSrc {
      after := after.(status := "released", fixedVersion := usnSrc["source"].version);
      var todo := usnSrc.Keys;
      while todo != {}
        invariant todo <= usnSrc.Keys
        invariant after == before.(status := "released", fixedVersion := usnSrc["source"].version)
        invariant forall k :: k in usnSrc && HasPocket(usnSrc[k]) ==> k in todo
      {
        var k :| k in todo;
        if HasPocket(usnSrc[k]) {
          assert NamesPocket(usnSrc[k], usnSrc[k].pocket.value);
          after := after.(pocket := usnSrc[k].pocket.value);
          break;
        }
        todo := todo - {k};
      }
    }
  }

  /** Python's str.replace. */
  function Replace(s: string, from: string, to: string): string
    requires from != ""
  {
    if |s| < |from| then s
    else if s[..|from|] == from then to + Replace(s[|from|..], from, to)
    else [s[0]] + Replace(s[1..], from, to)
  }

  lemma {:induction false} ReplaceAbsent(s: string, from: string, to: string, c: char)
    requires from != ""
    ensures c in from && c !in s ==> Replace(s, from, to) == s
    ensures c in to && c !in Replace(s, from, to) ==> Replace(s, from, to) == s
  {
    if |s| >= |from| {
      if s[..|from|] == from {
        assert c in from ==> exists i :: 0 <= i < |from| && s[i] == from[i] == c;
      } else {
        ReplaceAbsent(s[1..], from, to, c);
        assert s == [s[0]] + s[1..];
        assert c !in s ==> c !in s[1..];
      }
    }
  }

  lemma ReplaceSkips(c: char, rest: string, from: string, to: string)
    requires from != "" && !(from <= [c] + rest)
    ensures Replace([c] + rest, from, to) == [c] + Replace(rest, from, to)
  {
    var s := [c] + rest;
    assert s[1..] == rest && |s| == |rest| + 1;
    assert |s| >= |from| ==> s[..|from|] != from;
  }

  /** The pattern stands at position k, and nowhere before. */
  ghost predicate FirstAt(s: string, k: nat, from: string) {
    k < |s| && from <= s[k..] && forall i :: 0 <= i < k ==> !(from <= s[i..])
  }

  lemma FirstLater(s: string, k: nat, from: string)
    requires k > 0 && FirstAt(s, k, from)
    ensures FirstAt(s[1..], k - 1, from) && s[1..][k - 1..] == s[k..] && !(from <= s)
  {
    assert s[0..] == s;
    forall i | 0 <= i < k ensures s[1..][i..] == s[i + 1..] {
    }
  }

  lemma ReplaceLater(s: string, k: nat, from: string, to: string, tail: string)
    requires from != "" && 0 < k <= |s| && !(from <= s)
    requires Replace(s[1..], from, to) == s[1..][..k - 1] + tail
    ensures Replace(s, from, to) == s[..k] + tail
  {
    assert s == [s[0]] + s[1..] && s[..k] == [s[0]] + s[1..][..k - 1];
    ReplaceSkips(s[0], s[1..], from, to);
  }

  /** Where the pattern stands for the first time, it is replaced, and the rest is treated alike. */
  lemma {:induction false} ReplaceFirst(s: string, k: nat, from: string, to: string)
    requires from != "" && FirstAt(s, k, from)
    ensures Replace(s, from, to) == s[..k] + (to + Replace(s[k..][|from|..], from, to))
  {
    if k == 0 {
      assert s[0..] == s && s[..0] == "";
    } else {
      FirstLater(s, k, from);
      ReplaceFirst(s[1..], k - 1, from, to);
      ReplaceLater(s, k, from, to, to + Replace(s[k..][|from|..], from, to));
    }
  }

  lemma {:induction false} ReplaceNowhere(s: string, from: string, to: string)
    requires from != "" && forall i :: 0 <= i < |s| ==> !(from <= s[i..])
    ensures Replace(s, from, to) == s
  {
    if |s| >= |from| {
      assert s[0..] == s == [s[0]] + s[1..];
      forall i | 0 <= i < |s[1..]| ensures !(from <= s[1..][i..]) {
        assert s[1..][i..] == s[i + 1..];
      }
      ReplaceNowhere(s[1..], from, to);
      ReplaceSkips(s[0], s[1..], from, to);
    }
  }

  function GroupName(status: string): string {
    Replace(status, "ignored", "deferred")
  }

  lemma ReleasedGroup(status: string)
    ensures GroupName(status) == "released" <==> status == "released"
  {
    ReplaceAbsent(status, "ignored", "deferred", 'f');
    ReplaceAbsent(status, "ignored", "deferred", 'g');
  }

  type PkgList = seq<(string, PkgStatus)>

  function Names(pkgs: PkgList): seq<string> {
    seq(|pkgs|, i requires 0 <= i < |pkgs| => pkgs[i].0)
  }

  function SourcePackages(usns: Grouped, src: string): map<string, Package> {
    if src in usns then usns[src] else map[]
  }

  /** Those of `names` whose key is k, in the order of `names`. */
  function Select<K(==)>(names: seq<string>, keys: map<string, K>, k: K): seq<string>
    requires forall n :: n in names ==> n in keys
  {
    if names == [] then []
    else Select(names[..|names| - 1], keys, k) + if keys[names[|names| - 1]] == k then [names[|names| - 1]] else []
  }

  lemma {:induction false} SelectAre<K>(names: seq<string>, keys: map<string, K>, k: K)
    requires (forall n :: n in names ==> n in keys) && Distinct(names)
    ensures Distinct(Select(names, keys, k))
    ensures forall n :: n in Select(names, keys, k) <==> n in names && keys[n] == k
  {
    if names == [] {
    } else {
      SelectAre(names[..|names| - 1], keys, k);
    }
  }

  lemma {:induction false} SelectNone<K>(names: seq<string>, keys: map<string, K>, k: K)
    requires forall n :: n in names ==> n in keys && keys[n] != k
    ensures Select(names, keys, k) == []
  {
    if names == [] {
    } else {
      SelectNone(names[..|names| - 1], keys, k);
    }
  }

  lemma {:induction false} SelectFrame<K>(names: seq<string>, keys: map<string, K>, keys': map<string, K>, k: K)
    requires forall n :: n in names ==> n in keys && n in keys' && keys[n] == keys'[n]
    ensures Select(names, keys, k) == Select(names, keys', k)
  {
    if names == [] {
    } else {
      SelectFrame(names[..|names| - 1], keys, keys', k);
    }
  }

  lemma SelectStep<K>(names: seq<string>, keys: map<string, K>, n: string, kn: K, k: K)
    requires (forall m :: m in names ==> m in keys) && n !in names
    ensures Select(names + [n], keys[n := kn], k) == Select(names, keys, k) + if kn == k then [n] else []
  {
    assert (names + [n])[..|names|] == names;
    SelectFrame(names, keys, keys[n := kn], k);
  }

  ghost function GroupKeys(final: map<string, PkgStatus>): map<string, string> {
    map n | n in final :: GroupName(final[n].status)
  }

  /** The groups hold every affected source once, under its overridden status, each group in sorted order. */
  ghost predicate Grouping(affected: map<string, PkgStatus>, usns: Grouped, groups: map<string, PkgList>,
      final: map<string, PkgStatus>)
  {
    && final.Keys == affected.Keys
    && (forall n :: n in final ==> Overridden(affected[n], SourcePackages(usns, n), final[n]))
    && Sorted(SortedKeys(affected.Keys), groups, final)
  }

  ghost predicate Sorted(names: seq<string>, groups: map<string, PkgList>, final: map<string, PkgStatus>) {
    && (forall n :: n in names ==> n in final && GroupName(final[n].status) in groups)
    && (forall g :: g in groups ==> groups[g] != [] && GroupIs(names, final, groups[g], g))
  }

  ghost predicate GroupIs(names: seq<string>, final: map<string, PkgStatus>, pkgs: PkgList, g: string)
    requires forall n :: n in names ==> n in final
  {
    && Names(pkgs) == Select(names, GroupKeys(final), g)
    && forall i :: 0 <= i < |pkgs| ==> pkgs[i].0 in final && pkgs[i].1 == final[pkgs[i].0]
  }

  /** "ignored" sources are grouped as "deferred", and all others under their own status, unless that contains it. */
  ghost predicate ByStatus(groups: map<string, PkgList>, final: map<string, PkgStatus>) {
    forall n :: n in final ==>
      && (!Occurs("ignored", final[n].status) ==>
            final[n].status in groups && n in Names(groups[final[n].status]))
      && (final[n].status == "ignored" ==> "deferred" in groups && n in Names(groups["deferred"]))
  }

  method GroupByStatus(affected: map<string, PkgStatus>, usns: Grouped)
    returns (groups: map<string, PkgList>, ghost final: map<string, PkgStatus>)
    ensures Grouping(affected, usns, groups, final)
    ensures ByStatus(groups, final)
  {
    groups, final := GroupNames(SortedKeys(affected.Keys), affected, usns);
    assert final.Keys == affected.Keys;
    GroupedByName(groups, final);
  }

  lemma GroupedByName(groups: map<string, PkgList>, final: map<string, PkgStatus>)
    requires Sorted(SortedKeys(final.Keys), groups, final)
    ensures ByStatus(groups, final)
  {
    forall n | n in final
      ensures GroupName(final[n].status) in groups && n in Names(groups[GroupName(final[n].status)])
      ensures !Occurs("ignored", final[n].status) ==> GroupName(final[n].status) == final[n].status
    {
      assert n in SortedKeys(final.Keys);
      SelectAre(SortedKeys(final.Keys), GroupKeys(final), GroupName(final[n].status));
      OwnGroup(final[n].status);
    }
    IgnoredGroup();
  }

  lemma OwnGroup(status: string)
    ensures !Occurs("ignored", status) ==> GroupName(status) == status
  {
    ContainsOccurs(status, "ignored");
    if !Occurs("ignored", status) {
      forall i | 0 <= i < |status| ensures !("ignored" <= status[i..]) {
      }
      ReplaceNowhere(status, "ignored", "deferred");
    }
  }

  lemma IgnoredGroup()
    ensures GroupName("ignored") == "deferred"
  {
    assert "ignored"[0..] == "ignored";
    ReplaceFirst("ignored", 0, "ignored", "deferred");
    assert "" + "deferred" + Replace("", "ignored", "deferred") == "deferred";
  }

  method GroupNames(names: seq<string>, affected: map<string, PkgStatus>, usns: Grouped)
    returns (groups: map<string, PkgList>, ghost final: map<string, PkgStatus>)
    requires Distinct(names) && forall n :: n in names ==> n in affected
    ensures forall n :: n in final <==> n in names
    ensures forall n :: n in final ==> Overridden(affected[n], SourcePackages(usns, n), final[n])
    ensures Sorted(names, groups, final)
  {
    groups, final := map[], map[];
    assert names[..0] == [];
    for i := 0 to |names|
      invariant forall n :: n in final <==> n in names[..i]
      invariant forall n :: n in final ==> n in affected && Overridden(affected[n], SourcePackages(usns, n), final[n])
      invariant Sorted(names[..i], groups, final)
    {
      var src := names[i];
      assert src !in names[..i] && src in affected;
      TakeOneMore(names, i);
      var status := OverrideStatus(affected[src], SourcePackages(usns, src));
      GroupStep(names[..i], groups, final, src, status);
      groups := AddToGroup(groups, src, status);
      final := final[src := status];
    }
    assert names[..|names|] == names;
  }

  method AddToGroup(groups: map<string, PkgList>, src: string, status: PkgStatus) returns (r: map<string, PkgList>)
    ensures r == var group := GroupName(status.status);
      groups[group := (if group in groups then groups[group] else []) + [(src, status)]]
  {
    r := groups;
    var group := GroupName(status.status);
    if group !in r {
      r := r[group := []];
    }
    r := r[group := r[group] + [(src, status)]];
  }

  lemma NamesOfConcat(a: PkgList, b: PkgList)
    ensures Names(a + b) == Names(a) + Names(b)
  {
  }

  lemma KeyOfNew(final: map<string, PkgStatus>, src: string, status: PkgStatus)
    ensures GroupKeys(final[src := status]) == GroupKeys(final)[src := GroupName(status.status)]
  {
  }

  lemma GroupIsStep(names: seq<string>, final: map<string, PkgStatus>, pkgs: PkgList, g: string, src: string,
      status: PkgStatus)
    requires (forall n :: n in names ==> n in final) && src !in names && src !in final
    requires GroupIs(names, final, pkgs, g)
    ensures forall n :: n in names + [src] ==> n in final[src := status]
    ensures GroupIs(names + [src], final[src := status],
      pkgs + if GroupName(status.status) == g then [(src, status)] else [], g)
  {
    var more := if GroupName(status.status) == g then [(src, status)] else [];
    SelectStep(names, GroupKeys(final), src, GroupName(status.status), g);
    KeyOfNew(final, src, status);
    NamesOfConcat(pkgs, more);
    assert Names(more) == if GroupName(status.status) == g then [src] else [];
  }

  lemma GroupStep(names: seq<string>, groups: map<string, PkgList>, final: map<string, PkgStatus>, src: string,
      status: PkgStatus)
    requires Sorted(names, groups, final) && src !in names && src !in final
    ensures var group := GroupName(status.status);
      Sorted(names + [src],
        groups[group := (if group in groups then groups[group] else []) + [(src, status)]],
        final[src := status])
  {
    var group := GroupName(status.status);
    var groups' := groups[group := (if group in groups then groups[group] else []) + [(src, status)]];
    forall g | g in groups'
      ensures forall n :: n in names + [src] ==> n in final[src := status]
      ensures GroupIs(names + [src], final[src := status], groups'[g], g)
    {
      if g in groups {
        GroupIsStep(names, final, groups[g], g, src, status);
        assert groups[g] + [] == groups[g];
      } else {
        SelectNone(names, GroupKeys(final), g);
        GroupIsStep(names, final, [], g, src, status);
      }
    }
  }
}
