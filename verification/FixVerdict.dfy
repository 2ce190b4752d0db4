/** From the affected packages to the printed verdict. */
module FixVerdict {
  import opened Common
  import opened Usn
  import opened FixStatus
  import opened FixPlan

  /** What dpkg reports: source package -> installed binary -> version. */
  type Inventory = map<string, map<string, string>>

  ghost predicate NoFix(installed: Inventory, usns: Grouped, src: string, bin: string) {
    src in installed && bin in installed[src] && bin !in SourcePackages(usns, src)
  }

  ghost predicate Outdated(le: VersionOrder, installed: Inventory, usns: Grouped, src: string, bin: string) {
    && src in installed && bin in installed[src] && bin in SourcePackages(usns, src)
    && !le(SourcePackages(usns, src)[bin].version, installed[src][bin])
  }

  ghost function PocketKeys(final: map<string, PkgStatus>): map<string, Pocket> {
    map n | n in final :: PocketSource(final[n])
  }

  method PlanSource(le: VersionOrder, installed: Inventory, usns: Grouped, src: string)
    returns (outdated: seq<string>, missing: Option<string>)
    requires src in installed
    ensures missing.Some? ==> NoFix(installed, usns, src, missing.value)
    ensures missing.None? ==> forall b :: !NoFix(installed, usns, src, b)
    ensures missing.None? ==> forall b :: b in outdated <==> Outdated(le, installed, usns, src, b)
  {
    outdated := [];
    var usnSrc := SourcePackages(usns, src);
    var todo := installed[src].Keys;
    while todo != {}
      invariant todo <= installed[src].Keys
      invariant forall b :: b in installed[src] && b !in todo ==> b in usnSrc
      invariant forall b :: b in outdated <==> b !in todo && Outdated(le, installed, usns, src, b)
    {
      var bin :| bin in todo;
      if bin !in usnSrc {
        return outdated, Some(bin);
      }
      if !le(usnSrc[bin].version, installed[src][bin]) {
        outdated := outdated + [bin];
      }
      todo := todo - {bin};
    }
    return outdated, None;
  }

  /** The pocket p holds exactly the sources published there, and exactly their outdated binaries. */
  ghost predicate Planned(le: VersionOrder, installed: Inventory, usns: Grouped, final: map<string, PkgStatus>,
                          names: seq<string>, srcs: ByPocket<(string, PkgStatus)>, bins: ByPocket<string>)
    requires forall n :: n in names ==> n in final
  {
    && (forall p :: Names(srcs.At(p)) == Select(names, PocketKeys(final), p))
    && (forall p, b :: b in bins.At(p) <==>
          exists n :: n in names && PocketSource(final[n]) == p && Outdated(le, installed, usns, n, b))
  }

  method PlanReleased(le: VersionOrder, installed: Inventory, usns: Grouped, group: PkgList,
      ghost final: map<string, PkgStatus>)
    returns (srcs: ByPocket<(string, PkgStatus)>, bins: ByPocket<string>, missing: Option<string>)
    requires forall i :: 0 <= i < |group| ==>
      group[i].0 in installed && group[i].0 in final && group[i].1 == final[group[i].0]
    ensures missing.Some? ==> exists n :: n in Names(group) && NoFix(installed, usns, n, missing.value)
    ensures missing.None? ==> forall n, b :: n in Names(group) ==> !NoFix(installed, usns, n, b)
    ensures missing.None? ==> Planned(le, installed, usns, final, Names(group), srcs, bins)
  {
    srcs, bins := ByPocket([], [], []), ByPocket([], [], []);
    ghost var names := Names(group);
    for i := 0 to |group|
      invariant forall n, b :: n in names[..i] ==> !NoFix(installed, usns, n, b)
      invariant Planned(le, installed, usns, final, names[..i], srcs, bins)
    {
      var (src, status) := group[i];
      var pocket := PocketSource(status);
      var outdated, lacking := PlanSource(le, installed, usns, src);
      if lacking.Some? {
        assert names[i] == src;
        return srcs, bins, lacking;
      }
      PlanStep(le, installed, usns, final, names, i, srcs, bins, status, outdated);
      srcs := srcs.Append(pocket, [(src, status)]);
      bins := bins.Append(pocket, outdated);
    }
    assert names[..|group|] == names;
    return srcs, bins, None;
  }

  lemma PlanStep(le: VersionOrder, installed: Inventory, usns: Grouped, final: map<string, PkgStatus>,
      names: seq<string>, i: nat, srcs: ByPocket<(string, PkgStatus)>, bins: ByPocket<string>, status: PkgStatus,
      outdated: seq<string>)
    requires i < |names| && (forall n :: n in names ==> n in final) && status == final[names[i]]
    requires Planned(le, installed, usns, final, names[..i], srcs, bins)
    requires forall b :: b in outdated <==> Outdated(le, installed, usns, names[i], b)
    ensures Planned(le, installed, usns, final, names[..i + 1],
      srcs.Append(PocketSource(status), [(names[i], status)]), bins.Append(PocketSource(status), outdated))
  {
    var pocket := PocketSource(status);
    TakeOneMore(names, i);
    forall p
      ensures Names(srcs.Append(pocket, [(names[i], status)]).At(p)) == Select(names[..i + 1], PocketKeys(final), p)
    {
      assert names[..i + 1][..i] == names[..i];
    }
    forall p, b ensures b in bins.Append(pocket, outdated).At(p) <==>
      exists n :: n in names[..i + 1] && PocketSource(final[n]) == p && Outdated(le, installed, usns, n, b)
    {
      assert forall n :: n in names[..i + 1] <==> n in names[..i] || n == names[i];
    }
  }

  ghost function Upto(m: nat): seq<nat> {
    seq(m, i => i + 1)
  }

  /** The affected sources whose final status is "released", in sorted order. */
  ghost function Released(final: map<string, PkgStatus>): (r: seq<string>)
    ensures Distinct(r) && forall n :: n in r <==> n in final && final[n].status == "released"
  {
    SelectAre(SortedKeys(final.Keys), GroupKeys(final), "released");
    GroupKeysReleased(final);
    Select(SortedKeys(final.Keys), GroupKeys(final), "released")
  }

  lemma GroupKeysReleased(final: map<string, PkgStatus>)
    ensures forall n :: n in final ==> (GroupKeys(final)[n] == "released" <==> final[n].status == "released")
  {
    forall n | n in final ensures GroupName(final[n].status) == "released" <==> final[n].status == "released" {
      ReleasedGroup(final[n].status);
    }
  }

  /** The sources of the groups in `done`, the released one excepted, each once. */
  ghost predicate Collected(final: map<string, PkgStatus>, done: seq<string>, unfixed: seq<string>) {
    && Distinct(unfixed)
    && forall n :: n in unfixed <==> n in final && GroupKeys(final)[n] in done && GroupKeys(final)[n] != "released"
  }

  lemma CollectStep(final: map<string, PkgStatus>, done: seq<string>, unfixed: seq<string>, value: string,
      group: PkgList)
    requires Collected(final, done, unfixed) && value !in done && GroupIs(SortedKeys(final.Keys), final, group, value)
    ensures Distinct(unfixed + Names(group))
    ensures forall n :: n in unfixed + Names(group) ==> n in final
    ensures value != "released" ==> Collected(final, done + [value], unfixed + Names(group))
    ensures value == "released" ==> Collected(final, done + [value], unfixed) && Names(group) == Released(final)
  {
    SelectAre(SortedKeys(final.Keys), GroupKeys(final), value);
    DistinctConcat(unfixed, Names(group));
    assert forall g :: g in done + [value] <==> g in done || g == value;
  }

  lemma CollectAll(final: map<string, PkgStatus>, groups: map<string, PkgList>, order: seq<string>,
      unfixed: seq<string>)
    requires Sorted(SortedKeys(final.Keys), groups, final) && forall g :: g in groups ==> g in order
    requires Collected(final, order, unfixed)
    ensures forall n :: n in unfixed <==> n in final && final[n].status != "released"
    ensures forall n :: n in final ==> GroupKeys(final)[n] in order
  {
    GroupKeysReleased(final);
    forall n | n in final ensures GroupKeys(final)[n] in order {
      assert n in SortedKeys(final.Keys);
    }
  }

  lemma NoneReleased(final: map<string, PkgStatus>)
    requires forall n :: n in final ==> GroupKeys(final)[n] != "released"
    ensures Released(final) == []
  {
    GroupKeysReleased(final);
    FirstMember(Released(final));
  }

  lemma ReadyEmpty(le: VersionOrder, installed: Inventory, usns: Grouped, final: map<string, PkgStatus>)
    requires Released(final) == []
    ensures Ready(le, installed, usns, final, ByPocket([], [], []), ByPocket([], [], []))
  {
  }

  ghost predicate Ready(le: VersionOrder, installed: Inventory, usns: Grouped, final: map<string, PkgStatus>,
                        srcs: ByPocket<(string, PkgStatus)>, bins: ByPocket<string>) {
    && Planned(le, installed, usns, final, Released(final), srcs, bins)
    && forall n, b :: n in Released(final) ==> !NoFix(installed, usns, n, b)
  }

  /** The released group: plan its upgrades, unless some installed binary has no fixed version. */
  method PlanGroup(le: VersionOrder, installed: Inventory, usns: Grouped, group: PkgList,
      ghost final: map<string, PkgStatus>)
    returns (srcs: ByPocket<(string, PkgStatus)>, bins: ByPocket<string>, missing: Option<string>)
    requires GroupIs(SortedKeys(final.Keys), final, group, "released") && final.Keys <= installed.Keys
    ensures missing.Some? ==> exists n :: n in Released(final) && NoFix(installed, usns, n, missing.value)
    ensures missing.None? ==> Ready(le, installed, usns, final, srcs, bins)
    ensures Names(group) == Released(final)
  {
    srcs, bins, missing := PlanReleased(le, installed, usns, group, final);
  }

  ghost predicate Progress(events: seq<Event>, count: nat, total: nat) {
    && Printed(events) == Upto(count)
    && forall e :: e in events ==> e.Packages? && e.total == total && e.before + |e.names| <= count
  }

  /** The packages that the messages about unreleased groups list, in order. */
  ghost function Listed(events: seq<Event>): seq<string> {
    if events == [] then []
    else
      var last := events[|events| - 1];
      Listed(events[..|events| - 1]) + if last.Packages? then last.names else []
  }

  lemma {:induction false} ListedIs(events: seq<Event>)
    ensures forall n :: n in Listed(events) <==> exists e :: e in events && e.Packages? && n in e.names
  {
    if events == [] {
    } else {
      var front, last := events[..|events| - 1], events[|events| - 1];
      ListedIs(front);
      forall n ensures n in Listed(events) <==> exists e :: e in events && e.Packages? && n in e.names {
        assert forall e :: e in events <==> e in front || e == last;
      }
    }
  }

  method AnnounceGroup(events: seq<Event>, unfixed: seq<string>, group: PkgList, total: nat) returns (r: seq<Event>)
    requires Progress(events, |unfixed|, total) && Listed(events) == unfixed
    ensures r == events + [Packages(|unfixed|, Names(group), total)]
    ensures Progress(r, |unfixed + Names(group)|, total) && Listed(r) == unfixed + Names(group)
  {
    r := events + [Packages(|unfixed|, Names(group), total)];
    assert r[..|r| - 1] == events;
    UptoSplit(|unfixed|, |group|);
  }

  lemma UptoSplit(m: nat, k: nat)
    ensures Upto(m + k) == Upto(m) + seq(k, i => m + i + 1)
  {
  }

  /** What the loop over the status groups accumulates. */
  datatype Gathering = Gathering(
    events: seq<Event>, unfixed: seq<string>, srcs: ByPocket<(string, PkgStatus)>, bins: ByPocket<string>)

  /** The accumulators after the groups in `done`. */
  ghost predicate Gathered(le: VersionOrder, installed: Inventory, usns: Grouped, final: map<string, PkgStatus>,
      done: seq<string>, total: nat, g: Gathering)
  {
    && Collected(final, done, g.unfixed)
    && Progress(g.events, |g.unfixed|, total) && Listed(g.events) == g.unfixed
    && if "released" in done then Ready(le, installed, usns, final, g.srcs, g.bins)
       else g.srcs == ByPocket([], [], []) && g.bins == ByPocket([], [], [])
  }

  /** Some released source has a binary without a fixed version; then all released sources are listed as well. */
  ghost predicate Lacking(installed: Inventory, usns: Grouped, final: map<string, PkgStatus>, g: Gathering,
                          bin: string)
  {
    && (exists n :: n in Released(final) && NoFix(installed, usns, n, bin))
    && (forall n :: n in Released(final) ==> n in g.unfixed)
    && Distinct(g.unfixed) && (forall n :: n in g.unfixed ==> n in final)
    && forall e :: e in g.events ==> e.Packages?
  }

  /** One pass of the loop: a group without a fix is printed and collected, the released one is planned. */
  method GatherGroup(le: VersionOrder, installed: Inventory, usns: Grouped, value: string, group: PkgList, total: nat,
      before: Gathering, ghost final: map<string, PkgStatus>, ghost done: seq<string>)
    returns (after: Gathering, missing: Option<string>)
    requires Gathered(le, installed, usns, final, done, total, before) && value !in done
    requires GroupIs(SortedKeys(final.Keys), final, group, value) && final.Keys <= installed.Keys
    ensures missing.Some? ==> Lacking(installed, usns, final, after, missing.value)
    ensures missing.None? ==> Gathered(le, installed, usns, final, done + [value], total, after)
  {
    CollectStep(final, done, before.unfixed, value, group);
    if value != "released" {
      var events := AnnounceGroup(before.events, before.unfixed, group, total);
      return Gathering(events, before.unfixed + Names(group), before.srcs, before.bins), None;
    }
    var srcs, bins, lacking := PlanGroup(le, installed, usns, group, final);
    if lacking.Some? {
      return Gathering(before.events, before.unfixed + Names(group), srcs, bins), lacking;
    }
    return Gathering(before.events, before.unfixed, srcs, bins), None;
  }

  lemma GatheredAll(le: VersionOrder, installed: Inventory, usns: Grouped, final: map<string, PkgStatus>,
      groups: map<string, PkgList>, order: seq<string>, total: nat, g: Gathering)
    requires Sorted(SortedKeys(final.Keys), groups, final) && forall v :: v in groups ==> v in order
    requires Gathered(le, installed, usns, final, order, total, g)
    ensures Ready(le, installed, usns, final, g.srcs, g.bins)
    ensures forall n :: n in g.unfixed <==> n in final && final[n].status != "released"
  {
    CollectAll(final, groups, order, g.unfixed);
    if "released" !in order {
      NoneReleased(final);
      ReadyEmpty(le, installed, usns, final);
    }
  }

  method AnnounceInOrder(order: seq<string>, le: VersionOrder, installed: Inventory, usns: Grouped,
      groups: map<string, PkgList>, total: nat, ghost final: map<string, PkgStatus>)
    returns (g: Gathering, missing: Option<string>)
    requires Distinct(order) && forall v :: v in order <==> v in groups
    requires Sorted(SortedKeys(final.Keys), groups, final) && final.Keys <= installed.Keys
    ensures missing.Some? ==> Lacking(installed, usns, final, g, missing.value)
    ensures missing.None? ==> Gathered(le, installed, usns, final, order, total, g)
  {
    g := Gathering([], [], ByPocket([], [], []), ByPocket([], [], []));
    for i := 0 to |order|
      invariant Gathered(le, installed, usns, final, order[..i], total, g)
    {
      TakeOneMore(order, i);
      g, missing := GatherGroup(le, installed, usns, order[i], groups[order[i]], total, g, final, order[..i]);
      if missing.Some? {
        return;
      }
    }
    assert order[..|order|] == order;
    return g, None;
  }

  /** The status groups in sorted order. */
  method Announce(le: VersionOrder, installed: Inventory, usns: Grouped, groups: map<string, PkgList>, total: nat,
      ghost final: map<string, PkgStatus>)
    returns (events: seq<Event>, unfixed: seq<string>, srcs: ByPocket<(string, PkgStatus)>, bins: ByPocket<string>,
      missing: Option<string>)
    requires Sorted(SortedKeys(final.Keys), groups, final) && final.Keys <= installed.Keys
    ensures missing.Some? ==> exists n :: n in Released(final) && NoFix(installed, usns, n, missing.value)
    ensures missing.Some? ==> forall n :: n in Released(final) ==> n in unfixed
    ensures missing.None? ==> Ready(le, installed, usns, final, srcs, bins)
    ensures missing.None? ==> forall n :: n in unfixed <==> n in final && final[n].status != "released"
    ensures missing.None? ==> Progress(events, |unfixed|, total) && Listed(events) == unfixed
    ensures forall e :: e in events ==> e.Packages?
    ensures Distinct(unfixed) && forall n :: n in unfixed ==> n in final
  {
    var order := SortedKeys(groups.Keys);
    var g;
    g, missing := AnnounceInOrder(order, le, installed, usns, groups, total, final);
    if missing.None? {
      GatheredAll(le, installed, usns, final, groups, order, total, g);
    }
    return g.events, g.unfixed, g.srcs, g.bins, missing;
  }

  /** Whether some affected binary published in the pocket is older than its fix. */
  ghost predicate NeedsUpgrade(le: VersionOrder, installed: Inventory, usns: Grouped, final: map<string, PkgStatus>,
      p: Pocket)
  {
    exists n, b :: n in Released(final) && PocketSource(final[n]) == p && Outdated(le, installed, usns, n, b)
  }

  ghost predicate Blocked(le: VersionOrder, installed: Inventory, usns: Grouped, final: map<string, PkgStatus>,
                          answers: Pocket -> Answers, p: Pocket) {
    NeedsUpgrade(le, installed, usns, final, p) && Attempt(p, answers(p)) != Upgraded
  }

  /** Not fixed: no fix is released, or its pocket or an earlier one could not be upgraded. */
  ghost predicate StaysAffected(le: VersionOrder, installed: Inventory, usns: Grouped, final: map<string, PkgStatus>,
                                answers: Pocket -> Answers, n: string)
    requires n in final
  {
    || final[n].status != "released"
    || exists q :: Rank(q) <= Rank(PocketSource(final[n])) && Blocked(le, installed, usns, final, answers, q)
  }

  lemma PlannedPockets(le: VersionOrder, installed: Inventory, usns: Grouped, final: map<string, PkgStatus>,
                       srcs: ByPocket<(string, PkgStatus)>, bins: ByPocket<string>, answers: Pocket -> Answers)
    requires Planned(le, installed, usns, final, Released(final), srcs, bins)
    ensures forall p :: bins.At(p) != [] <==> NeedsUpgrade(le, installed, usns, final, p)
    ensures forall p :: bins.At(p) != [] ==> srcs.At(p) != []
    ensures forall p :: Blocks(bins, answers, p) <==> Blocked(le, installed, usns, final, answers, p)
  {
    forall p ensures bins.At(p) != [] <==> NeedsUpgrade(le, installed, usns, final, p)
      ensures bins.At(p) != [] ==> srcs.At(p) != []
    {
      SelectAre(Released(final), PocketKeys(final), p);
      if bins.At(p) != [] {
        var b := bins.At(p)[0];
        assert b in bins.At(p);
        var n :| n in Released(final) && PocketSource(final[n]) == p && Outdated(le, installed, usns, n, b);
        assert n in Names(srcs.At(p));
      }
      if NeedsUpgrade(le, installed, usns, final, p) {
        var n, b :| n in Released(final) && PocketSource(final[n]) == p && Outdated(le, installed, usns, n, b);
        assert b in bins.At(p);
      }
    }
  }

  lemma {:induction false} BetweenAre(names: seq<string>, keys: map<string, Pocket>,
      srcs: ByPocket<(string, PkgStatus)>, lo: nat, hi: nat)
    requires lo <= hi <= 3 && Distinct(names) && forall n :: n in names ==> n in keys
    requires forall p :: Names(srcs.At(p)) == Select(names, keys, p)
    ensures Distinct(NamesBetween(srcs, lo, hi))
    ensures forall n :: n in NamesBetween(srcs, lo, hi) <==> n in names && lo <= Rank(keys[n]) < hi
  {
    if lo < hi {
      BetweenAre(names, keys, srcs, lo, hi - 1);
      SelectAre(names, keys, PocketAt(hi - 1));
      DistinctConcat(NamesBetween(srcs, lo, hi - 1), Names(srcs.At(PocketAt(hi - 1))));
    }
  }

  datatype Outcome =
    | NothingAffected
    | NoFixedVersion(pkg: string, unfixed: seq<string>)
    | UpgradeError
    | Verdict(resolved: bool, unfixed: seq<string>)
}
