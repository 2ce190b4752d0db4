/** The upgrades and the verdict of `ua fix`, and what the whole run from the affected packages on means. */
module Fix {
  import opened Common
  import opened Usn
  import opened FixStatus
  import opened FixPlan
  import opened FixVerdict

  lemma {:induction false} RunEventsAre(srcs: ByPocket<(string, PkgStatus)>, bins: ByPocket<string>, pkgIndex: nat,
      total: nat, answers: Pocket -> Answers, n: nat)
    requires n <= 3
    ensures |RunEvents(srcs, bins, pkgIndex, total, answers, n)| == n
    ensures forall i :: 0 <= i < n ==>
      RunEvents(srcs, bins, pkgIndex, total, answers, n)[i] == PocketEvent(srcs, bins, pkgIndex, total, answers, i)
  {
    if n > 0 {
      RunEventsAre(srcs, bins, pkgIndex, total, answers, n - 1);
    }
  }

  /** No index leaves 1..total, nothing is attempted behind a blocking pocket, and everything before it is installed. */
  lemma RunIsOrderly(srcs: ByPocket<(string, PkgStatus)>, bins: ByPocket<string>, pkgIndex: nat, total: nat,
      answers: Pocket -> Answers)
    requires pkgIndex + Size(srcs) <= total
    ensures var run := RunEvents(srcs, bins, pkgIndex, total, answers, Handling(bins, answers));
      && (forall e :: e in run ==> e.InPocket? && InRange(e, total))
      && (forall e, q :: e in run && Rank(q) < Rank(e.pocket) ==> !Blocks(bins, answers, q))
      && (forall p, b :: Rank(p) < Stop(bins, answers) && b in bins.At(p) ==> exists e :: e in run && e.Installs(b))
  {
    var n := Handling(bins, answers);
    var run := RunEvents(srcs, bins, pkgIndex, total, answers, n);
    RunEventsAre(srcs, bins, pkgIndex, total, answers, n);
    forall i | 0 <= i < n ensures run[i].InPocket? && InRange(run[i], total) {
      AdvanceBound(srcs, bins, i);
    }
    forall p, b | Rank(p) < Stop(bins, answers) && b in bins.At(p) ensures exists e :: e in run && e.Installs(b) {
      assert run[Rank(p)] in run && PocketAt(Rank(p)) == p;
      assert run[Rank(p)].Installs(b);
    }
  }

  /** How many packages the pockets lo, ..., hi - 1 install. */
  ghost function Installing(srcs: ByPocket<(string, PkgStatus)>, bins: ByPocket<string>, lo: nat, hi: nat): nat
    requires lo <= hi <= 3
  {
    if lo == hi then 0
    else
      Installing(srcs, bins, lo, hi - 1) + if bins.At(PocketAt(hi - 1)) == [] then 0 else |srcs.At(PocketAt(hi - 1))|
  }

  lemma {:induction false} AdvanceBetween(srcs: ByPocket<(string, PkgStatus)>, bins: ByPocket<string>, lo: nat, hi: nat)
    requires lo <= hi <= 3
    ensures Advance(srcs, bins, hi) == Advance(srcs, bins, lo) + Installing(srcs, bins, lo, hi)
  {
    if lo < hi {
      AdvanceBetween(srcs, bins, lo, hi - 1);
    }
  }

  /** Two pocket messages print a common index exactly when the first pocket was already installed, the second lists
      packages, and the installing pockets between them hold fewer packages than the first lists. */
  lemma PrintedIndicesOverlap(srcs: ByPocket<(string, PkgStatus)>, bins: ByPocket<string>, pkgIndex: nat, total: nat,
                              answers: Pocket -> Answers, i: nat, j: nat)
    requires i < j < 3
    ensures
      (exists x ::
        && x in Indices(PocketEvent(srcs, bins, pkgIndex, total, answers, i))
        && x in Indices(PocketEvent(srcs, bins, pkgIndex, total, answers, j))) <==>
      && bins.At(PocketAt(i)) == [] && srcs.At(PocketAt(j)) != []
      && Installing(srcs, bins, i + 1, j) < |srcs.At(PocketAt(i))|
  {
    AdvanceBetween(srcs, bins, i + 1, j);
    var e, f := PocketEvent(srcs, bins, pkgIndex, total, answers, i),
      PocketEvent(srcs, bins, pkgIndex, total, answers, j);
    var gap := Installing(srcs, bins, i + 1, j);
    if bins.At(PocketAt(i)) == [] && srcs.At(PocketAt(j)) != [] && gap < |srcs.At(PocketAt(i))| {
      assert Indices(e)[gap] == Indices(f)[0];
      assert Indices(e)[gap] in Indices(e) && Indices(f)[0] in Indices(f);
    }
  }

  /** For example, an installed source in the standard pocket and an outdated one in the infra pocket are both printed
      as number 1 of 2. */
  lemma IndexPrintedTwice(a: PkgStatus, b: PkgStatus, answers: Pocket -> Answers)
    ensures
      var srcs, bins := ByPocket([("curl", a)], [("zlib", b)], []), ByPocket([], ["zlib1g"], []);
      var run := RunEvents(srcs, bins, 0, 2, answers, 2);
      && |run| == 2 && Indices(run[0]) == Indices(run[1]) == [1]
      && run[0].names == ["curl"] && run[1].names == ["zlib"]
  {
    var srcs, bins := ByPocket([("curl", a)], [("zlib", b)], []), ByPocket([], ["zlib1g"], []);
    RunEventsAre(srcs, bins, 0, 2, answers, 2);
    assert Advance(srcs, bins, 1) == 0;
    assert Indices(PocketEvent(srcs, bins, 0, 2, answers, 0)) == [1];
  }

  lemma AdvanceBound(srcs: ByPocket<(string, PkgStatus)>, bins: ByPocket<string>, i: nat)
    requires i < 3
    ensures Advance(srcs, bins, i) + |srcs.At(PocketAt(i))| <= Size(srcs)
  {
    assert Advance(srcs, bins, 1) <= |srcs.standard|;
    assert Advance(srcs, bins, 2) <= |srcs.standard| + |srcs.infra|;
  }

  /** Every installed binary of every affected source has a known fix and was up to date or installed by apt. */
  ghost predicate FullyFixed(le: VersionOrder, installed: Inventory, usns: Grouped, affected: map<string, PkgStatus>,
      events: seq<Event>)
  {
    forall src, b :: src in affected && src in installed && b in installed[src] ==>
      && (affected[src].status == "released" || "source" in SourcePackages(usns, src))
      && b in SourcePackages(usns, src)
      && (le(SourcePackages(usns, src)[b].version, installed[src][b]) || exists e :: e in events && e.Installs(b))
  }

  /** Apt has installed everything planned. */
  ghost predicate Covers(bins: ByPocket<string>, run: seq<Event>) {
    forall p, b :: b in bins.At(p) ==> exists e :: e in run && e.Installs(b)
  }

  lemma RunCovers(srcs: ByPocket<(string, PkgStatus)>, bins: ByPocket<string>, pkgIndex: nat, total: nat,
      answers: Pocket -> Answers)
    requires pkgIndex + Size(srcs) <= total && Stop(bins, answers) == 3
    ensures Covers(bins, RunEvents(srcs, bins, pkgIndex, total, answers, Handling(bins, answers)))
  {
    RunIsOrderly(srcs, bins, pkgIndex, total, answers);
    assert forall p :: Rank(p) < 3;
  }

  lemma FixedBinary(le: VersionOrder, installed: Inventory, usns: Grouped, final: map<string, PkgStatus>,
      srcs: ByPocket<(string, PkgStatus)>, bins: ByPocket<string>, run: seq<Event>, src: string, b: string)
    requires Ready(le, installed, usns, final, srcs, bins) && Covers(bins, run)
    requires src in Released(final) && src in installed && b in installed[src]
    ensures b in SourcePackages(usns, src)
    ensures le(SourcePackages(usns, src)[b].version, installed[src][b]) || exists e :: e in run && e.Installs(b)
  {
    assert !NoFix(installed, usns, src, b);
    if Outdated(le, installed, usns, src, b) {
      assert b in bins.At(PocketSource(final[src]));
    }
  }

  lemma FixedWhenNothingBlocks(le: VersionOrder, installed: Inventory, usns: Grouped, affected: map<string, PkgStatus>,
      final: map<string, PkgStatus>, srcs: ByPocket<(string, PkgStatus)>, bins: ByPocket<string>, run: seq<Event>)
    requires final.Keys == affected.Keys
    requires forall n :: n in final ==>
      final[n].status == "released" && Overridden(affected[n], SourcePackages(usns, n), final[n])
    requires Ready(le, installed, usns, final, srcs, bins) && Covers(bins, run)
    ensures FullyFixed(le, installed, usns, affected, run)
  {
    forall src, b | src in affected && src in installed && b in installed[src]
      ensures b in SourcePackages(usns, src)
      ensures le(SourcePackages(usns, src)[b].version, installed[src][b]) || exists e :: e in run && e.Installs(b)
    {
      FixedBinary(le, installed, usns, final, srcs, bins, run, src, b);
    }
  }

  lemma BlockedFrom(le: VersionOrder, installed: Inventory, usns: Grouped, final: map<string, PkgStatus>,
      srcs: ByPocket<(string, PkgStatus)>, bins: ByPocket<string>, answers: Pocket -> Answers, n: string)
    requires Ready(le, installed, usns, final, srcs, bins) && n in Released(final)
    ensures Stop(bins, answers) <= Rank(PocketSource(final[n])) <==>
      StaysAffected(le, installed, usns, final, answers, n)
  {
    PlannedPockets(le, installed, usns, final, srcs, bins, answers);
    if Stop(bins, answers) <= Rank(PocketSource(final[n])) {
      assert Blocked(le, installed, usns, final, answers, PocketAt(Stop(bins, answers)));
    }
  }

  lemma UnfixedAre(le: VersionOrder, installed: Inventory, usns: Grouped, final: map<string, PkgStatus>,
      srcs: ByPocket<(string, PkgStatus)>, bins: ByPocket<string>, answers: Pocket -> Answers, unfixed: seq<string>)
    requires Ready(le, installed, usns, final, srcs, bins)
    requires Distinct(unfixed) && forall n :: n in unfixed <==> n in final && final[n].status != "released"
    ensures var all := unfixed + NamesBetween(srcs, Stop(bins, answers), 3);
      Distinct(all) && forall n :: n in all <==> n in final && StaysAffected(le, installed, usns, final, answers, n)
  {
    var stop := Stop(bins, answers);
    var later := NamesBetween(srcs, stop, 3);
    BetweenAre(Released(final), PocketKeys(final), srcs, stop, 3);
    DistinctConcat(unfixed, later);
    forall n | n in Released(final) ensures n in later <==> StaysAffected(le, installed, usns, final, answers, n) {
      BlockedFrom(le, installed, usns, final, srcs, bins, answers, n);
    }
    forall n ensures n in unfixed + later <==> n in final && StaysAffected(le, installed, usns, final, answers, n) {
      assert n in unfixed + later <==> n in unfixed || n in later;
    }
  }

  lemma CountFits(final: map<string, PkgStatus>, srcs: ByPocket<(string, PkgStatus)>, unfixed: seq<string>)
    requires forall p :: Names(srcs.At(p)) == Select(Released(final), PocketKeys(final), p)
    requires Distinct(unfixed) && forall n :: n in unfixed <==> n in final && final[n].status != "released"
    ensures |unfixed| + Size(srcs) <= |final.Keys|
  {
    var all := NamesBetween(srcs, 0, 3);
    BetweenAre(Released(final), PocketKeys(final), srcs, 0, 3);
    DistinctConcat(unfixed, all);
    assert forall n :: n in unfixed + all ==> n in final;
    DistinctLength(unfixed + all, final.Keys);
    SizeBetween(srcs);
  }

  lemma SizeBetween(srcs: ByPocket<(string, PkgStatus)>)
    ensures |NamesBetween(srcs, 0, 3)| == Size(srcs)
  {
    assert |NamesBetween(srcs, 0, 1)| == |srcs.standard|;
    assert |NamesBetween(srcs, 0, 2)| == |srcs.standard| + |srcs.infra|;
  }

  /** The messages after the upgrades. */
  ghost function Closing(unfixed: seq<string>, allReleased: bool, fixed: bool, allInstalled: bool, reboot: bool)
    : seq<Event>
  {
    (if unfixed == [] then [] else [StillAffected(unfixed)])
    + (if fixed && !allInstalled && reboot then [RebootRequired] else [])
    + [if fixed && allReleased && (allInstalled || !reboot) then Resolved else NotResolved]
  }

  method PrintVerdict(unfixed: seq<string>, allReleased: bool, fixed: bool, allInstalled: bool, reboot: bool)
    returns (resolved: bool, events: seq<Event>)
    ensures resolved == (fixed && allReleased && (allInstalled || !reboot))
    ensures events == Closing(unfixed, allReleased, fixed, allInstalled, reboot)
  {
    events := if unfixed == [] then [] else [StillAffected(unfixed)];
    var fixMessage := if allReleased then Resolved else NotResolved;
    if fixed {
      if allInstalled {
        return allReleased, events + [fixMessage];
      } else if reboot {
        return false, events + [RebootRequired] + [NotResolved];
      } else {
        return allReleased, events + [fixMessage];
      }
    } else {
      return false, events + [NotResolved];
    }
  }

  /** "resolved" implies that every binary of every affected source is fixed. */
  ghost predicate Sound(le: VersionOrder, installed: Inventory, usns: Grouped, affected: map<string, PkgStatus>,
                        resolved: bool, unfixed: seq<string>, events: seq<Event>) {
    resolved ==> unfixed == [] && FullyFixed(le, installed, usns, affected, events)
  }

  /** When "resolved" is the verdict, and that one verdict is printed. */
  ghost predicate Exact(le: VersionOrder, installed: Inventory, usns: Grouped, final: map<string, PkgStatus>,
                        answers: Pocket -> Answers, reboot: bool, resolved: bool, events: seq<Event>) {
    && (resolved <==>
          && (forall n :: n in final ==> final[n].status == "released")
          && (forall p :: !Blocked(le, installed, usns, final, answers, p))
          && (!reboot || forall p :: !NeedsUpgrade(le, installed, usns, final, p)))
    && (Resolved in events <==> resolved) && (NotResolved in events <==> !resolved)
    && (RebootRequired in events <==>
          && reboot && (exists p :: NeedsUpgrade(le, installed, usns, final, p))
          && (forall p :: !Blocked(le, installed, usns, final, answers, p)))
  }

  /** The unfixed list holds each source that stays affected, once, and nothing else, and is the list printed. */
  ghost predicate Conserved(le: VersionOrder, installed: Inventory, usns: Grouped, final: map<string, PkgStatus>,
                            answers: Pocket -> Answers, unfixed: seq<string>, events: seq<Event>) {
    && Distinct(unfixed)
    && (forall n :: n in unfixed <==> n in final && StaysAffected(le, installed, usns, final, answers, n))
    && (forall names :: StillAffected(names) in events <==> names == unfixed && names != [])
  }

  /** Printed indices lie in 1..total, and no upgrade is attempted behind a blocked pocket. */
  ghost predicate Orderly(le: VersionOrder, installed: Inventory, usns: Grouped, final: map<string, PkgStatus>,
                          answers: Pocket -> Answers, total: nat, events: seq<Event>) {
    && (forall e :: e in events ==> InRange(e, total))
    && (forall e, q :: e in events && e.Attempts() && Rank(q) < Rank(e.pocket) ==>
      !Blocked(le, installed, usns, final, answers, q))
  }

  /** The messages tell the truth: each group without a fix lists its packages, each pocket lists exactly the sources
      published there, and exactly their outdated binaries are handed to apt. */
  ghost predicate Truthful(le: VersionOrder, installed: Inventory, usns: Grouped, final: map<string, PkgStatus>,
                           answers: Pocket -> Answers, events: seq<Event>) {
    && (forall n :: (exists e :: e in events && e.Packages? && n in e.names) <==>
      n in final && final[n].status != "released")
    && (forall e :: e in events && e.InPocket? ==> TruthfulPocket(le, installed, usns, final, answers, e))
  }

  ghost predicate TruthfulPocket(le: VersionOrder, installed: Inventory, usns: Grouped, final: map<string, PkgStatus>,
                                 answers: Pocket -> Answers, e: Event)
    requires e.InPocket?
  {
    && Distinct(e.names)
    && (forall n :: n in e.names <==> n in final && final[n].status == "released" && PublishedIn(final[n], e.pocket))
    && (forall b :: b in e.pkgs <==> exists n :: n in e.names && Outdated(le, installed, usns, n, b))
    && e.result == if e.pkgs == [] then Upgraded else Attempt(e.pocket, answers(e.pocket))
  }

  /** All sources that want the binary upgraded are in the given UA pocket. */
  ghost predicate WantedIn(le: VersionOrder, installed: Inventory, usns: Grouped, final: map<string, PkgStatus>,
                           b: string, pocket: string) {
    forall n :: n in final && final[n].status == "released" && Outdated(le, installed, usns, n, b) ==>
      final[n].pocket == pocket
  }

  /** Apt installs nothing without a licence for the pocket; and nothing that is wanted in one UA pocket only without
      the service of that pocket. */
  ghost predicate ServicesHeeded(le: VersionOrder, installed: Inventory, usns: Grouped, final: map<string, PkgStatus>,
                                 answers: Pocket -> Answers, events: seq<Event>) {
    forall e, b :: e in events && e.Installs(b) ==>
      && Licensed(e.pocket, answers(e.pocket))
      && (WantedIn(le, installed, usns, final, b, "esm-apps") ==> answers(Apps).service == Yes)
      && (WantedIn(le, installed, usns, final, b, "esm-infra") ==> answers(Infra).service == Yes)
  }

  lemma TruthHeedsServices(le: VersionOrder, installed: Inventory, usns: Grouped, final: map<string, PkgStatus>,
                           answers: Pocket -> Answers, events: seq<Event>)
    requires Truthful(le, installed, usns, final, answers, events)
    ensures ServicesHeeded(le, installed, usns, final, answers, events)
  {
    forall e, b | e in events && e.Installs(b)
      ensures Licensed(e.pocket, answers(e.pocket))
      ensures WantedIn(le, installed, usns, final, b, "esm-apps") ==> answers(Apps).service == Yes
      ensures WantedIn(le, installed, usns, final, b, "esm-infra") ==> answers(Infra).service == Yes
    {
      assert TruthfulPocket(le, installed, usns, final, answers, e);
      var n :| n in e.names && Outdated(le, installed, usns, n, b);
      assert PublishedIn(final[n], e.pocket);
    }
  }

  lemma RunIsTruthful(le: VersionOrder, installed: Inventory, usns: Grouped, final: map<string, PkgStatus>,
      srcs: ByPocket<(string, PkgStatus)>, bins: ByPocket<string>, pkgIndex: nat, total: nat,
      answers: Pocket -> Answers)
    requires Ready(le, installed, usns, final, srcs, bins)
    ensures forall e :: e in RunEvents(srcs, bins, pkgIndex, total, answers, Handling(bins, answers)) ==>
      e.InPocket? && TruthfulPocket(le, installed, usns, final, answers, e)
  {
    var n := Handling(bins, answers);
    var run := RunEvents(srcs, bins, pkgIndex, total, answers, n);
    RunEventsAre(srcs, bins, pkgIndex, total, answers, n);
    forall i | 0 <= i < n ensures run[i].InPocket? && TruthfulPocket(le, installed, usns, final, answers, run[i]) {
      SelectAre(Released(final), PocketKeys(final), PocketAt(i));
    }
  }

  /** The messages and upgrades of a run that reaches its verdict. */
  ghost function Transcript(announced: seq<Event>, srcs: ByPocket<(string, PkgStatus)>, bins: ByPocket<string>,
      count: nat, total: nat, answers: Pocket -> Answers, closing: seq<Event>): seq<Event>
  {
    announced + RunEvents(srcs, bins, count, total, answers, Handling(bins, answers)) + closing
  }

  lemma ClosingHas(unfixed: seq<string>, allReleased: bool, fixed: bool, allInstalled: bool, reboot: bool)
    ensures var closing := Closing(unfixed, allReleased, fixed, allInstalled, reboot);
      var resolved := fixed && allReleased && (allInstalled || !reboot);
      && (forall e :: e in closing ==> !e.Announces())
      && (Resolved in closing <==> resolved) && (NotResolved in closing <==> !resolved)
      && (RebootRequired in closing <==> fixed && !allInstalled && reboot)
      && (forall names :: StillAffected(names) in closing <==> names == unfixed && names != [])
  {
    ConcatMembers(
      if unfixed == [] then [] else [StillAffected(unfixed)],
      if fixed && !allInstalled && reboot then [RebootRequired] else [],
      [if fixed && allReleased && (allInstalled || !reboot) then Resolved else NotResolved]);
  }

  lemma TranscriptHas(announced: seq<Event>, srcs: ByPocket<(string, PkgStatus)>, bins: ByPocket<string>, count: nat,
      total: nat, answers: Pocket -> Answers, closing: seq<Event>)
    requires Progress(announced, count, total) && count + Size(srcs) <= total
    requires forall e :: e in closing ==> !e.Announces()
    ensures var run := RunEvents(srcs, bins, count, total, answers, Handling(bins, answers));
      var t := Transcript(announced, srcs, bins, count, total, answers, closing);
      && (forall e :: e in t && e.InPocket? <==> e in run)
      && (forall e :: e in t && e.Packages? <==> e in announced)
      && (forall e :: e in t && !e.Announces() <==> e in closing)
      && (forall e :: e in t ==> InRange(e, total))
      && (forall e, q :: e in t && e.InPocket? && Rank(q) < Rank(e.pocket) ==> !Blocks(bins, answers, q))
  {
    var run := RunEvents(srcs, bins, count, total, answers, Handling(bins, answers));
    RunIsOrderly(srcs, bins, count, total, answers);
    ConcatMembers(announced, run, closing);
  }

  /** Everything known once all status groups have been announced. */
  ghost predicate Announced(le: VersionOrder, installed: Inventory, usns: Grouped, affected: map<string, PkgStatus>,
      final: map<string, PkgStatus>, srcs: ByPocket<(string, PkgStatus)>, bins: ByPocket<string>, announced: seq<Event>,
      unfixed: seq<string>)
  {
    && final.Keys == affected.Keys
    && (forall n :: n in final ==> Overridden(affected[n], SourcePackages(usns, n), final[n]))
    && Ready(le, installed, usns, final, srcs, bins) && Progress(announced, |unfixed|, |affected|) &&
      Listed(announced) == unfixed
    && Distinct(unfixed) && forall n :: n in unfixed <==> n in final && final[n].status != "released"
  }

  lemma ResolvedExactly(le: VersionOrder, installed: Inventory, usns: Grouped, final: map<string, PkgStatus>,
      srcs: ByPocket<(string, PkgStatus)>, bins: ByPocket<string>, answers: Pocket -> Answers, unfixed: seq<string>)
    requires Ready(le, installed, usns, final, srcs, bins)
    requires forall n :: n in unfixed <==> n in final && final[n].status != "released"
    ensures unfixed == [] <==> forall n :: n in final ==> final[n].status == "released"
    ensures Stop(bins, answers) == 3 <==> forall p :: !Blocked(le, installed, usns, final, answers, p)
    ensures (forall p :: bins.At(p) == []) <==> forall p :: !NeedsUpgrade(le, installed, usns, final, p)
  {
    PlannedPockets(le, installed, usns, final, srcs, bins, answers);
    assert forall p :: Rank(p) < 3;
    if unfixed == [] {
      forall n | n in final ensures final[n].status == "released" {
        assert n !in unfixed;
      }
    } else {
      assert unfixed[0] in unfixed;
    }
  }

  lemma ConcludeOrderly(le: VersionOrder, installed: Inventory, usns: Grouped, affected: map<string, PkgStatus>,
      final: map<string, PkgStatus>, srcs: ByPocket<(string, PkgStatus)>, bins: ByPocket<string>,
      answers: Pocket -> Answers, announced: seq<Event>, unfixed: seq<string>, closing: seq<Event>)
    requires Announced(le, installed, usns, affected, final, srcs, bins, announced, unfixed)
    requires forall e :: e in closing ==> !e.Announces()
    ensures Orderly(le, installed, usns, final, answers, |affected|,
      Transcript(announced, srcs, bins, |unfixed|, |affected|, answers, closing))
  {
    CountFits(final, srcs, unfixed);
    assert |final.Keys| == |affected|;
    PlannedPockets(le, installed, usns, final, srcs, bins, answers);
    TranscriptHas(announced, srcs, bins, |unfixed|, |affected|, answers, closing);
  }

  lemma ConcludeTruthful(le: VersionOrder, installed: Inventory, usns: Grouped, affected: map<string, PkgStatus>,
      final: map<string, PkgStatus>, srcs: ByPocket<(string, PkgStatus)>, bins: ByPocket<string>,
      answers: Pocket -> Answers, announced: seq<Event>, unfixed: seq<string>, closing: seq<Event>)
    requires Announced(le, installed, usns, affected, final, srcs, bins, announced, unfixed)
    requires forall e :: e in closing ==> !e.Announces()
    ensures Truthful(le, installed, usns, final, answers,
      Transcript(announced, srcs, bins, |unfixed|, |affected|, answers, closing))
  {
    AffectedFit(le, installed, usns, affected, final, srcs, bins, announced, unfixed);
    TranscriptHas(announced, srcs, bins, |unfixed|, |affected|, answers, closing);
    RunIsTruthful(le, installed, usns, final, srcs, bins, |unfixed|, |affected|, answers);
    ListedIs(announced);
  }

  lemma AffectedFit(le: VersionOrder, installed: Inventory, usns: Grouped, affected: map<string, PkgStatus>,
      final: map<string, PkgStatus>, srcs: ByPocket<(string, PkgStatus)>, bins: ByPocket<string>, announced: seq<Event>,
      unfixed: seq<string>)
    requires Announced(le, installed, usns, affected, final, srcs, bins, announced, unfixed)
    ensures |unfixed| + Size(srcs) <= |affected|
  {
    CountFits(final, srcs, unfixed);
    assert |final.Keys| == |affected|;
  }

  /** A transcript says resolved or not resolved, never both, and lists what is still affected, once. */
  lemma VerdictPrinted(announced: seq<Event>, srcs: ByPocket<(string, PkgStatus)>, bins: ByPocket<string>, count: nat,
      total: nat, answers: Pocket -> Answers, all: seq<string>, allReleased: bool, fixed: bool, allInstalled: bool,
      reboot: bool)
    requires Progress(announced, count, total) && count + Size(srcs) <= total
    ensures
      var t := Transcript(announced, srcs, bins, count, total, answers,
        Closing(all, allReleased, fixed, allInstalled, reboot));
      var resolved := fixed && allReleased && (allInstalled || !reboot);
      && (Resolved in t <==> resolved) && (NotResolved in t <==> !resolved)
      && (RebootRequired in t <==> fixed && !allInstalled && reboot)
      && (forall names :: StillAffected(names) in t <==> names == all && names != [])
  {
    ClosingHas(all, allReleased, fixed, allInstalled, reboot);
    TranscriptHas(announced, srcs, bins, count, total, answers, Closing(all, allReleased, fixed, allInstalled, reboot));
  }

  lemma ConcludeSound(le: VersionOrder, installed: Inventory, usns: Grouped, affected: map<string, PkgStatus>,
      final: map<string, PkgStatus>, srcs: ByPocket<(string, PkgStatus)>, bins: ByPocket<string>,
      answers: Pocket -> Answers, announced: seq<Event>, closing: seq<Event>)
    requires Announced(le, installed, usns, affected, final, srcs, bins, announced, [])
    requires Stop(bins, answers) == 3 && forall e :: e in closing ==> !e.Announces()
    ensures FullyFixed(le, installed, usns, affected,
      Transcript(announced, srcs, bins, 0, |affected|, answers, closing))
  {
    CountFits(final, srcs, []);
    assert |final.Keys| == |affected|;
    ResolvedExactly(le, installed, usns, final, srcs, bins, answers, []);
    RunCovers(srcs, bins, 0, |affected|, answers);
    FixedWhenNothingBlocks(
      le, installed, usns, affected, final, srcs, bins,
      RunEvents(srcs, bins, 0, |affected|, answers, Handling(bins, answers)));
    TranscriptHas(announced, srcs, bins, 0, |affected|, answers, closing);
  }

  lemma ConcludeConserved(le: VersionOrder, installed: Inventory, usns: Grouped, affected: map<string, PkgStatus>,
      final: map<string, PkgStatus>, srcs: ByPocket<(string, PkgStatus)>, bins: ByPocket<string>,
      answers: Pocket -> Answers, announced: seq<Event>, unfixed: seq<string>, allInstalled: bool, reboot: bool)
    requires Announced(le, installed, usns, affected, final, srcs, bins, announced, unfixed)
    ensures var stop := Stop(bins, answers);
      var all := unfixed + NamesBetween(srcs, stop, 3);
      Conserved(le, installed, usns, final, answers, all,
        Transcript(announced, srcs, bins, |unfixed|, |affected|, answers,
          Closing(all, unfixed == [], stop == 3, allInstalled, reboot)))
  {
    var stop := Stop(bins, answers);
    var all := unfixed + NamesBetween(srcs, stop, 3);
    UnfixedAre(le, installed, usns, final, srcs, bins, answers, unfixed);
    AffectedFit(le, installed, usns, affected, final, srcs, bins, announced, unfixed);
    VerdictPrinted(
      announced, srcs, bins, |unfixed|, |affected|, answers, all, unfixed == [], stop == 3, allInstalled, reboot);
  }

  lemma ConcludeExact(le: VersionOrder, installed: Inventory, usns: Grouped, affected: map<string, PkgStatus>,
      final: map<string, PkgStatus>, srcs: ByPocket<(string, PkgStatus)>, bins: ByPocket<string>,
      answers: Pocket -> Answers, announced: seq<Event>, unfixed: seq<string>, all: seq<string>, allInstalled: bool,
      reboot: bool)
    requires Announced(le, installed, usns, affected, final, srcs, bins, announced, unfixed)
    requires allInstalled == forall p :: bins.At(p) == []
    ensures var stop := Stop(bins, answers);
      Exact(le, installed, usns, final, answers, reboot, stop == 3 && unfixed == [] && (allInstalled || !reboot),
        Transcript(announced, srcs, bins, |unfixed|, |affected|, answers,
          Closing(all, unfixed == [], stop == 3, allInstalled, reboot)))
  {
    ResolvedExactly(le, installed, usns, final, srcs, bins, answers, unfixed);
    AffectedFit(le, installed, usns, affected, final, srcs, bins, announced, unfixed);
    var stop := Stop(bins, answers);
    VerdictPrinted(
      announced, srcs, bins, |unfixed|, |affected|, answers, all, unfixed == [], stop == 3, allInstalled, reboot);
  }

  /** Apt fails in some pocket that needs an upgrade, and no earlier one is blocked. */
  ghost predicate AptFails(le: VersionOrder, installed: Inventory, usns: Grouped, final: map<string, PkgStatus>,
                           answers: Pocket -> Answers) {
    exists p ::
      && NeedsUpgrade(le, installed, usns, final, p) && Attempt(p, answers(p)) == Raised
      && forall q :: Rank(q) < Rank(p) ==> !Blocked(le, installed, usns, final, answers, q)
  }

  lemma StopsWhereAptFails(le: VersionOrder, installed: Inventory, usns: Grouped, final: map<string, PkgStatus>,
                           srcs: ByPocket<(string, PkgStatus)>, bins: ByPocket<string>, answers: Pocket -> Answers)
    requires Ready(le, installed, usns, final, srcs, bins)
    ensures var stop := Stop(bins, answers);
      stop < 3 && Attempt(PocketAt(stop), answers(PocketAt(stop))) == Raised <==>
        AptFails(le, installed, usns, final, answers)
  {
    PlannedPockets(le, installed, usns, final, srcs, bins, answers);
    var stop := Stop(bins, answers);
    if p :| && NeedsUpgrade(le, installed, usns, final, p) && Attempt(p, answers(p)) == Raised
            && forall q :: Rank(q) < Rank(p) ==> !Blocked(le, installed, usns, final, answers, q)
    {
      assert Blocks(bins, answers, p) && PocketAt(Rank(p)) == p;
      assert stop == Rank(p);
    }
    if stop < 3 {
      assert Blocked(le, installed, usns, final, answers, PocketAt(stop));
    }
  }

  /** A run that apt breaks off is as orderly and truthful as any other, but prints no verdict. */
  lemma BrokenOff(le: VersionOrder, installed: Inventory, usns: Grouped, affected: map<string, PkgStatus>,
                  final: map<string, PkgStatus>, srcs: ByPocket<(string, PkgStatus)>, bins: ByPocket<string>,
                  answers: Pocket -> Answers, announced: seq<Event>, unfixed: seq<string>)
    requires Announced(le, installed, usns, affected, final, srcs, bins, announced, unfixed)
    ensures var events := announced + RunEvents(srcs, bins, |unfixed|, |affected|, answers, Handling(bins, answers));
      && Orderly(le, installed, usns, final, answers, |affected|, events)
      && Truthful(le, installed, usns, final, answers, events)
      && forall e :: e in events ==> e.Announces()
  {
    var events := announced + RunEvents(srcs, bins, |unfixed|, |affected|, answers, Handling(bins, answers));
    assert Transcript(announced, srcs, bins, |unfixed|, |affected|, answers, []) == events;
    ConcludeOrderly(le, installed, usns, affected, final, srcs, bins, answers, announced, unfixed, []);
    ConcludeTruthful(le, installed, usns, affected, final, srcs, bins, answers, announced, unfixed, []);
    AffectedFit(le, installed, usns, affected, final, srcs, bins, announced, unfixed);
    TranscriptHas(announced, srcs, bins, |unfixed|, |affected|, answers, []);
  }

  ghost predicate Concluded(le: VersionOrder, installed: Inventory, usns: Grouped, affected: map<string, PkgStatus>,
      final: map<string, PkgStatus>, answers: Pocket -> Answers, reboot: bool, outcome: Outcome, events: seq<Event>)
  {
    && (outcome.Verdict? ==>
          && Sound(le, installed, usns, affected, outcome.resolved, outcome.unfixed, events)
          && Exact(le, installed, usns, final, answers, reboot, outcome.resolved, events)
          && Conserved(le, installed, usns, final, answers, outcome.unfixed, events))
    && (outcome.UpgradeError? ==> forall e :: e in events ==> e.Announces())
    && (outcome.Verdict? || outcome.UpgradeError? ==>
          && Orderly(le, installed, usns, final, answers, |affected|, events)
          && Truthful(le, installed, usns, final, answers, events))
  }

  /** The upgrades and the verdict, once every group has been announced. */
  method UpgradeAndConclude(le: VersionOrder, installed: Inventory, usns: Grouped, answers: Pocket -> Answers,
      reboot: bool, affected: map<string, PkgStatus>, ghost final: map<string, PkgStatus>,
      srcs: ByPocket<(string, PkgStatus)>, bins: ByPocket<string>, announced: seq<Event>, unfixed: seq<string>)
    returns (outcome: Outcome, events: seq<Event>)
    requires Announced(le, installed, usns, affected, final, srcs, bins, announced, unfixed)
    requires forall p :: bins.At(p) != [] ==> srcs.At(p) != []
    ensures outcome.UpgradeError? || outcome.Verdict?
    ensures outcome.UpgradeError? <==> AptFails(le, installed, usns, final, answers)
    ensures Concluded(le, installed, usns, affected, final, answers, reboot, outcome, events)
  {
    // no group is empty, so the "resolved" message survives the loop iff nothing was collected
    var allReleased := unfixed == [];
    var h, run := HandleReleased(srcs, bins, |unfixed|, |affected|, answers);
    StopsWhereAptFails(le, installed, usns, final, srcs, bins, answers);
    if h.Failed? {
      BrokenOff(le, installed, usns, affected, final, srcs, bins, answers, announced, unfixed);
      return UpgradeError, announced + run;
    }
    var all := unfixed + h.unfixed;
    var resolved, closing := PrintVerdict(all, allReleased, h.fixed, h.allInstalled, reboot);
    outcome, events := Verdict(resolved, all), announced + run + closing;
    assert events == Transcript(announced, srcs, bins, |unfixed|, |affected|, answers, closing);
    ConcludeConserved(le, installed, usns, affected, final, srcs, bins, answers, announced, unfixed, h.allInstalled,
      reboot);
    ConcludeExact(le, installed, usns, affected, final, srcs, bins, answers, announced, unfixed, all, h.allInstalled,
      reboot);
    assert forall e :: e in closing ==> !e.Announces() by {
      ClosingHas(all, allReleased, h.fixed, h.allInstalled, reboot);
    }
    ConcludeOrderly(le, installed, usns, affected, final, srcs, bins, answers, announced, unfixed, closing);
    ConcludeTruthful(le, installed, usns, affected, final, srcs, bins, answers, announced, unfixed, closing);
    if resolved {
      ConcludeSound(le, installed, usns, affected, final, srcs, bins, answers, announced, closing);
    }
  }

  /** The loop over status groups, the upgrades and the verdict. `final` are the statuses after the USN override. */
  method PromptForAffectedPackages(le: VersionOrder, affected: map<string, PkgStatus>, installed: Inventory,
      usns: Grouped, answers: Pocket -> Answers, reboot: bool)
    returns (outcome: Outcome, events: seq<Event>, ghost final: map<string, PkgStatus>)
    requires affected.Keys <= installed.Keys
    ensures final.Keys == affected.Keys
    ensures forall n :: n in final ==> Overridden(affected[n], SourcePackages(usns, n), final[n])
    ensures outcome.NothingAffected? <==> affected == map[]
    ensures outcome.NoFixedVersion? <==> exists n, b :: n in Released(final) && NoFix(installed, usns, n, b)
    ensures outcome.NoFixedVersion? ==>
      && (exists n :: n in Released(final) && NoFix(installed, usns, n, outcome.pkg))
      && (forall n :: n in Released(final) ==> n in outcome.unfixed) && Distinct(outcome.unfixed)
    ensures outcome.UpgradeError? <==> !outcome.NoFixedVersion? && AptFails(le, installed, usns, final, answers)
    ensures !outcome.Verdict? ==> forall e :: e in events ==> e.Announces()
    ensures Concluded(le, installed, usns, affected, final, answers, reboot, outcome, events)
    ensures ServicesHeeded(le, installed, usns, final, answers, events)
  {
    if affected == map[] {
      return NothingAffected, [], map[];
    }
    var groups;
    groups, final := GroupByStatus(affected, usns);
    var announced, unfixed, srcs, bins, missing := Announce(le, installed, usns, groups, |affected|, final);
    if missing.Some? {
      return NoFixedVersion(missing.value, unfixed), announced, final;
    }
    PlannedPockets(le, installed, usns, final, srcs, bins, answers);
    outcome, events := UpgradeAndConclude(le, installed, usns, answers, reboot, affected, final, srcs, bins, announced,
      unfixed);
    TruthHeedsServices(le, installed, usns, final, answers, events);
  }
}
