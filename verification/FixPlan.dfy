/** The `ua fix` run: announce the affected packages, upgrade pocket by pocket, print a verdict. */
module FixPlan {
  import opened Common
  import opened Usn
  import opened FixStatus

  datatype ByPocket<T> = ByPocket(standard: seq<T>, infra: seq<T>, apps: seq<T>) {
    function At(p: Pocket): seq<T> {
      match p case Standard => standard case Infra => infra case Apps => apps
    }

    function Append(p: Pocket, xs: seq<T>): (r: ByPocket<T>)
      ensures forall q :: r.At(q) == if q == p then At(q) + xs else At(q)
    {
      match p
      case Standard => this.(standard := standard + xs)
      case Infra => this.(infra := infra + xs)
      case Apps => this.(apps := apps + xs)
    }
  }

  /** The order in which pockets are handled. */
  ghost function Rank(p: Pocket): nat {
    match p case Standard => 0 case Infra => 1 case Apps => 2
  }

  function PocketAt(i: nat): (p: Pocket)
    ensures i < 3 ==> Rank(p) == i
  {
    if i == 0 then Standard else if i == 1 then Infra else Apps
  }

  datatype Check = Yes | No | Raises

  /** Everything outside the program that an upgrade of one pocket depends on. `renewal` is Yes when the subscription
      has not expired or is renewed; `service` when the pocket's service is active or gets enabled. */
  datatype Answers = Answers(root: bool, attached: bool, attach: Check, renewal: Check, service: Check,
    aptUpdate: bool, aptInstall: bool)

  datatype UpgradeResult = Upgraded | Refused | Raised

  function ToResult(c: Check): UpgradeResult {
    match c case Yes => Upgraded case No => Refused case Raises => Raised
  }

  function Subscription(a: Answers): UpgradeResult {
    var attached := ToResult(if a.attached then a.renewal else a.attach);
    if attached != Upgraded then attached else ToResult(a.service)
  }

  /** The outcome for a non-empty list of packages. */
  ghost function Attempt(p: Pocket, a: Answers): UpgradeResult {
    if !a.root then Refused
    else if p != Standard && Subscription(a) != Upgraded then Subscription(a)
    else if a.aptUpdate && a.aptInstall then Upgraded else Raised
  }

  /** What a run prints and does. A `Pocket` event stands for the message about one pocket (if it has affected
      packages) and for the apt upgrade of `pkgs` (if there are any). The indices printed by a message about `names`
      are before+1 .. before+|names|. */
  datatype Event =
    | Packages(before: nat, names: seq<string>, total: nat)
    | InPocket(pocket: Pocket, before: nat, names: seq<string>, total: nat, pkgs: seq<string>, result: UpgradeResult)
    | StillAffected(names: seq<string>)
    | RebootRequired
    | Resolved
    | NotResolved
  {
    ghost predicate Announces() {
      Packages? || InPocket?
    }

    /** apt installed these packages and reported success. */
    ghost predicate Installs(bin: string) {
      InPocket? && bin in pkgs && result == Upgraded
    }

    ghost predicate Attempts() {
      InPocket? && pkgs != []
    }
  }

  ghost function Indices(e: Event): seq<nat> {
    if e.Announces() then seq(|e.names|, i => e.before + i + 1) else []
  }

  ghost function Printed(events: seq<Event>): seq<nat> {
    if events == [] then [] else Printed(events[..|events| - 1]) + Indices(events[|events| - 1])
  }

  /** The printed indices lie in 1..total. */
  ghost predicate InRange(e: Event, total: nat) {
    e.Announces() ==> e.total == total && e.before + |e.names| <= total
  }

  /** Who may have a fix from the pocket: root and, for a UA pocket, with a subscription in force and its service on. */
  ghost predicate Licensed(p: Pocket, a: Answers) {
    a.root && (p != Standard ==> (if a.attached then a.renewal else a.attach) == Yes && a.service == Yes)
  }

  /** The user has no subscription or no service, and declines to get one. */
  ghost predicate Declined(a: Answers) {
    if a.attached && a.renewal != Yes then a.renewal == No
    else if !a.attached && a.attach != Yes then a.attach == No
    else a.service == No
  }

  datatype AptCall = Update | Install(pkgs: seq<string>)

  /** Apt is reached by root only and, for a UA pocket, only with a subscription in force and its service on. A refusal
      comes before any call; success means that the lists were updated and then exactly these packages installed. */
  method UpgradePackages(pkgs: seq<string>, pocket: Pocket, a: Answers) returns (r: UpgradeResult, calls: seq<AptCall>)
    ensures r == if pkgs == [] then Upgraded else Attempt(pocket, a)
    ensures r == Upgraded <==> pkgs == [] || (Licensed(pocket, a) && a.aptUpdate && a.aptInstall)
    ensures r == Refused <==> pkgs != [] && (!a.root || (pocket != Standard && Declined(a)))
    ensures calls != [] ==> Licensed(pocket, a) && pkgs != []
    ensures r == Refused ==> calls == []
    ensures r == Upgraded ==> calls == if pkgs == [] then [] else [Update, Install(pkgs)]
    ensures r == Raised && calls != [] ==> !a.aptUpdate || !a.aptInstall
    ensures Install(pkgs) in calls ==> a.aptUpdate
  {
    calls := [];
    if pkgs == [] {
      return Upgraded, calls;
    }
    if !a.root {
      return Refused, calls;
    }
    if pocket != Standard {
      if !a.attached {
        if a.attach != Yes {
          return ToResult(a.attach), calls;
        }
      } else if a.renewal != Yes {
        return ToResult(a.renewal), calls;
      }
      if a.service != Yes {
        return ToResult(a.service), calls;
      }
    }
    calls := [Update];
    if !a.aptUpdate {
      return Raised, calls;
    }
    calls := calls + [Install(pkgs)];
    return if a.aptInstall then Upgraded else Raised, calls;
  }

  ghost predicate Blocks(bins: ByPocket<string>, answers: Pocket -> Answers, p: Pocket) {
    bins.At(p) != [] && Attempt(p, answers(p)) != Upgraded
  }

  /** The first pocket whose upgrade does not go through; 3 if there is none. */
  ghost function Stop(bins: ByPocket<string>, answers: Pocket -> Answers): (r: nat)
    ensures r <= 3
    ensures forall p :: Rank(p) < r ==> !Blocks(bins, answers, p)
    ensures r < 3 ==> Blocks(bins, answers, PocketAt(r))
  {
    if Blocks(bins, answers, Standard) then 0
    else if Blocks(bins, answers, Infra) then 1
    else if Blocks(bins, answers, Apps) then 2
    else 3
  }

  /** The sources of pockets lo, ..., hi - 1. */
  ghost function NamesBetween(srcs: ByPocket<(string, PkgStatus)>, lo: nat, hi: nat): seq<string>
    requires lo <= hi <= 3
  {
    if lo == hi then [] else NamesBetween(srcs, lo, hi - 1) + Names(srcs.At(PocketAt(hi - 1)))
  }

  /** By how much the index has advanced before pocket i: already installed pockets do not count. */
  ghost function Advance(srcs: ByPocket<(string, PkgStatus)>, bins: ByPocket<string>, i: nat): nat
    requires i <= 3
  {
    if i == 0 then 0
    else Advance(srcs, bins, i - 1) + if bins.At(PocketAt(i - 1)) == [] then 0 else |srcs.At(PocketAt(i - 1))|
  }

  ghost function Size<T>(x: ByPocket<T>): nat {
    |x.standard| + |x.infra| + |x.apps|
  }

  ghost function PocketEvent(srcs: ByPocket<(string, PkgStatus)>, bins: ByPocket<string>, pkgIndex: nat, total: nat,
      answers: Pocket -> Answers, i: nat): Event
    requires i < 3
  {
    var p := PocketAt(i);
    InPocket(p, pkgIndex + Advance(srcs, bins, i), Names(srcs.At(p)), total, bins.At(p),
             if bins.At(p) == [] then Upgraded else Attempt(p, answers(p)))
  }

  /** Handling the first n pockets. */
  ghost function RunEvents(srcs: ByPocket<(string, PkgStatus)>, bins: ByPocket<string>, pkgIndex: nat, total: nat,
      answers: Pocket -> Answers, n: nat): seq<Event>
    requires n <= 3
  {
    if n == 0 then []
    else
      RunEvents(srcs, bins, pkgIndex, total, answers, n - 1)
      + [PocketEvent(srcs, bins, pkgIndex, total, answers, n - 1)]
  }

  datatype Handled = Failed | Handled(fixed: bool, unfixed: seq<string>, allInstalled: bool)

  ghost function Handling(bins: ByPocket<string>, answers: Pocket -> Answers): (n: nat)
    ensures n <= 3
  {
    if Stop(bins, answers) < 3 then Stop(bins, answers) + 1 else 3
  }

  /** The accumulators of the loop before pocket i. */
  datatype State = State(upgraded: bool, allInstalled: bool, unfixed: seq<string>, index: nat, events: seq<Event>)

  /** What one pass of the loop does to the accumulators; it fails where apt raises. */
  ghost predicate Handles(pocket: Pocket, group: PkgList, pkgs: seq<string>, total: nat, a: Answers, before: State,
      failed: bool, after: State)
  {
    if !before.upgraded then !failed && after == before.(unfixed := before.unfixed + Names(group))
    else
      var r := if pkgs == [] then Upgraded else Attempt(pocket, a);
      var events := before.events + [InPocket(pocket, before.index, Names(group), total, pkgs, r)];
      if failed then r == Raised && after.events == events
      else
        && r != Raised
        && after == State(
             r == Upgraded,
             before.allInstalled && pkgs == [],
             before.unfixed + if r == Upgraded then [] else Names(group),
             before.index + if pkgs == [] then 0 else |group|,
             events)
  }

  method HandlePocket(pocket: Pocket, group: PkgList, pkgs: seq<string>, total: nat, a: Answers, before: State)
    returns (failed: bool, after: State)
    requires pkgs != [] ==> group != []
    ensures Handles(pocket, group, pkgs, total, a, before, failed, after)
  {
    after := before;
    if after.upgraded {
      if group != [] {
        if pkgs == [] {
          after := after.(events :=
            after.events + [InPocket(pocket, after.index, Names(group), total, pkgs, Upgraded)]);
          return false, after;
        }
        after := after.(allInstalled := false);
      }
      var r, _ := UpgradePackages(pkgs, pocket, a);
      after := after.(
        events := after.events + [InPocket(pocket, after.index, Names(group), total, pkgs, r)],
        index := after.index + |group|);
      if r == Raised {
        return true, after;
      }
      after := after.(upgraded := r == Upgraded);
    }
    if !after.upgraded {
      after := after.(unfixed := after.unfixed + Names(group));
    }
    return false, after;
  }

  /** The accumulators after the first i pockets. */
  ghost predicate Reached(srcs: ByPocket<(string, PkgStatus)>, bins: ByPocket<string>, pkgIndex: nat, total: nat,
                          answers: Pocket -> Answers, i: nat, state: State)
    requires i <= 3
  {
    var stop := Stop(bins, answers);
    && state.upgraded == (i <= stop)
    && state.events == RunEvents(srcs, bins, pkgIndex, total, answers, if i <= stop then i else stop + 1)
    && if state.upgraded then
         && state.unfixed == [] && state.index == pkgIndex + Advance(srcs, bins, i)
         && state.allInstalled == forall p :: Rank(p) < i ==> bins.At(p) == []
       else
         && state.unfixed == NamesBetween(srcs, stop, i) && !state.allInstalled
         && Attempt(PocketAt(stop), answers(PocketAt(stop))) != Raised
  }

  lemma ReachedStep(srcs: ByPocket<(string, PkgStatus)>, bins: ByPocket<string>, pkgIndex: nat, total: nat,
                    answers: Pocket -> Answers, i: nat, before: State, failed: bool, after: State)
    requires i < 3 && Reached(srcs, bins, pkgIndex, total, answers, i, before)
    requires var p := PocketAt(i); Handles(p, srcs.At(p), bins.At(p), total, answers(p), before, failed, after)
    ensures failed ==>
      && Stop(bins, answers) == i && Attempt(PocketAt(i), answers(PocketAt(i))) == Raised
      && after.events == RunEvents(srcs, bins, pkgIndex, total, answers, i + 1)
    ensures !failed ==> Reached(srcs, bins, pkgIndex, total, answers, i + 1, after)
  {
    var p := PocketAt(i);
    assert forall q :: Rank(q) < i + 1 <==> Rank(q) < i || q == p;
    assert before.upgraded ==> (i < Stop(bins, answers) <==> !Blocks(bins, answers, p));
  }

  lemma {:induction false} BetweenGrows(srcs: ByPocket<(string, PkgStatus)>, lo: nat, hi: nat)
    requires lo < hi <= 3
    ensures |NamesBetween(srcs, lo, hi)| >= |srcs.At(PocketAt(lo))|
  {
    if hi > lo + 1 {
      BetweenGrows(srcs, lo, hi - 1);
    }
  }

  /** Something stays unfixed exactly when a pocket blocks. */
  lemma UnfixedIffBlocked(srcs: ByPocket<(string, PkgStatus)>, bins: ByPocket<string>, answers: Pocket -> Answers)
    requires forall p :: bins.At(p) != [] ==> srcs.At(p) != []
    ensures Stop(bins, answers) == 3 <==> NamesBetween(srcs, Stop(bins, answers), 3) == []
  {
    if Stop(bins, answers) < 3 {
      BetweenGrows(srcs, Stop(bins, answers), 3);
    }
  }

  /** Pockets before the first blocking one are upgraded; the sources of that pocket and of all later ones stay
      unfixed, and nothing is run after it. An apt failure is raised to the caller. */
  method HandleReleased(
    srcs: ByPocket<(string, PkgStatus)>, bins: ByPocket<string>, pkgIndex: nat, total: nat, answers: Pocket -> Answers)
    returns (h: Handled, events: seq<Event>)
    requires forall p :: bins.At(p) != [] ==> srcs.At(p) != []
    ensures h.Failed? <==>
      Stop(bins, answers) < 3 &&
        Attempt(PocketAt(Stop(bins, answers)), answers(PocketAt(Stop(bins, answers)))) == Raised
    ensures h.Handled? ==>
      h == Handled(Stop(bins, answers) == 3, NamesBetween(srcs, Stop(bins, answers), 3), forall p :: bins.At(p) == [])
    ensures h.Handled? ==> (h.fixed <==> h.unfixed == [])
    ensures events == RunEvents(srcs, bins, pkgIndex, total, answers, Handling(bins, answers))
  {
    var state := State(true, true, [], pkgIndex, []);
    for i := 0 to 3
      invariant Reached(srcs, bins, pkgIndex, total, answers, i, state)
    {
      var p, before := PocketAt(i), state;
      var failed;
      failed, state := HandlePocket(p, srcs.At(p), bins.At(p), total, answers(p), before);
      ReachedStep(srcs, bins, pkgIndex, total, answers, i, before, failed, state);
      if failed {
        return Failed, state.events;
      }
    }
    UnfixedIffBlocked(srcs, bins, answers);
    return Handled(state.upgraded, state.unfixed, state.allInstalled), state.events;
  }
}
