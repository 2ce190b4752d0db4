/** Enabling, disabling and refreshing services on one machine between two reboots. */
module Services {
  import opened Common
  import opened AptRepo
  import opened Policy

  /** How an operation ends: its Python result, or an exception. */
  datatype Outcome = Did | Refused | Raised

  /** The outside world during one operation on one service: prompts, configuration and the success of commands. */
  datatype World = World(
    preEnable: bool, container: bool, allowedOnCloud: bool, applicable: bool, blockDisable: bool, confirm: bool,
    setup: SetupAnswers, install: bool, cleanupUpdate: bool, preDisable: bool, removePackages: bool,
    hadUrl: bool, removeUpdate: bool, liveInstall: bool, liveConfig: bool, liveDisable: bool, liveEnable: bool,
      liveStray: bool)

  /** A contract delta of one service, as far as processing looks at it: an empty url is no new aptURL, and a dropped
      one is the marker that replaces it. */
  datatype Delta = Delta(
    unentitled: bool, directives: bool, url: string, urlDropped: bool, packages: bool, enableByDefault: bool,
    enabledByDefault: bool, liveDirectives: bool, token: bool)

  /** No command fails that disabling a service runs. */
  ghost predicate Disableable(w: World) {
    w.liveDisable && w.removePackages && w.removeUpdate
  }

  /** A command fails on the way to disabling the service. */
  ghost predicate DisableFails(s: Service, w: World) {
    if s.Livepatch? then !w.liveDisable else (IsFips(s) && !w.removePackages) || !w.removeUpdate
  }

  /** A delta that finds the service enabled, its aptURL applied and its packages installable. */
  ghost predicate Undisturbed(st: State, s: Service, url: string, d: Delta, w: World) {
    && !s.Livepatch? && st.Reported(s, url) && !d.unentitled && !d.urlDropped
    && Applied(FilesIn(st.repos, s), d.url) && (d.packages ==> w.install)
  }

  ghost predicate AllUndisturbed(st: State, contract: map<Service, Ent>, deltas: map<Service, Delta>,
                           worlds: Service -> World)
  {
    forall s :: s in deltas ==> Undisturbed(st, s, UrlIn(contract, s), deltas[s], worlds(s))
  }

  ghost predicate NoneByDefault(deltas: map<Service, Delta>) {
    forall s :: s in deltas ==> !deltas[s].enabledByDefault
  }

  ghost predicate MayStartLivepatch(d: Delta, allowEnable: bool) {
    d.enabledByDefault || (allowEnable && d.enableByDefault)
  }

  ghost predicate AnyStartsLivepatch(deltas: map<Service, Delta>, allowEnable: bool) {
    Livepatch in deltas && MayStartLivepatch(deltas[Livepatch], allowEnable)
  }

  /** How far the processing of the deltas has come, and what it has kept since it started. */
  ghost predicate Progress(done: seq<Service>, deltas: map<Service, Delta>, allowEnable: bool, safe: bool, calm: bool,
                           contract: map<Service, Ent>, cached: set<Service>, start: State, now: State) {
    && Visited(done, contract, start.repos, now.repos) && start.fipsProc == now.fipsProc
    && (Livepatch !in done ==> Unstarted(start.live, now.live))
    && (!AnyStartsLivepatch(deltas, allowEnable) ==> now.Reported(Livepatch, "") ==> start.Reported(Livepatch, ""))
    && (safe ==> Keeps(contract, start, now))
    && (!allowEnable && NoneByDefault(deltas) ==> AllExpected(contract, cached, start, now))
    && (calm ==> now == start)
  }

  lemma ProgressOneMore(s: Service, deltas: map<Service, Delta>, allowEnable: bool, done: seq<Service>, safe: bool,
                        calm: bool, contract: map<Service, Ent>, cached: set<Service>, start: State, a: State, b: State)
    requires Progress(done, deltas, allowEnable, safe, calm, contract, cached, start, a)
    requires s in deltas && s !in done && Livepatch !in done && a.fipsProc == b.fipsProc
    requires SameBut(s, a.repos, b.repos) && UrlFrom(FilesIn(a.repos, s), FilesIn(b.repos, s), UrlIn(contract, s))
    requires !s.Livepatch? ==> Unstarted(a.live, b.live)
    requires s.Livepatch? && !MayStartLivepatch(deltas[s], allowEnable) ==>
      b.Reported(Livepatch, "") ==> a.Reported(Livepatch, "")
    requires safe ==> Keeps(contract, a, b)
    requires !allowEnable && !deltas[s].enabledByDefault ==>
      OnlyAppears(s, s in cached && !s.Livepatch?, contract, a, b)
    requires calm ==> b == a
    ensures Progress(done + [s], deltas, allowEnable, safe, calm, contract, cached, start, b)
  {
    VisitedOneMore(done, s, contract, start.repos, a.repos, b.repos);
    if safe {
      KeepsTwice(contract, start, a, b);
    }
    if !allowEnable && NoneByDefault(deltas) {
      ExpectedStep(s, contract, cached, start, a, b);
    }
  }

  class Machine {
    const p: Platform
    const fipsProc: Option<bool> // the content of /proc/sys/crypto/fips_enabled, if it exists
    var repos: map<Service, RepoFiles>
    var live: Live
    var contract: map<Service, Ent>
    var statusCache: Option<map<Service, bool>>

    constructor (p: Platform, fipsProc: Option<bool>, repos: map<Service, RepoFiles>, live: Live,
        contract: map<Service, Ent>, statusCache: Option<map<Service, bool>>)
      ensures this.p == p && this.fipsProc == fipsProc && this.repos == repos && this.live == live
      ensures this.contract == contract && this.statusCache == statusCache
    {
      this.p, this.fipsProc, this.repos, this.live, this.contract, this.statusCache :=
        p, fipsProc, repos, live, contract, statusCache;
    }

    /** What the status of a service is read from. */
    function Now(): State
      reads this`repos, this`live
    {
      State(repos, live, fipsProc)
    }

    function Files(s: Service): RepoFiles
      reads this`repos
    {
      FilesIn(repos, s)
    }

    function Url(s: Service): string
      reads this`contract
    {
      UrlIn(contract, s)
    }

    predicate ReportedFor(s: Service, url: string)
      reads this`repos, this`live
    {
      Now().Reported(s, url)
    }

    predicate Reported(s: Service)
      reads this`repos, this`live, this`contract
    {
      ReportedFor(s, Url(s))
    }

    /** Livepatch and a FIPS service are not both reported as enabled. */
    ghost predicate Exclusive()
      reads this`repos, this`live, this`contract
    {
      Now().Exclusive(Urls(Url(Fips), Url(FipsUpdates)))
    }

    twostate predicate KeepsExclusion()
      reads this
    {
      Keeps(contract, old(Now()), Now())
    }

    /** The url of the list file is the old one or that of the contract. */
    twostate predicate UrlKept(s: Service)
      reads this
    {
      UrlFrom(old(Files(s)), Files(s), Url(s))
    }

    twostate predicate OnlyFilesOf(s: Service)
      reads this
    {
      SameBut(s, old(repos), repos)
    }

    twostate predicate LiveNotStarted()
      reads this
    {
      Unstarted(old(live), live)
    }

    twostate predicate PolicyShrinks()
      reads this
    {
      Shrinks(old(repos), repos)
    }

    twostate predicate NothingEnabled()
      reads this
    {
      NoneAppears(contract, old(Now()), Now())
    }

    /** What the status cache says; a missing cache or service counts as disabled. */
    predicate Cached(s: Service)
      reads this`statusCache
    {
      statusCache.Some? && s in statusCache.value && statusCache.value[s]
    }

    /** Delta processing believes the cache when directives change, and asks the machine otherwise. */
    predicate Believed(s: Service, d: Delta)
      reads this
    {
      if d.directives && statusCache.Some? then Cached(s) else Reported(s)
    }

    /** The cache calls no disabled repository service enabled. */
    ghost predicate CacheAgrees()
      reads this
    {
      forall s :: Cached(s) && !s.Livepatch? ==> Reported(s)
    }

    /** A new aptURL of a FIPS service is not written on the word of a cache while livepatch is enabled. */
    ghost predicate UrlDeltaSafe(s: Service, d: Delta)
      reads this
    {
      IsFips(s) && d.url != "" ==> !Cached(s) || Files(s).source.None? || !Reported(Livepatch)
    }

    ghost predicate UrlDeltasSafe(deltas: map<Service, Delta>)
      reads this
    {
      forall s :: s in deltas ==> UrlDeltaSafe(s, deltas[s])
    }

    predicate StaticAffordances(s: Service, w: World)
      reads this`repos, this`live, this`contract
    {
      match s
      case Livepatch => !w.container && !Reported(Fips) && !Reported(FipsUpdates)
      case Fips => !w.container && w.allowedOnCloud && !Reported(FipsUpdates)
      case FipsUpdates => !w.container && w.allowedOnCloud
      case _ => true
    }

    predicate Entitled(s: Service)
      reads this`contract
    {
      s in contract && contract[s].entitled
    }

    /** Nothing but, for FIPS, an enabled livepatch is in the way of enabling, spelled out service by service. */
    ghost predicate Affordable(s: Service, w: World)
      reads this`repos, this`live, this`contract
    {
      && s in contract && contract[s].entitled && !Reported(s) && w.applicable
      && (s in {Fips, FipsUpdates, Livepatch} ==> !w.container)
      && (s in {Fips, FipsUpdates} ==> w.allowedOnCloud)
      && (s == Fips ==> !Reported(FipsUpdates))
      && (s == Livepatch ==> !Reported(Fips) && !Reported(FipsUpdates))
    }

    /** Enabling can start; for FIPS, an enabled livepatch may and can be switched off. */
    ghost predicate CanStart(s: Service, w: World)
      reads this`repos, this`live, this`contract
    {
      && Affordable(s, w)
      && (s in {Fips, FipsUpdates} && Reported(Livepatch) ==> !w.blockDisable && w.confirm && w.liveDisable)
    }

    /** It could, if only livepatch did not fail to be switched off. */
    ghost predicate StuckOnLivepatch(s: Service, w: World)
      reads this`repos, this`live, this`contract
    {
      && Affordable(s, w)
      && s in {Fips, FipsUpdates} && Reported(Livepatch) && !w.blockDisable && w.confirm && !w.liveDisable
    }

    /** The repository can be set up and its packages installed. */
    ghost predicate Installable(s: Service, w: World)
      reads this`contract
    {
      s in contract && SetupResultOf(s, contract[s], w.setup) == Done && (contract[s].hasPackages ==> w.install)
    }

    /** Exactly when enabling succeeds. */
    ghost predicate Startable(s: Service, w: World)
      reads this`repos, this`live, this`contract
    {
      && CanStart(s, w)
      && (if s.Livepatch? then (live.installed || w.liveInstall) && w.liveConfig && w.liveEnable
          else (s in {Fips, FipsUpdates} ==> w.preEnable) && Installable(s, w))
    }

    /** A command fails, though nothing was in the way of enabling but that: it ends in an error. */
    ghost predicate StartFails(s: Service, w: World)
      reads this`repos, this`live, this`contract
    {
      if s.Livepatch? then CanStart(s, w) && !live.installed && !w.liveInstall
      else (IsFips(s) ==> w.preEnable) && (StuckOnLivepatch(s, w) || (CanStart(s, w) && !Installable(s, w)))
    }

    /** A completed setup shows in the policy under the aptURL of the contract. */
    ghost predicate ComesUp(s: Service)
      requires s in contract
      reads this`repos, this`contract
    {
      && Strip(Url(s)) == Url(s) && (exists i :: 0 <= i < |contract[s].suites| && Active(contract[s].suites[i], p))
      && (StaysPinned(s, p) || s in {Fips, FipsUpdates} || Files(s).pref != Some(Never))
      && (s in {Fips, FipsUpdates} ==> fipsProc != Some(false))
    }

    /** `ua status` as root: only services found enabled are cached as enabled; some of them show another status. */
    method UpdateStatus(hidden: set<Service>)
      modifies this`statusCache
      ensures forall s :: Cached(s) <==> s !in hidden && Reported(s)
      ensures forall s :: Cached(s) <==> s !in hidden && IsEnabled(Now(), s, Url(s))
      ensures CacheAgrees()
    {
      forall s ensures Reported(s) <==> IsEnabled(Now(), s, Url(s)) {
        StatusIs(Now(), s, Url(s));
      }
      statusCache := Some(map s: Service | s !in hidden :: Reported(s));
    }

    method DisableLivepatch(w: World) returns (r: Outcome)
      modifies this`live
      ensures r == if !old(Reported(Livepatch)) then Refused else if w.liveDisable then Did else Raised
      ensures r == Did ==> live == old(live).(on := false)
      ensures r != Did ==> live == old(live)
    {
      if !Reported(Livepatch) {
        return Refused;
      }
      if !live.installed {
        return Did;
      }
      if !w.liveDisable {
        return Raised;
      }
      live := live.(on := false);
      return Did;
    }

    /** The only incompatible service of the FIPS services is livepatch. */
    method HandleIncompatible(w: World) returns (r: Outcome)
      modifies this`live
      ensures r == Did <==> !old(Reported(Livepatch)) || (!w.blockDisable && w.confirm && w.liveDisable)
      ensures live == if r == Did && old(Reported(Livepatch)) then old(live).(on := false) else old(live)
      ensures r == Did ==> !Reported(Livepatch)
      ensures r == Raised <==> old(Reported(Livepatch)) && !w.blockDisable && w.confirm && !w.liveDisable
    {
      if Reported(Livepatch) {
        if w.blockDisable {
          return Refused;
        }
        if !w.confirm {
          return Refused;
        }
        r := DisableLivepatch(w);
        return;
      }
      return Did;
    }

    /** May switch livepatch off on the way: only when a FIPS service could otherwise be enabled. */
    method CanEnable(s: Service, w: World) returns (r: Outcome)
      modifies this`live
      ensures r == Did <==> old(CanStart(s, w))
      ensures r == Did && s == Fips ==> !old(Reported(FipsUpdates))
      ensures r == Did && s == Livepatch ==> !old(Reported(Fips)) && !old(Reported(FipsUpdates))
      ensures r == Did && s in {Fips, FipsUpdates, Livepatch} ==> !w.container
      ensures r == Did && s in {Fips, FipsUpdates} ==> w.allowedOnCloud
      ensures live == if r == Did && IsFips(s) && old(Reported(Livepatch)) then old(live).(on := false) else old(live)
      ensures r == Did && IsFips(s) ==> !Reported(Livepatch)
      ensures r == Raised <==> old(StuckOnLivepatch(s, w))
      ensures r == Raised ==> IsFips(s) && !Reported(s) && !w.blockDisable && w.confirm && !w.liveDisable
      ensures old(Reported(s)) ==> r == Refused && live == old(live)
    {
      if !Entitled(s) {
        return Refused;
      }
      if Reported(s) {
        return Refused;
      }
      if !StaticAffordances(s, w) || !w.applicable {
        return Refused;
      }
      if IsFips(s) {
        r := HandleIncompatible(w);
        return;
      }
      return Did;
    }

    /** Fails on a missing aptURL; an apt-get update that fails afterwards raises, with the files already changed. */
    method RemoveAptConfig(s: Service, update: bool) returns (r: Outcome)
      modifies this`repos
      ensures Url(s) == "" ==> r == Raised && repos == old(repos)
      ensures Url(s) != "" ==> repos == old(repos)[s := RemovedConfig(old(Files(s)), s, p)]
      ensures Url(s) != "" ==> IsCleanedUp(old(Files(s)), Files(s), s, p)
      ensures Url(s) != "" ==> forall url :: !RepoEnabled(Files(s), url)
      ensures Url(s) != "" ==> forall url :: Shows(repos, url) <==> old(ShowsWithout(repos, s, url))
      ensures PolicyShrinks()
      ensures Url(s) != "" ==> r == if update then Did else Raised
    {
      if Url(s) == "" {
        return Raised;
      }
      var f := Files(s);
      f := f.(authorised := false);
      if AuthOnly(s, p) {
        if f.source.Some? {
          f := f.(source := Some(Uncommented(f.source.value)));
        }
      } else {
        f := f.(source := None);
      }
      var pin := RepoPin(s, p);
      if pin.Some? {
        f := f.(pref := if pin.value == Never then Some(Never) else None);
      }
      repos := repos[s := f];
      RemovedIsCleanedUp(old(Files(s)), s, p);
      forall url ensures !RepoEnabled(f, url) {
        RemovalDisables(old(Files(s)), s, p, url);
      }
      NothingListed(s, old(Now()), Now());
      return if update then Did else Raised;
    }

    method PinForSetup(s: Service)
      modifies this`repos
      ensures repos == old(repos)[s := SetupPin(old(Files(s)), s, p)]
    {
      var f, pin := Files(s), RepoPin(s, p);
      if pin.Some? {
        f := f.(pref := if pin.value == Never then None else pin);
      }
      repos := repos[s := f];
    }

    method InstallRepo(s: Service, ent: Ent, a: SetupAnswers) returns (r: SetupResult)
      requires s in contract && contract[s] == ent && ent.url != "" && s in repos
      modifies this`repos
      ensures r == Installation(a)
      ensures repos == old(repos)[s :=
        if r == PrerequisitesFailed then RemovedConfig(old(repos[s]), s, p)
        else if r == NotAdded then old(repos[s])
        else if r == UpdateFailed then RemovedConfig(AddRepo(old(repos[s]), ent, p), s, p)
        else AddRepo(old(repos[s]), ent, p)]
    {
      if !a.prerequisites {
        var _ := RemoveAptConfig(s, a.update);
        return PrerequisitesFailed;
      }
      if !a.credentials || !a.policy {
        return NotAdded;
      }
      var source := WriteSource(ent, p);
      repos := repos[s := repos[s].(source := Some(source), authorised := true)];
      if !a.gpg {
        return KeyFailed;
      }
      if !a.update {
        var _ := RemoveAptConfig(s, true);
        return UpdateFailed;
      }
      return Done;
    }

    method StartSetup(s: Service, ent: Ent, a: SetupAnswers) returns (r: SetupResult)
      requires s in contract && contract[s] == ent && ent.url != ""
      modifies this`repos
      ensures r == Installation(a)
      ensures repos == old(repos)[s := SetupFiles(old(Files(s)), s, ent, p, r)]
    {
      PinForSetup(s);
      r := InstallRepo(s, ent, a);
    }

    method SetupAptConfig(s: Service, a: SetupAnswers) returns (r: SetupResult)
      modifies this`repos
      ensures s !in contract ==> r == NotStarted && repos == old(repos)
      ensures s in contract ==> r == SetupResultOf(s, contract[s], a)
      ensures s in contract ==>
        repos ==
        if r == NotStarted then old(repos)
        else old(repos)[s := SetupFiles(old(Files(s)), s, contract[s], p, r)]
    {
      if s.Fips? && !a.unhold {
        return NotStarted;
      }
      if s !in contract {
        return NotStarted;
      }
      var ent := contract[s];
      if !ent.hasToken && !a.token {
        return NotStarted;
      }
      if !ent.hasKey || ent.url == "" || ent.suites == [] {
        return NotStarted;
      }
      r := StartSetup(s, ent, a);
    }

    /** A failed installation takes the repository away again. */
    method InstallPackages(s: Service, w: World) returns (r: Outcome)
      modifies this`repos
      ensures r == if w.install then Did else Raised
      ensures w.install ==> repos == old(repos)
      ensures !w.install ==> repos == old(repos) || repos == old(repos)[s := RemovedConfig(old(Files(s)), s, p)]
      ensures !w.install ==> !RepoEnabled(Files(s), Url(s))
      ensures PolicyShrinks()
      ensures OnlyFilesOf(s) && UrlKept(s)
      ensures Url(s) == "" ==> repos == old(repos)
    {
      if w.install {
        return Did;
      }
      var _ := RemoveAptConfig(s, w.cleanupUpdate);
      return Raised;
    }

    /** Setup and installation, once enabling has been found possible. */
    method InstallService(s: Service, w: World) returns (r: Outcome)
      requires !s.Livepatch? && s in contract && !Reported(s)
      modifies this`repos
      ensures OnlyFilesOf(s) && UrlKept(s)
      ensures r == if Installable(s, w) then Did else Raised
      ensures Url(s) == "" ==> repos == old(repos)
      ensures r == Did ==> Files(s) == SetupFiles(old(Files(s)), s, contract[s], p, Done)
      ensures r == Did ==> (Reported(s) <==> old(ComesUp(s)))
      ensures r == Raised && Reported(s) ==>
        SetupResultOf(s, contract[s], w.setup).NotAdded? || SetupResultOf(s, contract[s], w.setup).KeyFailed?
    {
      var setup := SetupAptConfig(s, w.setup);
      SetupOutcome(old(Files(s)), s, contract[s], p, w.setup, Url(s));
      UrlAfterSetup(old(Files(s)), s, contract[s], p, w.setup);
      ShownByOwnFile(s, old(Now()), Now(), Url(s));
      if setup != Done {
        return Raised;
      }
      if contract[s].hasPackages {
        var installed := InstallPackages(s, w);
        if installed != Did {
          ShownByOwnFile(s, old(Now()), Now(), Url(s));
          return Raised;
        }
      }
      return Did;
    }

    method EnableRepo(s: Service, w: World) returns (r: Outcome)
      requires !s.Livepatch?
      modifies this`repos, this`live
      ensures OnlyFilesOf(s) && UrlKept(s)
      ensures live ==
        if old(CanStart(s, w)) && IsFips(s) && w.preEnable && old(Reported(Livepatch)) then old(live).(on := false)
        else old(live)
      ensures r == Did <==> old(Startable(s, w))
      ensures r == Raised <==> old(StartFails(s, w))
      ensures r == Did ==> Files(s) == SetupFiles(old(Files(s)), s, contract[s], p, Done)
      ensures r == Did ==> IsSetUp(old(Files(s)), Files(s), s, contract[s], p)
      ensures r == Did ==> (Reported(s) <==> old(ComesUp(s)))
      ensures r == Refused ==> repos == old(repos)
      // rollback: only rejected credentials or a failed key export can leave a disabled service enabled after an error
      ensures r == Raised && Reported(s) ==>
        s in contract && SetupResultOf(s, contract[s], w.setup) in {NotAdded, KeyFailed}
      ensures IsFips(s) && repos != old(repos) ==> !Reported(Livepatch)
      ensures Url(s) == "" ==> repos == old(repos)
    {
      if IsFips(s) && !w.preEnable {
        return Refused;
      }
      var can := CanEnable(s, w);
      if can != Did {
        return can;
      }
      r := InstallService(s, w);
      if r == Did {
        CompletedIsSetUp(old(Files(s)), s, contract[s], p);
      }
    }

    method SetupLivepatch(directives: bool, token: bool, w: World) returns (r: Outcome)
      requires live.installed
      modifies this`live
      ensures live == if !token || (directives && !w.liveConfig) || (old(live.on) && !w.liveDisable) then old(live)
                      else old(live).(on := w.liveEnable || w.liveStray)
      ensures r == Did <==>
        (directives ==> w.liveConfig) && (token ==> w.liveEnable && (old(live.on) ==> w.liveDisable))
      ensures r != Raised
    {
      if directives && !w.liveConfig {
        return Refused;
      }
      if token {
        if Reported(Livepatch) {
          if !w.liveDisable {
            return Refused;
          }
          live := live.(on := false);
        }
        if !w.liveEnable {
          live := live.(on := w.liveStray);
          return Refused;
        }
        live := live.(on := true);
      }
      return Did;
    }

    method EnableLivepatch(w: World) returns (r: Outcome)
      modifies this`live
      ensures r == Did <==> old(Startable(Livepatch, w))
      ensures r == Raised <==> old(StartFails(Livepatch, w))
      ensures r == Did ==> Reported(Livepatch)
      ensures !old(CanStart(Livepatch, w)) ==> live == old(live)
      ensures r == Raised ==> Reported(Livepatch) ==> old(Reported(Livepatch))
      ensures live != old(live) ==> !Reported(Fips) && !Reported(FipsUpdates)
    {
      var can := CanEnable(Livepatch, w);
      if can != Did {
        return can;
      }
      if !live.installed {
        if !w.liveInstall {
          return Raised;
        }
        live := Live(true, false);
      }
      r := SetupLivepatch(true, true, w);
    }

    method Enable(s: Service, w: World) returns (r: Outcome)
      modifies this`repos, this`live
      ensures OnlyFilesOf(s) && UrlKept(s) && KeepsExclusion()
      ensures r == Did <==> old(Startable(s, w))
      ensures r == Raised <==> old(StartFails(s, w))
      ensures r == Did && s == Fips ==> !old(Reported(FipsUpdates))
      ensures r == Did && s == Livepatch ==> !old(Reported(Fips)) && !old(Reported(FipsUpdates))
      ensures r == Did && s in {Fips, FipsUpdates, Livepatch} ==> !w.container
      ensures r == Did && s in {Fips, FipsUpdates} ==> w.allowedOnCloud
      ensures r == Did && !s.Livepatch? ==>
        && Files(s) == SetupFiles(old(Files(s)), s, contract[s], p, Done)
        && IsSetUp(old(Files(s)), Files(s), s, contract[s], p) && (Reported(s) <==> old(ComesUp(s)))
      ensures s.Livepatch? ==> repos == old(repos) && (r == Did ==> Reported(s))
      ensures !s.Livepatch? || r == Raised ==> Reported(Livepatch) ==> old(Reported(Livepatch))
      ensures !s.Livepatch? ==> LiveNotStarted() && (!IsFips(s) ==> live == old(live))
    {
      if s.Livepatch? {
        r := EnableLivepatch(w);
      } else {
        r := EnableRepo(s, w);
        StepKeeps(s, old(Now()), Now(), contract);
      }
    }

    /** `ua enable` of one service: unless that raises, the status cache is written anew. */
    method PerformEnable(s: Service, w: World, hidden: set<Service>) returns (r: Outcome)
      modifies this`repos, this`live, this`statusCache
      ensures OnlyFilesOf(s) && UrlKept(s) && KeepsExclusion()
      ensures r == Did <==> old(Startable(s, w))
      ensures !s.Livepatch? || r == Raised ==> Reported(Livepatch) ==> old(Reported(Livepatch))
      ensures r == Raised ==> statusCache == old(statusCache)
      ensures r != Raised ==> CacheAgrees() && forall t :: Cached(t) <==> t !in hidden && Reported(t)
    {
      r := Enable(s, w);
      if r != Raised {
        UpdateStatus(hidden);
      }
    }

    method DisableRepo(s: Service, w: World) returns (r: Outcome)
      requires !s.Livepatch?
      modifies this`repos
      ensures OnlyFilesOf(s) && UrlKept(s) && KeepsExclusion() && PolicyShrinks()
      ensures r == Refused <==> (IsFips(s) && !w.preDisable) || !old(Reported(s))
      ensures r != Refused ==> (r == Raised <==> (IsFips(s) && !w.removePackages) || !w.removeUpdate)
      ensures repos == if r == Refused || (IsFips(s) && !w.removePackages) then old(repos)
                       else old(repos)[s := RemovedConfig(old(Files(s)), s, p)]
      ensures r != Refused && !(IsFips(s) && !w.removePackages) ==>
        !RepoEnabled(Files(s), Url(s)) && (Shows(repos, Url(s)) <==> old(ShowsWithout(repos, s, Url(s))))
    {
      if IsFips(s) && !w.preDisable {
        return Refused;
      }
      if !Reported(s) {
        return Refused;
      }
      if IsFips(s) && !w.removePackages {
        return Raised;
      }
      r := RemoveAptConfig(s, w.removeUpdate);
      StepKeeps(s, old(Now()), Now(), contract);
    }

    /** Disables the service unless it is refused or, for FIPS, its packages cannot be removed; it may stay in the
        policy by the list file of another service. */
    method Disable(s: Service, w: World) returns (r: Outcome)
      modifies this`repos, this`live
      ensures OnlyFilesOf(s) && UrlKept(s) && KeepsExclusion() && LiveNotStarted() && NothingEnabled()
      ensures PolicyShrinks()
      ensures r == Did ==> (Reported(s) <==> !s.Livepatch? && old(ShowsWithout(repos, s, Url(s))))
      ensures r == Did && !s.Livepatch? ==> !RepoEnabled(Files(s), Url(s))
      ensures r == Refused <==> (IsFips(s) && !w.preDisable) || !old(Reported(s))
      ensures r != Refused ==> (r == Raised <==> DisableFails(s, w))
      ensures live == if s.Livepatch? && r == Did then old(live).(on := false) else old(live)
      ensures repos == if s.Livepatch? || r == Refused || (IsFips(s) && !w.removePackages) then old(repos)
                       else old(repos)[s := RemovedConfig(old(Files(s)), s, p)]
      ensures r == Raised && Reported(s) ==>
        (s.Livepatch? && !w.liveDisable) || (IsFips(s) && !w.removePackages) || old(ShowsWithout(repos, s, Url(s)))
    {
      if s.Livepatch? {
        r := DisableLivepatch(w);
      } else {
        r := DisableRepo(s, w);
      }
    }

    /** `ua disable` of one service. */
    method PerformDisable(s: Service, w: World, hidden: set<Service>) returns (r: Outcome)
      modifies this`repos, this`live, this`statusCache
      ensures OnlyFilesOf(s) && UrlKept(s) && KeepsExclusion() && LiveNotStarted() && NothingEnabled()
      ensures s.Livepatch? && w.liveDisable ==> !Reported(s)
      ensures r == Raised ==> statusCache == old(statusCache)
      ensures r != Raised ==> CacheAgrees() && forall t :: Cached(t) <==> t !in hidden && Reported(t)
    {
      r := Disable(s, w);
      if r != Raised {
        UpdateStatus(hidden);
      }
    }

    /** A service that is no longer entitled is disabled if it is believed to be enabled and is. */
    method Withdraw(s: Service, d: Delta, w: World) returns (r: Outcome)
      modifies this`repos, this`live
      ensures OnlyFilesOf(s) && UrlKept(s) && KeepsExclusion() && LiveNotStarted() && NothingEnabled()
      ensures s.Livepatch? ==> repos == old(repos)
      ensures r == if old(Believed(s, d) && Reported(s)) && !(IsFips(s) && !w.preDisable) && DisableFails(s, w)
                   then Raised else Did
      ensures r == Did && Reported(s) ==>
        !old(Believed(s, d)) || (IsFips(s) && !w.preDisable) || (!s.Livepatch? && old(ShowsWithout(repos, s, Url(s))))
      ensures !old(Believed(s, d)) ==> repos == old(repos) && live == old(live)
    {
      if Believed(s, d) {
        if Reported(s) {
          var disabled := Disable(s, w);
          if disabled == Raised {
            return Raised;
          }
        }
      }
      return Did;
    }

    /** The part shared by all services. Did: processed; Refused: left to the subclass. */
    method BaseDeltas(s: Service, d: Delta, allowEnable: bool, w: World) returns (r: Outcome)
      modifies this`repos, this`live
      ensures OnlyFilesOf(s) && UrlKept(s) && KeepsExclusion() && (!s.Livepatch? ==> LiveNotStarted())
      ensures !allowEnable || !d.enableByDefault ==> NothingEnabled()
      ensures r == Refused || s.Livepatch? ==> repos == old(repos)
      ensures d.unentitled ==>
        r == if old(Believed(s, d) && Reported(s)) && !(IsFips(s) && !w.preDisable) && DisableFails(s, w)
             then Raised else Did
      ensures !d.unentitled ==> (r == Refused <==>
        !old(StuckOnLivepatch(s, w)) && !(old(CanStart(s, w)) && d.enableByDefault))
      ensures !d.unentitled && r != Refused ==> (r == Raised <==>
        old(StuckOnLivepatch(s, w)) || (allowEnable && old(StartFails(s, w))))
      ensures r == Refused && !IsFips(s) ==> live == old(live)
      ensures !d.unentitled && old(Reported(s)) ==> r == Refused && live == old(live)
      ensures !d.unentitled && !w.confirm && !old(CanStart(s, w)) ==> r == Refused && live == old(live)
      ensures d.unentitled && r == Did && Reported(s) ==>
        !old(Believed(s, d)) || (IsFips(s) && !w.preDisable) || (!s.Livepatch? && old(ShowsWithout(repos, s, Url(s))))
      ensures d.unentitled && !old(Believed(s, d)) ==> repos == old(repos) && live == old(live)
      ensures !d.unentitled && d.enableByDefault && allowEnable && old(Startable(s, w)) ==>
        r == Did && if s.Livepatch? then Reported(s) else Files(s) == SetupFiles(old(Files(s)), s, contract[s], p, Done)
    {
      if d.unentitled {
        r := Withdraw(s, d, w);
        return;
      }
      var can := CanEnable(s, w);
      if can == Raised {
        return Raised;
      }
      if can == Did && d.enableByDefault {
        if allowEnable {
          var enabled := Enable(s, w);
          if enabled == Raised {
            return Raised;
          }
        }
        return Did;
      }
      return Refused;
    }

    ghost function Cleared(f: RepoFiles, s: Service, hadUrl: bool): RepoFiles {
      RemovedConfig(if hadUrl then RepoFiles(None, f.pref, false) else f, s, p)
    }

    /** What a complete rewrite turns the files into. */
    ghost function Rewritten(f: RepoFiles, s: Service, hadUrl: bool): RepoFiles
      requires s in contract
      reads this`contract
    {
      SetupFiles(Cleared(f, s, hadUrl), s, contract[s], p, Done)
    }

    /** A new aptURL that is not applied yet, and every step of the rewrite goes through. */
    ghost predicate Rewrites(s: Service, d: Delta, w: World)
      reads this`repos, this`contract
    {
      && d.url != "" && !d.urlDropped && Files(s).source.Some? && !Applied(Files(s), d.url) && w.removeUpdate
      && s in contract && SetupResultOf(s, contract[s], w.setup) == Done && (d.packages ==> w.install)
    }

    /** The old files go, with the former url first if there was one. */
    method Clear(s: Service, w: World) returns (r: Outcome)
      modifies this`repos
      ensures OnlyFilesOf(s) && UrlKept(s)
      ensures r == if Url(s) != "" && w.removeUpdate then Did else Raised
      ensures Files(s) == if Url(s) != "" then Cleared(old(Files(s)), s, w.hadUrl)
                          else if w.hadUrl then RepoFiles(None, old(Files(s)).pref, false)
                          else old(Files(s))
    {
      if w.hadUrl {
        repos := repos[s := RepoFiles(None, Files(s).pref, false)];
      }
      r := RemoveAptConfig(s, w.removeUpdate);
    }

    /** The old files go and the new ones are set up. */
    method Rewrite(s: Service, w: World) returns (r: Outcome)
      modifies this`repos
      ensures OnlyFilesOf(s) && UrlKept(s)
      ensures r == if s in contract && w.removeUpdate && SetupResultOf(s, contract[s], w.setup) == Done then Did
                   else Raised
      ensures r == Did ==> Files(s) == Rewritten(old(Files(s)), s, w.hadUrl)
    {
      r := Clear(s, w);
      if r == Did {
        ghost var f := Files(s);
        var setup := SetupAptConfig(s, w.setup);
        UrlAfterSetup(f, s, contract[s], p, w.setup);
        UrlFromTwice(old(Files(s)), f, Files(s), Url(s));
        r := if setup == Done then Did else Raised;
      }
    }

    /** Rewriting the apt files of a service for a changed aptURL; a dropped one, or a missing list file, raises. */
    method Reconfigure(s: Service, d: Delta, w: World) returns (r: Outcome)
      modifies this`repos
      ensures OnlyFilesOf(s) && UrlKept(s)
      ensures d.urlDropped ==> r == Raised && repos == old(repos)
      ensures !d.urlDropped && Applied(old(Files(s)), d.url) ==> r == Did && repos == old(repos)
      ensures d.url != "" && old(Files(s).source).None? ==> r == Raised && repos == old(repos)
      ensures !d.urlDropped && old(Files(s).source).Some? && !Applied(old(Files(s)), d.url) ==>
        && r == (if s in contract && w.removeUpdate && SetupResultOf(s, contract[s], w.setup) == Done then Did
                 else Raised)
        && (r == Did ==> Files(s) == Rewritten(old(Files(s)), s, w.hadUrl))
    {
      if d.urlDropped {
        return Raised;
      }
      if d.url == "" {
        return Did;
      }
      if Files(s).source.None? {
        return Raised;
      }
      if UrlApplied(Files(s), d.url) {
        return Did;
      }
      r := Rewrite(s, w);
    }

    method ApplyDirectives(s: Service, d: Delta, w: World) returns (r: Outcome)
      requires !s.Livepatch?
      modifies this`repos
      ensures OnlyFilesOf(s) && UrlKept(s)
      ensures d.url == "" || old(Files(s).source.None?) ==> PolicyShrinks()
      ensures Undisturbed(old(Now()), s, Url(s), d, w) ==> r == Did && repos == old(repos)
      ensures r == if !d.urlDropped && (d.packages ==> w.install) && old(Applied(Files(s), d.url) || Rewrites(s, d, w))
                   then Did else Raised
      ensures r == Did && !Applied(old(Files(s)), d.url) ==>
        s in contract && Files(s) == Rewritten(old(Files(s)), s, w.hadUrl)
    {
      r := Reconfigure(s, d, w);
      assert d.url == "" || old(Applied(Files(s), d.url) || Files(s).source.None?) ==> repos == old(repos);
      if r == Did && d.packages {
        r := InstallPackages(s, w);
      }
    }

    /** Directives are applied to a service that is believed to be enabled. */
    method FollowDirectives(s: Service, d: Delta, w: World) returns (r: Outcome)
      requires !s.Livepatch?
      modifies this`repos
      ensures OnlyFilesOf(s) && UrlKept(s)
      ensures old(UrlDeltaSafe(s, d)) ==> KeepsExclusion()
      ensures OnlyAppears(s, Cached(s), contract, old(Now()), Now())
      ensures Undisturbed(old(Now()), s, Url(s), d, w) ==> r == Did && repos == old(repos)
      ensures old(Believed(s, d)) && r == Did && !Applied(old(Files(s)), d.url) ==>
        s in contract && Files(s) == Rewritten(old(Files(s)), s, w.hadUrl)
      ensures old(Believed(s, d) && Rewrites(s, d, w)) ==> r == Did
      // directives that change are judged by the cache, all else by the machine
      ensures d.directives && statusCache != None && !Cached(s) ==> r == Did && repos == old(repos)
      ensures (!d.directives || statusCache == None) && !old(Reported(s)) ==> r == Did && repos == old(repos)
      ensures d.urlDropped && (if d.directives && statusCache != None then Cached(s) else old(Reported(s))) ==>
        r == Raised
    {
      if !Believed(s, d) {
        return Did;
      }
      r := ApplyDirectives(s, d, w);
      if old(UrlDeltaSafe(s, d)) {
        StepKeeps(s, old(Now()), Now(), contract);
      }
      StepShows(s, old(Now()), Now(), contract, Cached(s));
    }

    /** The aptURL of a service that the cache calls enabled is dropped from its directives. */
    ghost predicate CannotFollow(s: Service, d: Delta)
      reads this`statusCache
    {
      !s.Livepatch? && Cached(s) && d.directives && d.urlDropped && !d.unentitled && !d.enableByDefault
    }

    method RepoDeltas(s: Service, d: Delta, allowEnable: bool, w: World) returns (r: Outcome)
      requires !s.Livepatch?
      modifies this`repos, this`live
      ensures OnlyFilesOf(s) && UrlKept(s) && LiveNotStarted()
      ensures old(UrlDeltaSafe(s, d)) ==> KeepsExclusion()
      ensures !allowEnable ==> OnlyAppears(s, Cached(s), contract, old(Now()), Now())
      ensures Undisturbed(old(Now()), s, Url(s), d, w) ==> r == Did && Now() == old(Now())
      ensures old(Reported(s) && Believed(s, d)) && !d.unentitled && r == Did && !Applied(old(Files(s)), d.url) ==>
        s in contract && Files(s) == Rewritten(old(Files(s)), s, w.hadUrl)
      ensures CannotFollow(s, d) ==> r == Raised
    {
      r := BaseDeltas(s, d, allowEnable, w);
      if r == Refused {
        ghost var refused := Now();
        assert UrlDeltaSafe(s, d) || !old(UrlDeltaSafe(s, d));
        r := FollowDirectives(s, d, w);
        if old(UrlDeltaSafe(s, d)) {
          KeepsTwice(contract, old(Now()), refused, Now());
        }
      }
    }

    method LivepatchDeltas(d: Delta, allowEnable: bool, w: World) returns (r: Outcome)
      modifies this`repos, this`live
      ensures repos == old(repos) && KeepsExclusion()
      ensures !MayStartLivepatch(d, allowEnable) ==> NothingEnabled()
      ensures !d.unentitled && !d.enabledByDefault && old(Reported(Livepatch)) ==>
        && (r == Did <==> (d.liveDirectives ==> w.liveConfig) && (d.token ==> w.liveDisable && w.liveEnable))
        && (d.token && r == Did ==> Reported(Livepatch)) && (!d.token ==> live == old(live))
      ensures !d.unentitled && !(d.enableByDefault && old(CanStart(Livepatch, w))) ==>
        && (d.enabledByDefault ==> (r == Did <==> old(Startable(Livepatch, w))) && (r == Did ==> Reported(Livepatch)))
        && (!d.enabledByDefault && !old(Reported(Livepatch)) ==> r == Did && live == old(live))
    {
      r := BaseDeltas(Livepatch, d, allowEnable, w);
      if r != Refused {
        return;
      }
      if d.enabledByDefault {
        r := EnableLivepatch(w);
        return;
      }
      if !Reported(Livepatch) {
        return Did;
      }
      if d.liveDirectives || d.token {
        r := SetupLivepatch(d.liveDirectives, d.token, w);
        return;
      }
      return Did;
    }

    method Deltas(s: Service, d: Delta, allowEnable: bool, w: World) returns (r: Outcome)
      modifies this`repos, this`live
      ensures OnlyFilesOf(s) && UrlKept(s) && (s.Livepatch? ==> repos == old(repos))
      ensures !s.Livepatch? ==> LiveNotStarted()
      ensures s.Livepatch? && !MayStartLivepatch(d, allowEnable) ==> Reported(Livepatch) ==> old(Reported(Livepatch))
      ensures old(UrlDeltaSafe(s, d)) ==> KeepsExclusion()
      ensures !allowEnable && !d.enabledByDefault ==>
        OnlyAppears(s, Cached(s) && !s.Livepatch?, contract, old(Now()), Now())
      ensures Undisturbed(old(Now()), s, Url(s), d, w) ==> r == Did && Now() == old(Now())
      ensures CannotFollow(s, d) ==> r == Raised
    {
      if s.Livepatch? {
        r := LivepatchDeltas(d, allowEnable, w);
      } else {
        r := RepoDeltas(s, d, allowEnable, w);
      }
    }

    /** One pass of the loop; the ghost parameters say how far it has come. */
    method Visit(s: Service, deltas: map<Service, Delta>, allowEnable: bool, w: World, ghost done: seq<Service>,
                 ghost safe: bool, ghost calm: bool, ghost cached: set<Service>, ghost start: State)
      returns (r: Outcome)
      requires Progress(done, deltas, allowEnable, safe, calm, contract, cached, start, Now())
      requires s !in done && Livepatch !in done && (Cached(s) <==> s in cached)
      requires s in deltas ==>
        (safe ==> UrlDeltaSafe(s, deltas[s])) && (calm ==> Undisturbed(Now(), s, Url(s), deltas[s], w))
      modifies this`repos, this`live
      ensures Progress(done + [s], deltas, allowEnable, safe, calm, contract, cached, start, Now())
      ensures calm ==> r == Did
      ensures s in deltas && CannotFollow(s, deltas[s]) ==> r == Raised
    {
      if s !in deltas {
        VisitedOneMore(done, s, contract, start.repos, repos, repos);
        return Did;
      }
      r := Deltas(s, deltas[s], allowEnable, w);
      ProgressOneMore(s, deltas, allowEnable, done, safe, calm, contract, cached, start, old(Now()), Now());
    }

    /** All services of the new contract with a delta, in order; an error does not stop the loop. */
    method ProcessAll(deltas: map<Service, Delta>, order: seq<Service>, allowEnable: bool, worlds: Service -> World)
      returns (failed: bool)
      requires Distinct(order) && LivepatchLast(order)
      modifies this`repos, this`live
      ensures old(forall s :: s in deltas ==> UrlDeltaSafe(s, deltas[s])) ==> KeepsExclusion()
      ensures UrlsFrom(contract, old(repos), repos)
      ensures !AnyStartsLivepatch(deltas, allowEnable) ==> Reported(Livepatch) ==> old(Reported(Livepatch))
      ensures !allowEnable && NoneByDefault(deltas) ==>
        AllExpected(contract, set t | Cached(t), old(Now()), Now())
      ensures AllUndisturbed(old(Now()), contract, deltas, worlds) ==> !failed && Now() == old(Now())
      ensures (exists s :: s in order && s in deltas && CannotFollow(s, deltas[s])) ==> failed
    {
      failed := false;
      ghost var start, cached := Now(), set t | Cached(t);
      ghost var safe := forall s :: s in deltas ==> UrlDeltaSafe(s, deltas[s]);
      ghost var calm := AllUndisturbed(start, contract, deltas, worlds);
      for i := 0 to |order|
        invariant Progress(order[..i], deltas, allowEnable, safe, calm, contract, cached, start, Now())
        invariant calm ==> !failed
        invariant (exists s :: s in order[..i] && s in deltas && CannotFollow(s, deltas[s])) ==> failed
      {
        TakeOneMore(order, i);
        assert order[i] !in order[..i] && Livepatch !in order[..i];
        var s := order[i];
        var r := Visit(s, deltas, allowEnable, worlds(s), order[..i], safe, calm, cached, start);
        failed := failed || r == Raised;
      }
    }

    /** A contract refresh: the new token replaces the old one, then the deltas are processed. A service that was not
        enabled can come out enabled only if the policy already shows what the new contract looks for, or another
        service's list file names it. */
    method Refresh(next: map<Service, Ent>, deltas: map<Service, Delta>, allowEnable: bool, worlds: Service -> World)
      returns (failed: bool)
      modifies this`repos, this`live, this`contract
      ensures contract == next && UrlsFrom(next, old(repos), repos)
      ensures old(UrlDeltasSafe(deltas)) ==> KeepsExclusion()
      ensures !AnyStartsLivepatch(deltas, allowEnable) ==> Reported(Livepatch) ==> old(Reported(Livepatch))
      ensures deltas == map[] ==> forall t :: Reported(t) <==> old(ReportedFor(t, UrlIn(next, t)))
      ensures !allowEnable && old(CacheAgrees()) && NoneByDefault(deltas) ==>
        forall t :: Reported(t) ==>
          old(Reported(t)) || old(ReportedFor(t, UrlIn(next, t))) || old(SharesUrl(repos, t, next))
      ensures AllUndisturbed(old(Now()), next, deltas, worlds) ==> !failed && Now() == old(Now())
      // one service that cannot follow is enough for an error, wherever it stands
      ensures (exists s :: s in deltas && CannotFollow(s, deltas[s])) ==> failed
    {
      contract := next;
      ClassesInOrder();
      failed := ProcessAll(deltas, CLASSES, allowEnable, worlds);
    }

    method FindEnabled() returns (found: seq<Service>)
      ensures forall s :: s in found <==> Reported(s)
    {
      found := [];
      for i := 0 to |CLASSES|
        invariant forall s :: s in found <==> s in CLASSES[..i] && Reported(s)
      {
        if Reported(CLASSES[i]) {
          found := found + [CLASSES[i]];
        }
      }
      ClassesInOrder();
      assert CLASSES[..|CLASSES|] == CLASSES;
    }

    /** Livepatch is off, or the service's own list file does not show its url. */
    ghost predicate Gone(s: Service)
      reads this`repos, this`live, this`contract
    {
      if s.Livepatch? then !Reported(s) else !RepoEnabled(Files(s), Url(s))
    }

    /** One pass of the loop, over a service that was enabled in the starting state. */
    method DisableOne(s: Service, w: World, ghost start: State) returns (r: Outcome)
      requires Removals(p, start, Now()) && start.Reported(s, Url(s))
      modifies this`repos, this`live
      ensures Removals(p, start, Now()) && OnlyFilesOf(s) && LiveNotStarted()
      ensures r == Raised ==> !Disableable(w)
      ensures r != Raised && !(IsFips(s) && !w.preDisable) ==> Gone(s)
    {
      r := Disable(s, w);
      OneMoreRemoval(s, p, start, old(Now()), Now());
      assert RepoEnabled(FilesIn(repos, s), Url(s)) ==> Shows(repos, Url(s));
    }

    method DisableAll(found: seq<Service>, worlds: Service -> World) returns (r: Outcome)
      requires forall s :: s in found ==> Reported(s)
      modifies this`repos, this`live
      ensures r != Refused && ((forall s :: Disableable(worlds(s))) ==> r == Did)
      ensures Removals(p, old(Now()), Now())
      ensures r == Did ==> forall s :: s in found && !(IsFips(s) && !worlds(s).preDisable) ==> Gone(s)
    {
      for i := 0 to |found|
        invariant Removals(p, old(Now()), Now())
        invariant forall s :: s in found[..i] && !(IsFips(s) && !worlds(s).preDisable) ==> Gone(s)
      {
        assert found[i] in found && old(Reported(found[i]));
        r := DisableOne(found[i], worlds(found[i]), old(Now()));
        if r == Raised {
          return;
        }
      }
      return Did;
    }

    /** `ua detach`: what is found enabled is disabled, class by class; then the server is told and the cached files are
        deleted. An error ends it before that. */
    method Detach(confirm: bool, server: bool, worlds: Service -> World) returns (r: Outcome)
      modifies this
      ensures r == Refused <==> !confirm
      ensures r == Refused ==> repos == old(repos) && live == old(live)
      ensures Removals(p, old(Now()), Now())
      ensures if r == Did then contract == map[] && statusCache == None
              else contract == old(contract) && statusCache == old(statusCache)
      ensures r == Did ==> forall s :: old(Reported(s)) && !(IsFips(s) && !worlds(s).preDisable) ==>
        if s.Livepatch? then !Reported(s) else !RepoEnabled(Files(s), old(Url(s)))
      ensures confirm && server && (forall s :: Disableable(worlds(s))) ==> r == Did
    {
      var found := FindEnabled();
      if !confirm {
        return Refused;
      }
      r := DisableAll(found, worlds);
      if r == Raised || !server {
        return Raised;
      }
      contract, statusCache := map[], None;
      return Did;
    }
  }
}
