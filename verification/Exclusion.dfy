/** Livepatch and FIPS exclude each other over whole runs of commands, and when they do not. */
module Exclusion {
  import opened Common
  import opened AptRepo
  import opened Policy
  import opened Services

  datatype Step =
    | EnableStep(service: Service, world: World, hidden: set<Service>)
    | DisableStep(service: Service, world: World, hidden: set<Service>)
    | RefreshStep(next: map<Service, Ent>, deltas: map<Service, Delta>, allowEnable: bool, worlds: Service -> World)
    | StatusStep(hidden: set<Service>)
    | DetachStep(confirm: bool, server: bool, answers: Service -> World)

  /** What is known of a run so far: the aptURL by which each FIPS service is looked up, the urls that list files of
      FIPS services and of others may name, whether livepatch is sure to be off, and whether no FIPS service is cached
      as enabled while it is on. */
  datatype History = History(urls: Urls, fips: set<string>, others: set<string>, off: bool, settled: bool)

  /** The urls that setups of the FIPS services, or of the others, would write. */
  ghost function Written(contract: map<Service, Ent>, fips: bool): set<string> {
    set s: Service | IsFips(s) == fips && UrlIn(contract, s) != "" :: Strip(UrlIn(contract, s))
  }

  /** A contract without an aptURL for the service only counts as a change of it while livepatch is entitled. */
  ghost function LookedUpBy(url: string, contract: map<Service, Ent>, s: Service): string {
    if UrlIn(contract, s) == "" && !LivepatchEntitled(contract) then url else UrlIn(contract, s)
  }

  /** Nothing stands in the way of this detach. */
  ghost predicate DetachesCleanly(step: Step)
    requires step.DetachStep?
  {
    step.confirm && step.server && forall s :: Disableable(step.answers(s))
  }

  ghost function After(h: History, step: Step): History {
    match step
    case RefreshStep(next, deltas, allow, _) =>
      History(Urls(LookedUpBy(h.urls.fips, next, Fips), LookedUpBy(h.urls.updates, next, FipsUpdates)),
        h.fips + Written(next, true), h.others + Written(next, false),
        h.off && !AnyStartsLivepatch(deltas, allow), h.settled && !AnyStartsLivepatch(deltas, allow))
    case EnableStep(s, _, _) => h.(off := h.off && !s.Livepatch?)
    case DisableStep(s, w, _) => h.(off := h.off || (s.Livepatch? && w.liveDisable))
    case StatusStep(_) => h.(settled := true)
    case DetachStep(_, _, _) =>
      h.(off := h.off || DetachesCleanly(step), settled := h.settled || DetachesCleanly(step))
  }

  /** The url is the current one, or none, or one that no other service's list file can name, nor any list file at all
      unless livepatch is sure to be off. */
  ghost predicate MayName(h: History, url: string, current: string) {
    url == "" || url == current || (url !in h.others && (url in h.fips ==> h.off))
  }

  ghost predicate CarriesFipsUrl(deltas: map<Service, Delta>) {
    exists s :: s in deltas && IsFips(s) && deltas[s].url != ""
  }

  /** A refresh may change the aptURL of a FIPS service any number of times, but not to one that another service is
      named by, nor, while livepatch may be on, back to a former one; and a delta may carry it unless a cache that
      calls FIPS enabled can meet an enabled livepatch. */
  ghost predicate Allowed(h: History, step: Step) {
    step.RefreshStep? ==>
      && MayName(h, UrlIn(step.next, Fips), h.urls.fips)
      && MayName(h, UrlIn(step.next, FipsUpdates), h.urls.updates)
      && Avoids(step.next, After(h, step).urls.fips) && Avoids(step.next, After(h, step).urls.updates)
      && (CarriesFipsUrl(step.deltas) ==> h.settled || h.off || h.fips == {})
  }

  ghost predicate AllAllowed(h: History, steps: seq<Step>)
    decreases |steps|
  {
    steps != [] ==> Allowed(h, steps[0]) && AllAllowed(After(h, steps[0]), steps[1..])
  }

  ghost function Known(h: History, s: Service): set<string> {
    if IsFips(s) then h.fips else h.others
  }

  /** The list files, and those the contract would write, name known urls only. */
  ghost predicate Covers(h: History, repos: Repos, contract: map<Service, Ent>) {
    && (forall s :: FilesIn(repos, s).source.Some? ==> FilesIn(repos, s).source.value.url in Known(h, s))
    && (forall s :: UrlIn(contract, s) != "" ==> Strip(UrlIn(contract, s)) in Known(h, s))
  }

  /** The machine is as the history says. */
  ghost predicate Describes(h: History, m: Machine)
    reads m
  {
    && m.Now().Safe(h.urls) && Fits(m.contract, h.urls) && Covers(h, m.repos, m.contract)
    && (m.Reported(Livepatch) ==> !h.off && (h.settled ==> !m.Cached(Fips) && !m.Cached(FipsUpdates)))
  }

  /** A machine that was never attached fits an empty history. */
  lemma UnattachedIsDescribed(m: Machine)
    requires m.repos == map[] && m.contract == map[] && m.statusCache == None
    ensures Describes(History(Urls("", ""), {}, {}, !m.Reported(Livepatch), true), m)
  {
  }

  lemma DescribedIsExclusive(h: History, m: Machine)
    requires Describes(h, m)
    ensures m.Exclusive()
  {
  }

  /** No url that is named for the first time is ruled out, unless another service goes by it. */
  lemma FirstNamesAreAllowed(h: History, next: map<Service, Ent>, allow: bool, worlds: Service -> World)
    requires forall t :: t in next && t in {Fips, FipsUpdates} ==> next[t].url !in h.fips + h.others
    requires || LivepatchEntitled(next)
             || (Fips in next && FipsUpdates in next && next[Fips].url != "" && next[FipsUpdates].url != "")
    requires forall s, t :: s in next && t in next && s !in {Fips, FipsUpdates} && t in {Fips, FipsUpdates} ==>
      next[t].url == "" || (next[s].url != next[t].url && next[s].url != next[t].url + "/")
    ensures Allowed(h, RefreshStep(next, map[], allow, worlds))
  {
    forall s, t | !IsFips(s) && IsFips(t) && UrlIn(next, t) != "" ensures Strip(UrlIn(next, s)) != UrlIn(next, t) {
      if s in next {
        StripIs(next[s].url);
      }
    }
  }

  /** Nor is a refresh to the contract at hand, without deltas or with ones that do not carry the url of FIPS. */
  lemma SameContractIsAllowed(h: History, m: Machine, deltas: map<Service, Delta>, allow: bool,
                              worlds: Service -> World)
    requires Describes(h, m) && !CarriesFipsUrl(deltas)
    ensures Allowed(h, RefreshStep(m.contract, deltas, allow, worlds))
  {
  }

  lemma NotShown(h: History, repos: Repos, contract: map<Service, Ent>, url: string)
    requires Covers(h, repos, contract) && url !in h.others
    ensures Reserved(repos, url) && (url !in h.fips ==> !Shows(repos, url))
  {
  }

  /** Whatever a refresh may name the FIPS services by, no list file makes them appear under it beside livepatch. */
  lemma SafeUnderNewNames(h: History, st: State, contract: map<Service, Ent>, step: Step)
    requires st.Safe(h.urls) && Covers(h, st.repos, contract) && (st.Reported(Livepatch, "") ==> !h.off)
    requires step.RefreshStep? && Allowed(h, step)
    ensures st.Safe(After(h, step).urls) && Fits(step.next, After(h, step).urls)
  {
    var urls := After(h, step).urls;
    assert !Shows(st.repos, "");
    if urls.fips != h.urls.fips && urls.fips != "" {
      NotShown(h, st.repos, contract, urls.fips);
    }
    if urls.updates != h.urls.updates && urls.updates != "" {
      NotShown(h, st.repos, contract, urls.updates);
    }
  }

  lemma StillCovers(h: History, a: Repos, b: Repos, contract: map<Service, Ent>)
    requires Covers(h, a, contract) && UrlsFrom(contract, a, b)
    ensures Covers(h, b, contract)
  {
  }

  lemma RemovalsKeep(h: History, a: State, b: State, contract: map<Service, Ent>, p: Platform)
    requires a.Safe(h.urls) && Covers(h, a.repos, contract)
    requires Removals(p, a, b)
    ensures b.Safe(h.urls) && Covers(h, b.repos, contract) && Covers(h, b.repos, map[])
  {
    forall s | FilesIn(b.repos, s).source.Some?
      ensures FilesIn(a.repos, s).source.Some?
      ensures FilesIn(b.repos, s).source.value.url == FilesIn(a.repos, s).source.value.url
    {
    }
  }

  method PerformRefresh(m: Machine, step: Step, ghost h: History)
    requires step.RefreshStep? && Describes(h, m) && Allowed(h, step)
    modifies m
    ensures Describes(After(h, step), m)
  {
    SafeUnderNewNames(h, m.Now(), m.contract, step);
    assert m.UrlDeltasSafe(step.deltas);
    var _ := m.Refresh(step.next, step.deltas, step.allowEnable, step.worlds);
    StillCovers(After(h, step), old(m.repos), m.repos, m.contract);
  }

  method PerformDetach(m: Machine, step: Step, ghost h: History)
    requires step.DetachStep? && Describes(h, m)
    modifies m
    ensures Describes(After(h, step), m)
  {
    var _ := m.Detach(step.confirm, step.server, step.answers);
    RemovalsKeep(h, old(m.Now()), m.Now(), old(m.contract), m.p);
  }

  method Perform(m: Machine, step: Step, ghost h: History)
    requires Describes(h, m) && Allowed(h, step)
    modifies m
    ensures Describes(After(h, step), m)
  {
    match step {
      case EnableStep(s, w, hidden) =>
        var _ := m.PerformEnable(s, w, hidden);
      case DisableStep(s, w, hidden) =>
        var _ := m.PerformDisable(s, w, hidden);
      case RefreshStep(_, _, _, _) =>
        PerformRefresh(m, step, h);
      case StatusStep(hidden) =>
        DescribedIsExclusive(h, m);
        m.UpdateStatus(hidden);
      case DetachStep(confirm, server, answers) =>
        PerformDetach(m, step, h);
    }
  }

  /** No run of enable, disable, refresh, status and detach steps, attaching included, makes livepatch and a FIPS
      service enabled at the same time, though the contract may name FIPS by ever new urls, and by
      former ones until livepatch is enabled. */
  method Run(m: Machine, steps: seq<Step>, ghost h: History)
    requires Describes(h, m) && AllAllowed(h, steps)
    modifies m
    ensures m.Exclusive()
  {
    ghost var now := h;
    for i := 0 to |steps|
      invariant Describes(now, m) && AllAllowed(now, steps[i..])
    {
      Perform(m, steps[i], now);
      now := After(now, steps[i]);
      assert steps[i..][1..] == steps[i + 1..];
    }
    DescribedIsExclusive(now, m);
  }

  /** Under a contract that finds neither FIPS service by its url, livepatch can be enabled, whatever is installed. */
  method EnableBehindUrl(m: Machine, away: map<Service, Ent>, w: World)
    requires !m.Reported(Livepatch) && m.live.installed && LivepatchEntitled(away)
    requires !m.ReportedFor(Fips, UrlIn(away, Fips)) && !m.ReportedFor(FipsUpdates, UrlIn(away, FipsUpdates))
    requires !w.container && w.applicable && w.liveConfig && w.liveEnable
    modifies m
    ensures m.contract == away && m.repos == old(m.repos) && m.Reported(Livepatch)
  {
    var _ := m.Refresh(away, map[], false, _ => w);
    assert !m.Reported(Fips) && !m.Reported(FipsUpdates);
    assert m.Startable(Livepatch, w);
    var _ := m.Enable(Livepatch, w);
  }

  /** A former url is not to be named again. From a machine with FIPS alone enabled, by its own list file, any contract
      that entitles livepatch and does not find FIPS by its url ends in both: a refresh to it hides FIPS, livepatch is
      enabled, and a refresh back, as a delta for FIPS, shows FIPS again. */
  method UrlDriftBreaksExclusion(m: Machine, away: map<Service, Ent>, back: Delta, w: World)
    requires m.Reported(Fips) && RepoEnabled(m.Files(Fips), m.Url(Fips)) && !m.Reported(Livepatch) && m.live.installed
    requires LivepatchEntitled(away) && !m.ReportedFor(Fips, UrlIn(away, Fips))
    requires !m.ReportedFor(FipsUpdates, UrlIn(away, FipsUpdates))
    requires !w.container && w.applicable && w.liveConfig && w.liveEnable && w.install
    requires !back.unentitled && !back.urlDropped && back.url == m.Url(Fips)
    modifies m
    ensures m.contract == old(m.contract) && !m.Exclusive()
  {
    var contract := m.contract;
    EnableBehindUrl(m, away, w);
    ContainsItself(back.url, "/ubuntu");
    assert Undisturbed(m.Now(), Fips, back.url, back, w);
    var _ := m.Refresh(contract, map[Fips := back], false, _ => w);
  }

  /** Nor is it enough to ask that of contracts that entitle livepatch: FIPS enabled under another url, whether or not
      livepatch is entitled there, is hidden by the refresh back, livepatch is enabled, and the other contract shows
      FIPS again. */
  method UrlDetourBreaksExclusion(m: Machine, away: map<Service, Ent>, w: World)
    requires !m.Reported(Livepatch) && m.live.installed && LivepatchEntitled(m.contract) && m.fipsProc != Some(false)
    requires !m.Reported(FipsUpdates) && !m.ReportedFor(FipsUpdates, UrlIn(away, FipsUpdates))
    requires Fips in away && away[Fips].entitled && away[Fips].url !in {m.Url(Fips), m.Url(FipsUpdates)}
    requires !m.ReportedFor(Fips, away[Fips].url) && !ShowsWithout(m.repos, Fips, m.Url(Fips))
    requires SetupResultOf(Fips, away[Fips], w.setup) == Done && Strip(away[Fips].url) == away[Fips].url
    requires exists i :: 0 <= i < |away[Fips].suites| && Active(away[Fips].suites[i], m.p)
    requires !w.container && w.allowedOnCloud && w.applicable && w.preEnable && w.install
    requires w.liveConfig && w.liveEnable
    modifies m
    ensures m.contract == away && !m.Exclusive()
  {
    var contract := m.contract;
    var _ := m.Refresh(away, map[], false, _ => w);
    assert m.Startable(Fips, w) && m.ComesUp(Fips);
    var _ := m.Enable(Fips, w);
    assert m.Reported(Fips) && !m.Reported(Livepatch);
    EnableBehindUrl(m, contract, w);
    var _ := m.Refresh(away, map[], false, _ => w);
  }

  /** Nor may another service be named by the url of FIPS: enabling it shows FIPS beside an enabled livepatch, and
      nobody is asked. */
  method SharedUrlBreaksExclusion(m: Machine, s: Service, w: World)
    requires !IsFips(s) && !s.Livepatch? && m.Reported(Livepatch) && m.fipsProc != Some(false)
    requires m.Startable(s, w) && m.ComesUp(s) && m.Url(s) == m.Url(Fips)
    modifies m
    ensures m.contract == old(m.contract) && !m.Exclusive()
  {
    var _ := m.Enable(s, w);
  }

  /** And a delta with a url does harm when a stale cache calls FIPS enabled and its list file does not name that url:
      livepatch is enabled, nobody confirms to switch it off, and the delta of the refresh sets FIPS up all the same. */
  method StaleCacheBreaksExclusion(m: Machine, d: Delta, w: World)
    requires m.Reported(Livepatch) && m.fipsProc != Some(false)
    requires m.Cached(Fips) && d.directives && !d.unentitled && !w.confirm && m.Rewrites(Fips, d, w)
    requires Strip(m.Url(Fips)) == m.Url(Fips)
    requires exists i :: 0 <= i < |m.contract[Fips].suites| && Active(m.contract[Fips].suites[i], m.p)
    modifies m
    ensures !m.Exclusive()
  {
    SetupOutcome(m.Cleared(m.Files(Fips), Fips, w.hadUrl), Fips, m.contract[Fips], m.p, w.setup, "");
    // the two halves of RepoDeltas
    var base := m.BaseDeltas(Fips, d, false, w);
    assert base == Refused;
    var _ := m.FollowDirectives(Fips, d, w);
    assert RepoEnabled(m.Files(Fips), m.Url(Fips));
  }

  /** The policy may already show what the next contract looks for: then a refresh that only changes the aptURL, with
      an agreeing cache and nothing to enable by default, turns disabled into enabled, even FIPS beside livepatch. */
  method RevealedByUrl(m: Machine, s: Service, next: map<Service, Ent>, w: World)
    requires !m.Reported(s) && m.ReportedFor(s, UrlIn(next, s))
    modifies m
    ensures m.Reported(s) && m.repos == old(m.repos) && m.live == old(m.live)
    ensures IsFips(s) && old(m.Reported(Livepatch)) ==> !m.Exclusive()
  {
    var _ := m.Refresh(next, map[], false, _ => w);
  }

  lemma ContainsItself(text: string, more: string)
    ensures Occurs(text, text + more)
  {
    assert text + more == "" + text + more;
  }
}
