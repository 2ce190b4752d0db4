/** The state that the status of every service is read from, and what one step on it can change. */
module Policy {
  import opened Common
  import opened AptRepo

  datatype Live = Live(installed: bool, on: bool)

  /** The entitlement classes, in the order of their names. */
  const CLASSES: seq<Service> := [CommonCriteria, Cis, EsmApps, EsmInfra, Fips, FipsUpdates, Livepatch]

  ghost function Name(s: Service): string {
    match s
    case CommonCriteria => "cc-eal"
    case Cis => "cis"
    case EsmApps => "esm-" + "apps"
    case EsmInfra => "esm-" + "infra"
    case Fips => "fips"
    case FipsUpdates => "fips" + "-updates"
    case Livepatch => "livepatch"
  }

  ghost predicate LivepatchLast(order: seq<Service>) {
    forall i :: 0 <= i < |order| - 1 ==> !order[i].Livepatch?
  }

  /** The classes are all services, each once, and livepatch is behind all others. */
  lemma ClassesInOrder()
    ensures Distinct(CLASSES) && LivepatchLast(CLASSES) && forall s: Service :: s in CLASSES
  {
    assert CLASSES[0].CommonCriteria? && CLASSES[1].Cis? && CLASSES[2].EsmApps? && CLASSES[3].EsmInfra?;
    assert CLASSES[4].Fips? && CLASSES[5].FipsUpdates? && CLASSES[6].Livepatch?;
    forall s: Service ensures s in CLASSES {
      assert s.CommonCriteria? || s.Cis? || s.EsmApps? || s.EsmInfra? || s.Fips? || s.FipsUpdates? || s.Livepatch?;
    }
  }

  /** That is the order in which the names sort. */
  lemma NamesAscend()
    ensures forall i :: 0 < i < |CLASSES| ==> StrLe(Name(CLASSES[i - 1]), Name(CLASSES[i]))
  {
    StrLePrefix("esm-", "apps", "infra");
    StrLePrefix("fips", "", "-updates");
    assert "fips" + "" == "fips";
  }

  predicate IsFips(s: Service) {
    s.Fips? || s.FipsUpdates?
  }

  function UrlIn(contract: map<Service, Ent>, s: Service): string {
    if s in contract then contract[s].url else ""
  }

  /** The aptURLs by which the two FIPS services are looked up. */
  datatype Urls = Urls(fips: string, updates: string)

  ghost predicate LivepatchEntitled(contract: map<Service, Ent>) {
    Livepatch in contract && contract[Livepatch].entitled
  }

  /** The contract names the given url for the service, or none at all while livepatch is not entitled. */
  ghost predicate FitsFor(contract: map<Service, Ent>, s: Service, url: string) {
    UrlIn(contract, s) == url || (UrlIn(contract, s) == "" && !LivepatchEntitled(contract))
  }

  /** No service but the FIPS services would list the url. */
  ghost predicate Avoids(contract: map<Service, Ent>, url: string) {
    url != "" ==> forall s :: !IsFips(s) ==> Strip(UrlIn(contract, s)) != url
  }

  ghost predicate Fits(contract: map<Service, Ent>, urls: Urls) {
    && FitsFor(contract, Fips, urls.fips) && FitsFor(contract, FipsUpdates, urls.updates)
    && Avoids(contract, urls.fips) && Avoids(contract, urls.updates)
  }

  /** The apt files of all services. */
  type Repos = map<Service, RepoFiles>

  function FilesIn(repos: Repos, s: Service): RepoFiles {
    if s in repos then repos[s] else RepoFiles(None, None, false)
  }

  /** `apt-cache policy` shows the url: some list file has it on an active line, not pinned away. */
  predicate Shows(repos: Repos, url: string) {
    exists t: Service :: RepoEnabled(FilesIn(repos, t), url)
  }

  ghost predicate ShowsWithout(repos: Repos, s: Service, url: string) {
    exists t: Service :: t != s && RepoEnabled(FilesIn(repos, t), url)
  }

  /** No list file but those of the FIPS services names the url. */
  ghost predicate Reserved(repos: Repos, url: string) {
    url != "" ==> forall s :: !IsFips(s) && FilesIn(repos, s).source.Some? ==> FilesIn(repos, s).source.value.url != url
  }

  /** The list file of s names the url, or would after a setup with the given aptURL. */
  ghost predicate Names(repos: Repos, s: Service, aptUrl: string, url: string) {
    var source := FilesIn(repos, s).source;
    (aptUrl != "" && Strip(aptUrl) == url) || (source.Some? && source.value.url == url)
  }

  /** The list file of another service names the url that t is looked up by, or would after a setup. */
  ghost predicate SharesUrl(repos: Repos, t: Service, contract: map<Service, Ent>) {
    exists s: Service :: s != t && Names(repos, s, UrlIn(contract, s), UrlIn(contract, t))
  }

  /** What the status of the services is read from: apt files, livepatch client, and the content of
      /proc/sys/crypto/fips_enabled, if it exists. */
  datatype State = State(repos: Repos, live: Live, fipsProc: Option<bool>) {
    /** application_status is ENABLED, for a contract that names this aptURL: the whole policy is searched for it. */
    predicate Reported(s: Service, url: string) {
      match s
      case Livepatch => live.installed && live.on
      case _ => Shows(repos, url) && (IsFips(s) ==> fipsProc != Some(false))
    }

    /** Livepatch is not enabled together with a FIPS service that is looked up by the given aptURL. */
    ghost predicate Exclusive(urls: Urls) {
      !(Reported(Livepatch, "") && (Reported(Fips, urls.fips) || Reported(FipsUpdates, urls.updates)))
    }

    ghost predicate Safe(urls: Urls) {
      Exclusive(urls) && Reserved(repos, urls.fips) && Reserved(repos, urls.updates)
    }

    /** Processing deltas may leave the service enabled though nothing is enabled by default. */
    ghost predicate Expected(t: Service, contract: map<Service, Ent>, cached: set<Service>) {
      Reported(t, UrlIn(contract, t)) || (t in cached && !t.Livepatch?) || SharesUrl(repos, t, contract)
    }
  }

  /** The service is enabled, read off the files: livepatch is installed and on; any other service's url stands on an
      active line of some list file that is not pinned away, and FIPS has not been switched off in the kernel. */
  ghost predicate IsEnabled(st: State, s: Service, url: string) {
    if s == Livepatch then st.live == Live(true, true)
    else
      && (exists t :: t in st.repos && OnActiveLine(st.repos[t], url))
      && (s in {Fips, FipsUpdates} ==> st.fipsProc in {None, Some(true)})
  }

  ghost predicate OnActiveLine(f: RepoFiles, url: string) {
    && url != "" && f.pref != Some(Never)
    && exists n: nat, m: nat :: n > 0 && f.source == Some(Source(url, n, m))
  }

  lemma EnabledIsOnActiveLine(f: RepoFiles, url: string)
    ensures RepoEnabled(f, url) <==> OnActiveLine(f, url)
  {
    if RepoEnabled(f, url) {
      assert f.source == Some(Source(url, f.source.value.active, f.source.value.commented));
    }
  }

  lemma ShowsIsOnActiveLine(repos: Repos, url: string)
    ensures Shows(repos, url) <==> exists t :: t in repos && OnActiveLine(repos[t], url)
  {
    if Shows(repos, url) {
      var t: Service :| RepoEnabled(FilesIn(repos, t), url);
      EnabledIsOnActiveLine(FilesIn(repos, t), url);
      assert t in repos;
    }
    if t :| t in repos && OnActiveLine(repos[t], url) {
      EnabledIsOnActiveLine(FilesIn(repos, t), url);
    }
  }

  lemma StatusIs(st: State, s: Service, url: string)
    ensures st.Reported(s, url) <==> IsEnabled(st, s, url)
  {
    ShowsIsOnActiveLine(st.repos, url);
    match st.fipsProc {
      case None =>
      case Some(on) =>
        assert on || !on;
    }
  }

  ghost predicate Unstarted(a: Live, b: Live) {
    b == a || b == a.(on := false)
  }

  ghost predicate Shrinks(a: Repos, b: Repos) {
    forall url :: Shows(b, url) ==> Shows(a, url)
  }

  ghost predicate SameBut(s: Service, a: Repos, b: Repos) {
    forall t :: t != s ==> FilesIn(b, t) == FilesIn(a, t)
  }

  /** The url of every list file is the one it had or that of the contract. */
  ghost predicate UrlsFrom(contract: map<Service, Ent>, a: Repos, b: Repos) {
    forall s :: UrlFrom(FilesIn(a, s), FilesIn(b, s), UrlIn(contract, s))
  }

  /** The services visited so far have such files, and all others the old ones. */
  ghost predicate Visited(done: seq<Service>, contract: map<Service, Ent>, a: Repos, b: Repos) {
    forall s ::
      if s in done then UrlFrom(FilesIn(a, s), FilesIn(b, s), UrlIn(contract, s))
      else FilesIn(b, s) == FilesIn(a, s)
  }

  lemma VisitedOneMore(done: seq<Service>, s: Service, contract: map<Service, Ent>, start: Repos, a: Repos, b: Repos)
    requires s !in done && Visited(done, contract, start, a)
    requires SameBut(s, a, b) && UrlFrom(FilesIn(a, s), FilesIn(b, s), UrlIn(contract, s))
    ensures Visited(done + [s], contract, start, b)
  {
  }

  /** From a to b at most the files of s have changed, and livepatch has not been switched on. */
  ghost predicate StepOn(s: Service, a: State, b: State) {
    a.fipsProc == b.fipsProc && Unstarted(a.live, b.live) && SameBut(s, a.repos, b.repos)
  }

  /** No service is reported as enabled that was not before. */
  ghost predicate NoneAppears(contract: map<Service, Ent>, a: State, b: State) {
    forall t :: b.Reported(t, UrlIn(contract, t)) ==> a.Reported(t, UrlIn(contract, t))
  }

  /** Nor any other than s, if it is believed to be enabled, and those that share a url with it. */
  ghost predicate OnlyAppears(s: Service, believed: bool, contract: map<Service, Ent>, a: State, b: State) {
    forall t :: b.Reported(t, UrlIn(contract, t)) ==>
      || a.Reported(t, UrlIn(contract, t))
      || if t == s then believed else Names(a.repos, s, UrlIn(contract, s), UrlIn(contract, t))
  }

  /** From a to b the configuration of some services has been removed, and perhaps livepatch switched off. */
  ghost predicate Removals(p: Platform, a: State, b: State) {
    && a.fipsProc == b.fipsProc && Unstarted(a.live, b.live) && Shrinks(a.repos, b.repos)
    && forall s :: FilesIn(b.repos, s) in {FilesIn(a.repos, s), RemovedConfig(FilesIn(a.repos, s), s, p)}
  }

  lemma OneMoreRemoval(s: Service, p: Platform, start: State, a: State, b: State)
    requires Removals(p, start, a) && StepOn(s, a, b) && Shrinks(a.repos, b.repos)
    requires FilesIn(b.repos, s) in {FilesIn(a.repos, s), RemovedConfig(FilesIn(a.repos, s), s, p)}
    ensures Removals(p, start, b)
  {
    var f := FilesIn(start.repos, s);
    assert RemovedConfig(RemovedConfig(f, s, p), s, p) == RemovedConfig(f, s, p);
  }

  /** Whatever aptURLs the FIPS services are looked up by: the exclusion stays where it held before, as long as the
      contract fits those urls. */
  ghost predicate Keeps(contract: map<Service, Ent>, a: State, b: State) {
    forall urls: Urls :: Fits(contract, urls) && a.Safe(urls) ==> b.Safe(urls)
  }

  lemma KeepsTwice(contract: map<Service, Ent>, a: State, b: State, c: State)
    requires Keeps(contract, a, b) && Keeps(contract, b, c)
    ensures Keeps(contract, a, c)
  {
  }

  lemma StaysReserved(s: Service, a: State, b: State, contract: map<Service, Ent>, url: string)
    requires StepOn(s, a, b) && UrlFrom(FilesIn(a.repos, s), FilesIn(b.repos, s), UrlIn(contract, s))
    requires Reserved(a.repos, url) && Avoids(contract, url)
    ensures Reserved(b.repos, url) && (Shows(b.repos, url) && !IsFips(s) ==> Shows(a.repos, url))
  {
    if Shows(b.repos, url) && !IsFips(s) {
      var t: Service :| RepoEnabled(FilesIn(b.repos, t), url);
      assert RepoEnabled(FilesIn(a.repos, t), url);
    }
  }

  /** A step on the files of one service keeps the exclusion; for a FIPS service it must find livepatch off, or the
      service enabled, or list nothing more. */
  lemma StepKeeps(s: Service, a: State, b: State, contract: map<Service, Ent>)
    requires !s.Livepatch? && StepOn(s, a, b) && UrlFrom(FilesIn(a.repos, s), FilesIn(b.repos, s), UrlIn(contract, s))
    requires IsFips(s) ==> !b.Reported(Livepatch, "") || a.Reported(s, UrlIn(contract, s)) || Shrinks(a.repos, b.repos)
    ensures Keeps(contract, a, b)
  {
    forall urls: Urls | Fits(contract, urls) && a.Safe(urls) ensures b.Safe(urls) {
      StaysReserved(s, a, b, contract, urls.fips);
      StaysReserved(s, a, b, contract, urls.updates);
    }
  }

  /** Without an active line of its own, a service is in the policy exactly if another one's list file shows it. */
  lemma NothingListed(s: Service, a: State, b: State)
    requires StepOn(s, a, b) && forall url :: !RepoEnabled(FilesIn(b.repos, s), url)
    ensures Shrinks(a.repos, b.repos) && forall url :: Shows(b.repos, url) <==> ShowsWithout(a.repos, s, url)
  {
    forall url ensures Shows(b.repos, url) <==> ShowsWithout(a.repos, s, url) {
      if Shows(b.repos, url) {
        var t: Service :| RepoEnabled(FilesIn(b.repos, t), url);
        assert RepoEnabled(FilesIn(a.repos, t), url);
      }
      if ShowsWithout(a.repos, s, url) {
        var t: Service :| t != s && RepoEnabled(FilesIn(a.repos, t), url);
        assert RepoEnabled(FilesIn(b.repos, t), url);
      }
    }
  }

  /** What brings a disabled service into the policy is its own list file, as long as no other one changes. */
  lemma ShownByOwnFile(s: Service, a: State, b: State, url: string)
    requires !s.Livepatch? && StepOn(s, a, b) && !a.Reported(s, url)
    ensures b.Reported(s, url) <==> RepoEnabled(FilesIn(b.repos, s), url) && (IsFips(s) ==> b.fipsProc != Some(false))
  {
    if b.Reported(s, url) {
      var t: Service :| RepoEnabled(FilesIn(b.repos, t), url);
      assert t != s ==> RepoEnabled(FilesIn(a.repos, t), url);
    }
  }

  /** What such a step makes appear as enabled is the service itself, or shares a url with it. */
  lemma StepShows(s: Service, a: State, b: State, contract: map<Service, Ent>, believed: bool)
    requires StepOn(s, a, b) && UrlFrom(FilesIn(a.repos, s), FilesIn(b.repos, s), UrlIn(contract, s))
    requires b.Reported(s, UrlIn(contract, s)) ==> a.Reported(s, UrlIn(contract, s)) || believed
    ensures OnlyAppears(s, believed, contract, a, b)
  {
    forall t | b.Reported(t, UrlIn(contract, t)) && t != s
      ensures a.Reported(t, UrlIn(contract, t)) || Names(a.repos, s, UrlIn(contract, s), UrlIn(contract, t))
    {
      if !t.Livepatch? {
        var u: Service :| RepoEnabled(FilesIn(b.repos, u), UrlIn(contract, t));
        assert u != s ==> RepoEnabled(FilesIn(a.repos, u), UrlIn(contract, t));
      }
    }
  }

  ghost predicate AllExpected(contract: map<Service, Ent>, cached: set<Service>, start: State, now: State) {
    forall t :: now.Reported(t, UrlIn(contract, t)) ==> start.Expected(t, contract, cached)
  }

  /** One more step of processing: what is enabled stays among the expected services. */
  lemma ExpectedStep(s: Service, contract: map<Service, Ent>, cached: set<Service>, start: State, a: State, b: State)
    requires FilesIn(a.repos, s) == FilesIn(start.repos, s)
    requires AllExpected(contract, cached, start, a) && OnlyAppears(s, s in cached && !s.Livepatch?, contract, a, b)
    ensures AllExpected(contract, cached, start, b)
  {
    forall t | b.Reported(t, UrlIn(contract, t)) ensures start.Expected(t, contract, cached) {
      if t != s && Names(a.repos, s, UrlIn(contract, s), UrlIn(contract, t)) {
        assert Names(start.repos, s, UrlIn(contract, s), UrlIn(contract, t));
      }
    }
  }
}
