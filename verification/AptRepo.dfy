/** The apt files of one repository service, and what `apt-cache policy` makes of them. */
module AptRepo {
  import opened Common

  datatype Service = EsmInfra | EsmApps | Fips | FipsUpdates | Cis | CommonCriteria | Livepatch

  /** Facts about the machine that do not change while it runs. */
  datatype Platform = Platform(trusty: bool, lts: bool, pastEol: bool, allowBeta: bool, updatesEnabled: bool)

  datatype Pin = Never | Priority(n: int)

  /** The sources list file: its url and how many of its deb lines are active or commented out. */
  datatype Source = Source(url: string, active: nat, commented: nat)

  /** The files of one service: sources list, preferences, credentials. */
  datatype RepoFiles = RepoFiles(source: Option<Source>, pref: Option<Pin>, authorised: bool)

  datatype Suite = Suite(forSeries: bool, isUpdates: bool)

  /** An entitlement of the contract; an empty url stands for a missing aptURL. */
  datatype Ent = Ent(entitled: bool, url: string, hasKey: bool, suites: seq<Suite>, hasPackages: bool, hasToken: bool)

  predicate IsActiveEsm(p: Platform) {
    p.lts && (p.trusty || p.pastEol)
  }

  function RepoPin(s: Service, p: Platform): Option<Pin> {
    match s
    case EsmInfra => if IsActiveEsm(p) then Some(Never) else None
    case EsmApps => if p.trusty then None else if p.allowBeta then if p.lts then Some(Never) else None else None
    case Fips => Some(Priority(1001))
    case FipsUpdates => Some(Priority(1001))
    case _ => None
  }

  predicate AuthOnly(s: Service, p: Platform) {
    match s
    case EsmInfra => IsActiveEsm(p)
    case EsmApps => if p.trusty then false else if p.allowBeta then p.lts else false
    case _ => false
  }

  /** The services whose repository stays on disk, pinned away, while they are disabled. */
  ghost predicate StaysPinned(s: Service, p: Platform) {
    || (s == EsmInfra && p.lts && (p.trusty || p.pastEol))
    || (s == EsmApps && p.lts && !p.trusty && p.allowBeta)
  }

  /** Only the credentials are removed exactly for the services that pin their repository away instead. */
  lemma AuthOnlyIffNever(s: Service, p: Platform)
    ensures AuthOnly(s, p) <==> RepoPin(s, p) == Some(Never)
    ensures AuthOnly(s, p) <==> StaysPinned(s, p)
  {
  }

  function Strip(url: string): string {
    if url != "" && url[|url| - 1] == '/' then url[..|url| - 1] else url
  }

  /** The policy lists the url from an active line; a repository without a pin has the default priority. */
  predicate Listed(f: RepoFiles, url: string) {
    f.source.Some? && f.source.value.url == url && f.source.value.active > 0
  }

  /** The files of one service are enough for the policy to show the url: listed, and not pinned to -32768. */
  predicate RepoEnabled(f: RepoFiles, url: string) {
    url != "" && Listed(f, url) && f.pref != Some(Never)
  }

  /** The list file contains the url, in a line commented out or not; an empty url counts as applied. */
  ghost predicate Applied(f: RepoFiles, url: string) {
    url == "" || (f.source != None && f.source.value.active + f.source.value.commented != 0 &&
      Occurs(url, f.source.value.url + "/ubuntu"))
  }

  predicate UrlApplied(f: RepoFiles, url: string): (r: bool)
    ensures r <==> Applied(f, url)
  {
    ContainsOccurs(if f.source.Some? then f.source.value.url + "/ubuntu" else "", url);
    url == "" ||
    (f.source.Some? && f.source.value.active + f.source.value.commented > 0 &&
      Contains(f.source.value.url + "/ubuntu", url))
  }

  predicate Active(s: Suite, p: Platform) {
    s.forSeries && (s.isUpdates ==> p.updatesEnabled)
  }

  ghost function CountActive(suites: seq<Suite>, p: Platform): nat {
    if suites == [] then 0
    else CountActive(suites[..|suites| - 1], p) + if Active(suites[|suites| - 1], p) then 1 else 0
  }

  ghost function CountCommented(suites: seq<Suite>, p: Platform): nat {
    if suites == [] then 0
    else
      var s := suites[|suites| - 1];
      CountCommented(suites[..|suites| - 1], p) + if s.forSeries && !Active(s, p) then 1 else 0
  }

  lemma {:induction false} CountActivePositive(suites: seq<Suite>, p: Platform)
    ensures CountActive(suites, p) > 0 <==> exists i :: 0 <= i < |suites| && Active(suites[i], p)
  {
    if suites == [] {
    } else {
      CountActivePositive(suites[..|suites| - 1], p);
    }
  }

  ghost function AddRepo(f: RepoFiles, ent: Ent, p: Platform): RepoFiles {
    RepoFiles(Some(Source(Strip(ent.url), CountActive(ent.suites, p), CountCommented(ent.suites, p))), f.pref, true)
  }

  function Uncommented(s: Source): Source {
    Source(s.url, s.active + s.commented, 0)
  }

  ghost function RemovedConfig(f: RepoFiles, s: Service, p: Platform): RepoFiles {
    RepoFiles(
      if AuthOnly(s, p) then if f.source.Some? then Some(Uncommented(f.source.value)) else None else None,
      match RepoPin(s, p) { case Some(Never) => Some(Never) case Some(_) => None case None => f.pref },
      false)
  }

  /** A file list after a removal: what stays on disk is uncommented, pinned away and without credentials. */
  ghost predicate IsCleanedUp(before: RepoFiles, after: RepoFiles, s: Service, p: Platform) {
    && !after.authorised
    && if StaysPinned(s, p) then
         && after.pref == Some(Never)
         && (before.source == None ==> after.source == None)
         && forall url, n: nat, m: nat ::
              before.source == Some(Source(url, n, m)) ==> after.source == Some(Source(url, n + m, 0))
       else after.source == None && after.pref == if s in {Fips, FipsUpdates} then None else before.pref
  }

  lemma RemovedIsCleanedUp(f: RepoFiles, s: Service, p: Platform)
    ensures IsCleanedUp(f, RemovedConfig(f, s, p), s, p)
  {
  }

  /** Either way of removing a repository leaves the service's own files without an enabled one, under any url. */
  lemma RemovalDisables(f: RepoFiles, s: Service, p: Platform, url: string)
    ensures !RepoEnabled(RemovedConfig(f, s, p), url)
  {
    AuthOnlyIffNever(s, p);
  }

  /** The outside world during one setup: each flag says that the step goes through. */
  datatype SetupAnswers = SetupAnswers(
    unhold: bool, token: bool, prerequisites: bool, credentials: bool, policy: bool, gpg: bool, update: bool)

  datatype SetupResult = Done | NotStarted | PrerequisitesFailed | NotAdded | KeyFailed | UpdateFailed

  /** What the preferences file becomes before the repository is added. */
  ghost function SetupPin(f: RepoFiles, s: Service, p: Platform): RepoFiles {
    match RepoPin(s, p)
    case Some(Never) => f.(pref := None)
    case Some(Priority(n)) => f.(pref := Some(Priority(n)))
    case None => f
  }

  /** The steps behind the checks of the contract. */
  ghost function Installation(a: SetupAnswers): SetupResult {
    if !a.prerequisites then PrerequisitesFailed
    else if !a.credentials || !a.policy then NotAdded
    else if !a.gpg then KeyFailed
    else if !a.update then UpdateFailed
    else Done
  }

  ghost function SetupResultOf(s: Service, ent: Ent, a: SetupAnswers): SetupResult {
    if (s.Fips? && !a.unhold) || (!ent.hasToken && !a.token) then NotStarted
    else if !ent.hasKey || ent.url == "" || ent.suites == [] then NotStarted
    else Installation(a)
  }

  ghost function SetupFiles(f: RepoFiles, s: Service, ent: Ent, p: Platform, r: SetupResult): RepoFiles {
    match r
    case NotStarted => f
    case PrerequisitesFailed => RemovedConfig(SetupPin(f, s, p), s, p)
    case NotAdded => SetupPin(f, s, p)
    case UpdateFailed => RemovedConfig(AddRepo(SetupPin(f, s, p), ent, p), s, p)
    case _ => AddRepo(SetupPin(f, s, p), ent, p)
  }

  /** A suite of the running series is written as an active line; updates suites only where updates are enabled. */
  ghost predicate HasActiveSuite(suites: seq<Suite>, updatesEnabled: bool) {
    exists i :: 0 <= i < |suites| && suites[i].forSeries && (updatesEnabled || !suites[i].isUpdates)
  }

  lemma SuitesCount(suites: seq<Suite>, p: Platform)
    ensures CountActive(suites, p) > 0 <==> HasActiveSuite(suites, p.updatesEnabled)
  {
    CountActivePositive(suites, p);
    if i :| 0 <= i < |suites| && suites[i].forSeries && (p.updatesEnabled || !suites[i].isUpdates) {
      assert Active(suites[i], p);
    }
  }

  /** A suite of the series is written as some line. */
  lemma {:induction false} SeriesCounts(suites: seq<Suite>, p: Platform)
    ensures CountActive(suites, p) + CountCommented(suites, p) > 0 <==>
      exists i :: 0 <= i < |suites| && suites[i].forSeries
  {
    if suites == [] {
    } else {
      SeriesCounts(suites[..|suites| - 1], p);
    }
  }

  /** The url that a setup writes is that of the contract, without one trailing slash. */
  ghost predicate IsStripped(written: string, url: string) {
    if url != "" && url[|url| - 1] == '/' then written + "/" == url else written == url
  }

  lemma StripIs(url: string)
    ensures IsStripped(Strip(url), url)
  {
  }

  /** The list file written line by line, one deb line per suite of the running series. */
  method WriteSource(ent: Ent, p: Platform) returns (source: Source)
    ensures source == Source(Strip(ent.url), CountActive(ent.suites, p), CountCommented(ent.suites, p))
    ensures IsStripped(source.url, ent.url)
    ensures source.active > 0 <==> HasActiveSuite(ent.suites, p.updatesEnabled)
    ensures source.active + source.commented > 0 <==> exists i :: 0 <= i < |ent.suites| && ent.suites[i].forSeries
  {
    SuitesCount(ent.suites, p);
    SeriesCounts(ent.suites, p);
    StripIs(ent.url);
    var active, commented := 0, 0;
    for i := 0 to |ent.suites|
      invariant active == CountActive(ent.suites[..i], p)
      invariant commented == CountCommented(ent.suites[..i], p)
    {
      assert ent.suites[..i + 1][..i] == ent.suites[..i];
      var suite := ent.suites[i];
      if !suite.forSeries {
        continue;
      }
      if suite.isUpdates && !p.updatesEnabled {
        commented := commented + 1;
      } else {
        active := active + 1;
      }
    }
    assert ent.suites[..|ent.suites|] == ent.suites;
    source := Source(Strip(ent.url), active, commented);
  }

  /** The files after a completed setup: the url without a trailing slash, a line per suite of the series, FIPS pinned
      high, a repository that was pinned away no longer so, and credentials. */
  ghost predicate IsSetUp(before: RepoFiles, after: RepoFiles, s: Service, ent: Ent, p: Platform) {
    && after.authorised && after.source.Some? && IsStripped(after.source.value.url, ent.url)
    && (after.source.value.active > 0 <==> HasActiveSuite(ent.suites, p.updatesEnabled))
    && after.pref == if StaysPinned(s, p) then None else if s in {Fips, FipsUpdates} then Some(Priority(1001))
                     else before.pref
  }

  lemma CompletedIsSetUp(f: RepoFiles, s: Service, ent: Ent, p: Platform)
    ensures IsSetUp(f, SetupFiles(f, s, ent, p, Done), s, ent, p)
  {
    SuitesCount(ent.suites, p);
    StripIs(ent.url);
  }

  /** Setup and rollback, as far as the service's own files go. A failed `apt-get update` or prerequisite leaves them
      without an enabled repository; a completed setup enables it exactly when the url has no trailing slash, a suite
      of the running series is active, and no foreign "never" pin is in the way. */
  lemma SetupOutcome(f: RepoFiles, s: Service, ent: Ent, p: Platform, a: SetupAnswers, url: string)
    ensures var r := SetupResultOf(s, ent, a);
      var g := SetupFiles(f, s, ent, p, r);
      && (r.PrerequisitesFailed? || r.UpdateFailed? ==> !RepoEnabled(g, url))
      && (r.Done? ==>
            (RepoEnabled(g, ent.url) <==>
              && Strip(ent.url) == ent.url && (exists i :: 0 <= i < |ent.suites| && Active(ent.suites[i], p))
              && (RepoPin(s, p) == None ==> f.pref != Some(Never))))
  {
    var r := SetupResultOf(s, ent, a);
    RemovalDisables(SetupPin(f, s, p), s, p, url);
    RemovalDisables(AddRepo(SetupPin(f, s, p), ent, p), s, p, url);
    CountActivePositive(ent.suites, p);
  }

  /** Where the url of a list file comes from when files f have become g: it is the old one or that of the contract.
      Without an aptURL the files stay, or the list file is gone. */
  ghost predicate UrlFrom(f: RepoFiles, g: RepoFiles, aptUrl: string) {
    g.source.Some? ==>
      if aptUrl == "" then g == f
      else g.source.value.url == Strip(aptUrl) || (f.source.Some? && g.source.value.url == f.source.value.url)
  }

  lemma UrlFromTwice(f: RepoFiles, g: RepoFiles, h: RepoFiles, aptUrl: string)
    requires UrlFrom(f, g, aptUrl) && UrlFrom(g, h, aptUrl)
    ensures UrlFrom(f, h, aptUrl)
  {
  }

  lemma UrlAfterSetup(f: RepoFiles, s: Service, ent: Ent, p: Platform, a: SetupAnswers)
    ensures UrlFrom(f, SetupFiles(f, s, ent, p, SetupResultOf(s, ent, a)), ent.url)
  {
  }

  /** Without a rollback: rejected credentials turn disabled files into enabled ones exactly when the service's
      "never" pin was all that kept a still listed repository disabled, as an auth-only removal leaves it. */
  lemma RejectedCredentials(f: RepoFiles, s: Service, ent: Ent, p: Platform, a: SetupAnswers)
    requires SetupResultOf(s, ent, a).NotAdded? && !RepoEnabled(f, ent.url)
    ensures RepoEnabled(SetupFiles(f, s, ent, p, NotAdded), ent.url) <==>
      RepoPin(s, p) != None && f.pref == Some(Never) && Listed(f, ent.url)
  {
    assert ent.url != "";
  }

  /** In particular for a repository that was enabled and then removed by taking away its credentials only. */
  lemma RemovedThenRejected(f: RepoFiles, s: Service, ent: Ent, p: Platform, a: SetupAnswers)
    requires AuthOnly(s, p) && Listed(f, ent.url) && SetupResultOf(s, ent, a).NotAdded?
    ensures !RepoEnabled(RemovedConfig(f, s, p), ent.url)
    ensures RepoEnabled(SetupFiles(RemovedConfig(f, s, p), s, ent, p, NotAdded), ent.url)
  {
    RemovalDisables(f, s, p, ent.url);
    AuthOnlyIffNever(s, p);
    RejectedCredentials(RemovedConfig(f, s, p), s, ent, p, a);
  }
}
