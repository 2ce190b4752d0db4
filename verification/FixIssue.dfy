/** `ua fix` from the server's answers to the verdict: affected packages, released versions, upgrades. */
module FixIssue {
  import opened Common
  import opened Usn
  import opened UsnMerge
  import opened FixStatus
  import opened FixPlan
  import opened FixVerdict
  import opened Fix

  /** A CVE: the status of each source package, and the notices it names. */
  datatype CveRecord = CveRecord(statuses: map<string, PkgStatus>, notices: seq<string>)

  /** A USN: its packages for this series, and the CVEs it names. */
  datatype UsnRecord = UsnRecord(packages: seq<Package>, cves: seq<string>)

  /** A run breaks off when a notice cannot be regrouped or lacks what a fix needs; otherwise there is an outcome. */
  datatype Ending = BadMetadata | Ended(outcome: Outcome)

  ghost predicate Regroups(usn: UsnRecord) {
    Regroup(usn.packages).error.None?
  }

  ghost function Groups(usn: UsnRecord): Grouped {
    Regroup(usn.packages).groups
  }

  ghost predicate AllRegroup(usns: seq<UsnRecord>) {
    forall i :: 0 <= i < |usns| ==> Regroups(usns[i])
  }

  ghost function Regrouped(usns: seq<UsnRecord>): seq<Grouped> {
    seq(|usns|, i requires 0 <= i < |usns| => Groups(usns[i]))
  }

  ghost predicate IsAffected(statuses: map<string, PkgStatus>, installed: Inventory, src: string) {
    src in statuses && src in installed && statuses[src].status != "not-affected"
  }

  /** Each installed binary of the source has a public fix, and is at or above every version that any of the notices
      publishes for it, or has been upgraded by apt. */
  ghost predicate Remedied(le: VersionOrder, installed: Inventory, notices: seq<Grouped>, beta: map<string, bool>,
                           events: seq<Event>, src: string) {
    forall b :: src in installed && b in installed[src] ==>
      && (exists i :: 0 <= i < |notices| && Publishes(notices[i], beta, src, b))
      && ((exists e :: e in events && e.Installs(b)) ||
          forall i :: 0 <= i < |notices| && Publishes(notices[i], beta, src, b) ==>
            le(notices[i][src][b].version, installed[src][b]))
  }

  /** What the verdict says of the merged versions, said of the notices themselves. */
  lemma FixedIsRemedied(le: VersionOrder, installed: Inventory, notices: seq<Grouped>, beta: map<string, bool>,
                        merged: Grouped, affected: map<string, PkgStatus>, events: seq<Event>, src: string)
    requires forall s, b :: Lookup(merged, s, b) == Best(le, notices, beta, s, b)
    requires FullyFixed(le, installed, merged, affected, events) && src in affected
    ensures Remedied(le, installed, notices, beta, events, src)
  {
    forall b | src in installed && b in installed[src]
      ensures exists i :: 0 <= i < |notices| && Publishes(notices[i], beta, src, b)
      ensures (exists e :: e in events && e.Installs(b)) ||
        forall i :: 0 <= i < |notices| && Publishes(notices[i], beta, src, b) ==>
          le(notices[i][src][b].version, installed[src][b])
    {
      assert Lookup(merged, src, b) == Some(SourcePackages(merged, src)[b]);
      BestIsPublished(le, notices, beta, src, b);
    }
  }

  /** The first read of a notice's packages, which is the only one here. */
  method ReadNotice(usn: UsnRecord) returns (groups: Option<Grouped>)
    ensures groups == if Regroups(usn) then Some(Groups(usn)) else None
  {
    var notice := new Notice(usn.packages);
    var read := notice.ReleasePackages();
    groups := if read.Success? then Some(read.value) else None;
  }

  method RegroupAll(usns: seq<UsnRecord>) returns (groups: Option<seq<Grouped>>)
    ensures groups == if AllRegroup(usns) then Some(Regrouped(usns)) else None
  {
    var done: seq<Grouped> := [];
    for i := 0 to |usns|
      invariant |done| == i
      invariant forall k :: 0 <= k < i ==> Regroups(usns[k]) && done[k] == Groups(usns[k])
    {
      var read := ReadNotice(usns[i]);
      if read.None? {
        return None;
      }
      done := done + [read.value];
    }
    assert done == Regrouped(usns);
    return Some(done);
  }

  /** The tail both paths share: merge what the notices publish, then prompt for the affected packages. */
  method MergeAndPrompt(le: VersionOrder, affected: map<string, PkgStatus>, installed: Inventory,
      notices: seq<Grouped>, beta: map<string, bool>, answers: Pocket -> Answers, reboot: bool)
    returns (outcome: Outcome, events: seq<Event>)
    requires affected.Keys <= installed.Keys
    ensures outcome.NothingAffected? <==> affected == map[]
    ensures outcome.Verdict? && outcome.resolved ==>
      outcome.unfixed == [] && forall src :: src in affected ==> Remedied(le, installed, notices, beta, events, src)
    ensures Resolved in events <==> outcome.Verdict? && outcome.resolved
  {
    var merged := MergeReleased(le, notices, beta);
    ghost var final;
    outcome, events, final := PromptForAffectedPackages(le, affected, installed, merged, answers, reboot);
    if outcome.Verdict? && outcome.resolved {
      forall src | src in affected ensures Remedied(le, installed, notices, beta, events, src) {
        FixedIsRemedied(le, installed, notices, beta, merged, affected, events, src);
      }
    }
  }

  /** `ua fix CVE-...`: `usns` are the notices the server lists for the CVE. */
  method FixCve(le: VersionOrder, cve: CveRecord, usns: seq<UsnRecord>, installed: Inventory, beta: map<string, bool>,
      answers: Pocket -> Answers, reboot: bool)
    returns (ending: Ending, events: seq<Event>)
    ensures ending.BadMetadata? <==> !AllRegroup(usns)
    ensures Resolved in events ==> forall src :: IsAffected(cve.statuses, installed, src) ==>
      Remedied(le, installed, Regrouped(usns), beta, events, src)
    ensures ending.Ended? ==>
      && (ending.outcome.NothingAffected? <==> forall src :: !IsAffected(cve.statuses, installed, src))
      && (Resolved in events <==> ending.outcome.Verdict? && ending.outcome.resolved)
  {
    var affected := AffectedByCve(cve.statuses, installed);
    assert forall src :: src in affected <==> IsAffected(cve.statuses, installed, src);
    var notices := RegroupAll(usns);
    if notices.None? {
      return BadMetadata, [];
    }
    var outcome;
    outcome, events := MergeAndPrompt(le, affected, installed, notices.value, beta, answers, reboot);
    ending := Ended(outcome);
  }

  /** The notices named by the CVEs, each once. */
  method RelatedNotices(cves: seq<CveRecord>) returns (ids: set<string>)
    ensures forall id :: id in ids <==> exists i :: 0 <= i < |cves| && id in cves[i].notices
  {
    ids := {};
    for i := 0 to |cves|
      invariant forall id :: id in ids <==> exists k :: 0 <= k < i && id in cves[k].notices
    {
      ghost var before := ids;
      for j := 0 to |cves[i].notices|
        invariant forall id :: id in ids <==> id in before || id in cves[i].notices[..j]
      {
        ids := ids + {cves[i].notices[j]};
      }
      assert cves[i].notices[..|cves[i].notices|] == cves[i].notices;
    }
  }

  method AffectedByEach(cves: seq<CveRecord>, installed: Inventory) returns (each: seq<map<string, PkgStatus>>)
    ensures |each| == |cves|
    ensures forall i, src :: 0 <= i < |cves| ==> (src in each[i] <==> IsAffected(cves[i].statuses, installed, src))
  {
    each := [];
    for i := 0 to |cves|
      invariant |each| == i
      invariant forall k, src :: 0 <= k < i ==> (src in each[k] <==> IsAffected(cves[k].statuses, installed, src))
    {
      var affected := AffectedByCve(cves[i].statuses, installed);
      each := each + [affected];
    }
  }

  ghost predicate AffectedByAny(cves: seq<CveRecord>, installed: Inventory, src: string) {
    exists i :: 0 <= i < |cves| && IsAffected(cves[i].statuses, installed, src)
  }

  method AffectedOf(le: VersionOrder, cves: seq<CveRecord>, installed: Inventory)
    returns (affected: map<string, PkgStatus>)
    ensures forall src :: src in affected <==> AffectedByAny(cves, installed, src)
  {
    var each := AffectedByEach(cves, installed);
    affected := AffectedByUsn(le, each);
    forall src ensures src in affected <==> AffectedByAny(cves, installed, src) {
      LowestIsFirstLeast(le, each, src);
    }
  }

  predicate NameNoCves(usns: seq<UsnRecord>) {
    forall i :: 0 <= i < |usns| ==> usns[i].cves == []
  }

  /** The notices, asked for one by one. */
  method FetchAll(fetch: string -> UsnRecord, ids: seq<string>) returns (usns: seq<UsnRecord>)
    ensures |usns| == |ids| && forall i :: 0 <= i < |ids| ==> usns[i] == fetch(ids[i])
  {
    usns := [];
    for i := 0 to |ids|
      invariant |usns| == i && forall j :: 0 <= j < i ==> usns[j] == fetch(ids[j])
    {
      usns := usns + [fetch(ids[i])];
    }
  }

  /** `ua fix USN-...`: the notices merged are all those that the CVEs of the USN name, in the order of their ids.
      `anyRelease` says that the USN publishes packages for some series. */
  method FixUsn(le: VersionOrder, cves: seq<CveRecord>, anyRelease: bool, fetch: string -> UsnRecord,
      installed: Inventory, beta: map<string, bool>, answers: Pocket -> Answers, reboot: bool)
    returns (ending: Ending, events: seq<Event>, ghost ids: seq<string>, ghost usns: seq<UsnRecord>)
    ensures Distinct(ids) && Ascends(ids)
    ensures forall id :: id in ids <==> exists i :: 0 <= i < |cves| && id in cves[i].notices
    ensures |usns| == |ids| && forall i :: 0 <= i < |ids| ==> usns[i] == fetch(ids[i])
    ensures ending.BadMetadata? <==>
      !AllRegroup(usns) || (forall id :: id in ids ==> fetch(id).cves == []) || !anyRelease
    ensures Resolved in events ==> forall src :: AffectedByAny(cves, installed, src) ==>
      Remedied(le, installed, Regrouped(usns), beta, events, src)
    ensures ending.Ended? ==>
      && (ending.outcome.NothingAffected? <==> forall src :: !AffectedByAny(cves, installed, src))
      && (Resolved in events <==> ending.outcome.Verdict? && ending.outcome.resolved)
  {
    var related := RelatedNotices(cves);
    var sorted := SortedKeys(related);
    SortedKeysAscend(related);
    ids := sorted;
    var fetched := FetchAll(fetch, sorted);
    usns := fetched;
    var affected := AffectedOf(le, cves, installed);
    var notices := RegroupAll(fetched);
    if notices.None? {
      return BadMetadata, [], ids, usns;
    }
    if NameNoCves(fetched) || !anyRelease {
      return BadMetadata, [], ids, usns;
    }
    var outcome;
    outcome, events := MergeAndPrompt(le, affected, installed, notices.value, beta, answers, reboot);
    ending := Ended(outcome);
  }
}
