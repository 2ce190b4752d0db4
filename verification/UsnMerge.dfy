/** Merging the released binary versions of related USNs. */
module UsnMerge {
  import opened Common
  import opened Usn

  /** `beta[pocket]` says that the service owning the pocket is a beta service the user has not enabled. */
  predicate Public(e: Package, beta: map<string, bool>) {
    var pocket := if e.pocket.Some? then e.pocket.value else "None";
    pocket in beta ==> !beta[pocket]
  }

  ghost function Offer(g: Grouped, beta: map<string, bool>, src: string, bin: string): Option<Package> {
    match Lookup(g, src, bin)
    case Some(e) => if Public(e, beta) then Some(e) else None
    case None => None
  }

  /** The record kept after a newer offer: an earlier record survives unless the offer is strictly greater. */
  ghost function Keep(le: VersionOrder, held: Option<Package>, offer: Option<Package>): Option<Package> {
    if offer.None? then held
    else if held.None? || !le(offer.value.version, held.value.version) then offer
    else held
  }

  ghost function Versions(usns: seq<Grouped>, beta: map<string, bool>, src: string, bin: string): seq<Option<string>> {
    seq(|usns|, i requires 0 <= i < |usns| =>
      var o := Offer(usns[i], beta, src, bin); if o.Some? then Some(o.value.version) else None)
  }

  ghost function Best(le: VersionOrder, usns: seq<Grouped>, beta: map<string, bool>, src: string, bin: string)
    : Option<Package>
  {
    var k := Kept(le, Versions(usns, beta, src, bin));
    if k.None? then None else Offer(usns[k.value], beta, src, bin)
  }

  lemma BestStep(le: VersionOrder, usns: seq<Grouped>, i: nat, beta: map<string, bool>, src: string, bin: string)
    requires i < |usns|
    ensures Best(le, usns[..i + 1], beta, src, bin) ==
      Keep(le, Best(le, usns[..i], beta, src, bin), Offer(usns[i], beta, src, bin))
  {
    assert Versions(usns[..i + 1], beta, src, bin)[..i] == Versions(usns[..i], beta, src, bin);
  }

  /** The published binaries of one USN's source package. */
  function PublicOnly(group: map<string, Package>, beta: map<string, bool>): map<string, Package> {
    map bin | bin in group && Public(group[bin], beta) :: group[bin]
  }

  /** The loop over one source package's public binaries. */
  method MergeSource(le: VersionOrder, held: map<string, Package>, offers: map<string, Package>)
    returns (r: map<string, Package>)
    ensures r.Keys == held.Keys + offers.Keys
    ensures forall bin :: bin in r ==>
      Some(r[bin]) == Keep(le, if bin in held then Some(held[bin]) else None,
                               if bin in offers then Some(offers[bin]) else None)
  {
    r := held;
    var todo := offers.Keys;
    while todo != {}
      invariant todo <= offers.Keys
      invariant r.Keys == held.Keys + (offers.Keys - todo)
      invariant forall bin :: bin in r ==>
        Some(r[bin]) == Keep(le, if bin in held then Some(held[bin]) else None,
                                 if bin in offers && bin !in todo then Some(offers[bin]) else None)
    {
      var bin :| bin in todo;
      if bin !in r {
        r := r[bin := offers[bin]];
      } else {
        var prevVersion, currentVersion := r[bin].version, offers[bin].version;
        if !le(currentVersion, prevVersion) {
          r := r[bin := offers[bin]];
        }
      }
      todo := todo - {bin};
    }
  }

  /** One source package of one USN. */
  method MergeOneSource(le: VersionOrder, before: Grouped, usn: Grouped, beta: map<string, bool>, src: string)
    returns (r: Grouped)
    requires NoEmptyGroup(before) && src in usn
    ensures NoEmptyGroup(r)
    ensures forall s, bin ::
      Lookup(r, s, bin) ==
      if s == src then Keep(le, Lookup(before, s, bin), Offer(usn, beta, s, bin)) else Lookup(before, s, bin)
  {
    r := before;
    var offers := PublicOnly(usn[src], beta);
    assert forall bin :: Offer(usn, beta, src, bin) == if bin in offers then Some(offers[bin]) else None;
    if src !in r && offers != map[] {
      r := r[src := offers];
    } else if src in r {
      var group := MergeSource(le, r[src], offers);
      assert group != map[] by {
        assert r[src] != map[];
        var bin :| bin in r[src];
        assert bin in group;
      }
      r := r[src := group];
    }
  }

  /** One USN folded into the running result. */
  method MergeOne(le: VersionOrder, merged: Grouped, usn: Grouped, beta: map<string, bool>) returns (r: Grouped)
    requires NoEmptyGroup(merged)
    ensures NoEmptyGroup(r)
    ensures forall src, bin :: Lookup(r, src, bin) == Keep(le, Lookup(merged, src, bin), Offer(usn, beta, src, bin))
  {
    r := merged;
    var todo := usn.Keys;
    while todo != {}
      invariant todo <= usn.Keys
      invariant NoEmptyGroup(r)
      invariant forall src, bin ::
        Lookup(r, src, bin) ==
          Keep(le, Lookup(merged, src, bin), if src in todo then None else Offer(usn, beta, src, bin))
    {
      var src :| src in todo;
      r := MergeOneSource(le, r, usn, beta, src);
      todo := todo - {src};
    }
  }

  /** The kept record is a maximum over all published ones, from the first USN that attains it; there is none
      exactly when no USN publishes the pair. */
  lemma BestIsFirstGreatest(le: VersionOrder, usns: seq<Grouped>, beta: map<string, bool>, src: string, bin: string)
    ensures Best(le, usns, beta, src, bin).None? <==>
      forall i :: 0 <= i < |usns| ==> Offer(usns[i], beta, src, bin).None?
    ensures Best(le, usns, beta, src, bin).Some? ==> exists i: nat ::
      && FirstGreatest(le, Versions(usns, beta, src, bin), i)
      && Best(le, usns, beta, src, bin) == Offer(usns[i], beta, src, bin)
  {
    var vs := Versions(usns, beta, src, bin);
    KeptIsFirstGreatest(le, vs);
    assert forall i :: 0 <= i < |usns| ==> (vs[i].None? <==> Offer(usns[i], beta, src, bin).None?);
  }

  /** Any other list of the same USNs gives the same pairs, with versions equal up to ties. */
  lemma MergeIgnoresUsnOrder(le: VersionOrder, usns: seq<Grouped>, others: seq<Grouped>, beta: map<string, bool>,
      src: string, bin: string)
    requires forall g :: g in usns <==> g in others
    ensures var a, b := Best(le, usns, beta, src, bin), Best(le, others, beta, src, bin);
      && (a.Some? <==> b.Some?)
      && (a.Some? ==> le(a.value.version, b.value.version) && le(b.value.version, a.value.version))
  {
    BestBounds(le, usns, others, beta, src, bin);
    BestBounds(le, others, usns, beta, src, bin);
  }

  lemma BestBounds(le: VersionOrder, usns: seq<Grouped>, others: seq<Grouped>, beta: map<string, bool>, src: string,
      bin: string)
    requires forall g :: g in usns ==> g in others
    ensures Best(le, usns, beta, src, bin).Some? ==>
      && Best(le, others, beta, src, bin).Some?
      && le(Best(le, usns, beta, src, bin).value.version, Best(le, others, beta, src, bin).value.version)
  {
    var vs, ws := Versions(usns, beta, src, bin), Versions(others, beta, src, bin);
    KeptIsFirstGreatest(le, vs);
    KeptIsFirstGreatest(le, ws);
    if Kept(le, vs).Some? {
      var i := Kept(le, vs).value;
      assert usns[i] in others;
      var j :| 0 <= j < |others| && others[j] == usns[i];
      assert ws[j] == vs[i];
    }
  }

  /** The record is in a pocket of a beta service, "None" standing for a record without one. */
  ghost predicate Withheld(e: Package, beta: map<string, bool>) {
    exists pocket :: pocket in beta && beta[pocket] &&
      (e.pocket == Some(pocket) || (e.pocket == None && pocket == "None"))
  }

  ghost predicate Publishes(g: Grouped, beta: map<string, bool>, src: string, bin: string) {
    src in g && bin in g[src] && !Withheld(g[src][bin], beta)
  }

  /** In terms of the USNs themselves: there is a record iff one of them publishes the pair, and it is the first with
      the greatest version among those published. */
  lemma BestIsPublished(le: VersionOrder, usns: seq<Grouped>, beta: map<string, bool>, src: string, bin: string)
    ensures Best(le, usns, beta, src, bin).Some? <==>
      exists i :: 0 <= i < |usns| && Publishes(usns[i], beta, src, bin)
    ensures forall i :: 0 <= i < |usns| && Publishes(usns[i], beta, src, bin) ==>
      le(usns[i][src][bin].version, Best(le, usns, beta, src, bin).value.version)
    ensures Best(le, usns, beta, src, bin).Some? ==>
      FirstPublished(le, usns, beta, src, bin, Best(le, usns, beta, src, bin).value)
  {
    forall i | 0 <= i < |usns|
      ensures Offer(usns[i], beta, src, bin) ==
        if Publishes(usns[i], beta, src, bin) then Some(usns[i][src][bin]) else None
    {
    }
    BestIsFirstGreatest(le, usns, beta, src, bin);
    var versions := Versions(usns, beta, src, bin);
    assert forall i :: 0 <= i < |usns| && Publishes(usns[i], beta, src, bin) ==>
      versions[i] == Some(usns[i][src][bin].version);
    if Best(le, usns, beta, src, bin).Some? {
      var k: nat :| FirstGreatest(le, versions, k) && Best(le, usns, beta, src, bin) == Offer(usns[k], beta, src, bin);
      assert Publishes(usns[k], beta, src, bin);
    }
  }

  /** The record of some USN, behind no other published one of the same or a greater version. */
  ghost predicate FirstPublished(le: VersionOrder, usns: seq<Grouped>, beta: map<string, bool>, src: string,
                                 bin: string, e: Package) {
    exists i :: 0 <= i < |usns| && Publishes(usns[i], beta, src, bin) && usns[i][src][bin] == e &&
      forall j :: 0 <= j < i && Publishes(usns[j], beta, src, bin) ==> !le(e.version, usns[j][src][bin].version)
  }

  /** Every record that the USN publishes is in the result, at its version or a greater one. */
  ghost predicate Bounds(le: VersionOrder, g: Grouped, beta: map<string, bool>, r: Grouped) {
    forall src, bin :: Publishes(g, beta, src, bin) ==>
      src in r && bin in r[src] && le(g[src][bin].version, r[src][bin].version)
  }

  /** Each record that a USN publishes outside a beta pocket is in the result, at its version or a greater one, and the
      result holds nothing else. */
  method MergeReleased(le: VersionOrder, usns: seq<Grouped>, beta: map<string, bool>) returns (r: Grouped)
    ensures NoEmptyGroup(r)
    ensures forall src, bin :: Lookup(r, src, bin) == Best(le, usns, beta, src, bin)
    ensures forall g :: g in usns ==> Bounds(le, g, beta, r)
    ensures forall src, bin :: src in r && bin in r[src] ==> FirstPublished(le, usns, beta, src, bin, r[src][bin])
  {
    r := map[];
    for i := 0 to |usns|
      invariant NoEmptyGroup(r)
      invariant forall src, bin :: Lookup(r, src, bin) == Best(le, usns[..i], beta, src, bin)
    {
      r := MergeOne(le, r, usns[i], beta);
      forall src, bin
        ensures Best(le, usns[..i + 1], beta, src, bin) ==
          Keep(le, Best(le, usns[..i], beta, src, bin), Offer(usns[i], beta, src, bin))
      {
        BestStep(le, usns, i, beta, src, bin);
      }
    }
    assert usns[..|usns|] == usns;
    MergedArePublished(le, usns, beta, r);
  }

  lemma MergedArePublished(le: VersionOrder, usns: seq<Grouped>, beta: map<string, bool>, r: Grouped)
    requires forall src, bin :: Lookup(r, src, bin) == Best(le, usns, beta, src, bin)
    ensures forall g :: g in usns ==> Bounds(le, g, beta, r)
    ensures forall src, bin :: src in r && bin in r[src] ==> FirstPublished(le, usns, beta, src, bin, r[src][bin])
  {
    forall g: Grouped, src, bin | g in usns && Publishes(g, beta, src, bin)
      ensures src in r && bin in r[src] && le(g[src][bin].version, r[src][bin].version)
    {
      BestIsPublished(le, usns, beta, src, bin);
      assert Lookup(r, src, bin).Some?;
    }
    forall src, bin | src in r && bin in r[src]
      ensures FirstPublished(le, usns, beta, src, bin, r[src][bin])
    {
      BestIsPublished(le, usns, beta, src, bin);
      assert Lookup(r, src, bin) == Some(r[src][bin]);
    }
  }
}
