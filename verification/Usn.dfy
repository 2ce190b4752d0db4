/** USN metadata: regrouping release packages by source, and merging the fixed versions of several USNs. */
module Usn {
  import opened Common

  datatype Package = Package(
    name: string, isSource: bool, version: string, pocket: Option<string>, sourceLink: Option<string>)

  /** source package name -> "source" or binary package name -> metadata */
  type Grouped = map<string, map<string, Package>>

  datatype MetadataError =
    | DuplicateSource(pkg: string)
    | NoSourceLink(pkg: string)
    | UnexpectedSourceLink(pkg: string)

  /** What the cached dict holds, and the error raised while filling it, if any. */
  datatype Grouping = Grouping(groups: Grouped, error: Option<MetadataError>)

  /** What stands behind the last slash. */
  ghost predicate EndsIn(link: string, segment: string) {
    '/' !in segment && exists before :: link == before + "/" + segment
  }

  function LastSegment(link: string): (segment: string)
    ensures '/' in link ==> EndsIn(link, segment)
  {
    if '/' !in link then link
    else
      var segment := LastSegment(link[1..]);
      assert EndsIn(link, segment) by {
        if '/' in link[1..] {
          var before :| link[1..] == before + "/" + segment;
          assert link == ([link[0]] + before) + "/" + segment;
        } else {
          assert link == "" + "/" + segment;
        }
      }
      segment
  }

  ghost function Link(e: Package): string {
    if e.sourceLink.Some? then e.sourceLink.value else ""
  }

  /** The two keys under which a package is filed. */
  ghost function Slot(e: Package): (string, string) {
    if e.isSource then (e.name, "source") else (LastSegment(Link(e)), e.name)
  }

  ghost predicate WellLinked(e: Package) {
    e.isSource || '/' in Link(e)
  }

  function Lookup(g: Grouped, src: string, key: string): Option<Package> {
    if src in g && key in g[src] then Some(g[src][key]) else None
  }

  ghost predicate NoEmptyGroup(g: Grouped) {
    forall src :: src in g ==> g[src] != map[]
  }

  ghost function Put(g: Grouped, src: string, key: string, e: Package): (r: Grouped)
    ensures forall s, k :: Lookup(r, s, k) == if s == src && k == key then Some(e) else Lookup(g, s, k)
    ensures NoEmptyGroup(g) ==> NoEmptyGroup(r)
  {
    var group := (if src in g then g[src] else map[])[key := e];
    assert key in group;
    g[src := group]
  }

  ghost function AddPackage(g: Grouped, e: Package): Grouping {
    if e.isSource && Lookup(g, e.name, "source").Some? then Grouping(g, Some(DuplicateSource(e.name)))
    else if !e.isSource && Link(e) == "" then Grouping(g, Some(NoSourceLink(e.name)))
    else if !WellLinked(e) then Grouping(g, Some(UnexpectedSourceLink(e.name)))
    else Grouping(Put(g, Slot(e).0, Slot(e).1, e), None)
  }

  /** The packages taken in list order, stopping at the first error. */
  ghost function Regroup(es: seq<Package>): Grouping {
    if es == [] then Grouping(map[], None)
    else
      var before := Regroup(es[..|es| - 1]);
      if before.error.Some? then before else AddPackage(before.groups, es[|es| - 1])
  }

  lemma {:induction false} RegroupStopsAtError(es: seq<Package>, n: nat)
    requires n <= |es| && Regroup(es[..n]).error.Some?
    ensures Regroup(es) == Regroup(es[..n])
  {
    if n == |es| {
      assert es[..n] == es;
    } else {
      assert es[..|es| - 1][..n] == es[..n];
      RegroupStopsAtError(es[..|es| - 1], n);
    }
  }

  /** The loop body: one package filed under its source, or an error and nothing filed. */
  method File(g: Grouped, pkg: Package) returns (groups: Grouped, error: Option<MetadataError>)
    ensures Grouping(groups, error) == AddPackage(g, pkg)
    ensures error.None? ==>
      if pkg.isSource then Lookup(groups, pkg.name, "source") == Some(pkg)
      else exists src :: EndsIn(Link(pkg), src) && Lookup(groups, src, pkg.name) == Some(pkg)
  {
    groups := g;
    if pkg.isSource {
      if pkg.name in groups {
        if "source" in groups[pkg.name] {
          return groups, Some(DuplicateSource(pkg.name));
        }
        groups := groups[pkg.name := groups[pkg.name]["source" := pkg]];
      } else {
        groups := groups[pkg.name := map["source" := pkg]];
      }
    } else {
      if pkg.sourceLink.None? || pkg.sourceLink.value == "" {
        return groups, Some(NoSourceLink(pkg.name));
      } else if '/' !in pkg.sourceLink.value {
        return groups, Some(UnexpectedSourceLink(pkg.name));
      }
      var src := LastSegment(pkg.sourceLink.value);
      if src !in groups {
        groups := groups[src := map[]];
      }
      groups := groups[src := groups[src][pkg.name := pkg]];
    }
    return groups, None;
  }

  /** A USN object; `cache` is the memoised `_release_packages` attribute. */
  class Notice {
    const packages: seq<Package>
    var cache: Option<Grouped>

    constructor (packages: seq<Package>)
      ensures this.packages == packages && cache == None
    {
      this.packages := packages;
      cache := None;
    }

    /** The first read fills the cache package by package, so an error leaves it partly filled;
        every later read returns whatever the first one left. */
    method ReleasePackages() returns (r: Result<Grouped, MetadataError>)
      modifies this`cache
      ensures old(cache).Some? ==> cache == old(cache) && r == Success(cache.value)
      ensures old(cache).None? ==>
        var g := Regroup(packages);
        cache == Some(g.groups) && r == if g.error.Some? then Failure(g.error.value) else Success(g.groups)
    {
      if cache.Some? {
        return Success(cache.value);
      }
      var groups: Grouped := map[];
      cache := Some(groups);
      var i := 0;
      while i < |packages|
        invariant i <= |packages|
        invariant cache == Some(groups)
        invariant Regroup(packages[..i]) == Grouping(groups, None)
      {
        var pkg := packages[i];
        assert packages[..i + 1][..i] == packages[..i];
        ghost var step := Regroup(packages[..i + 1]);
        assert step == AddPackage(groups, pkg);
        if step.error.Some? {
          RegroupStopsAtError(packages, i + 1);
        }
        var error;
        groups, error := File(groups, pkg);
        if error.Some? {
          return Failure(error.value);
        }
        cache := Some(groups);
        i := i + 1;
      }
      assert packages[..i] == packages;
      return Success(groups);
    }

    /** A failed read is not repeated: the second read answers with the partial dict. */
    method ReadTwice() returns (first: Result<Grouped, MetadataError>, second: Result<Grouped, MetadataError>)
      requires cache.None?
      modifies this`cache
      ensures first.Failure? <==> Regroup(packages).error.Some?
      ensures second == Success(Regroup(packages).groups)
    {
      first := ReleasePackages();
      second := ReleasePackages();
    }
  }

  /** Where a slot is filled more than once, the last package listed holds it. */
  ghost function LastAt(es: seq<Package>, src: string, key: string): Option<Package> {
    if es == [] then None
    else if Slot(es[|es| - 1]) == (src, key) then Some(es[|es| - 1])
    else LastAt(es[..|es| - 1], src, key)
  }

  ghost predicate NoSourceAfter(es: seq<Package>) {
    forall i, j :: 0 <= i < j < |es| && Slot(es[i]) == Slot(es[j]) ==> !es[j].isSource
  }

  ghost predicate Regroupable(es: seq<Package>) {
    (forall i :: 0 <= i < |es| ==> WellLinked(es[i])) && NoSourceAfter(es)
  }

  lemma {:induction false} LastAtIsSome(es: seq<Package>, src: string, key: string)
    ensures LastAt(es, src, key).Some? <==> exists i :: 0 <= i < |es| && Slot(es[i]) == (src, key)
    ensures LastAt(es, src, key).Some? ==>
      LastAt(es, src, key).value in es && Slot(LastAt(es, src, key).value) == (src, key)
  {
    if es == [] {
    } else {
      LastAtIsSome(es[..|es| - 1], src, key);
    }
  }

  lemma RegroupableStep(es: seq<Package>)
    requires es != []
    ensures var front, e := es[..|es| - 1], es[|es| - 1];
      Regroupable(es) <==>
        Regroupable(front) && WellLinked(e) && (e.isSource ==> LastAt(front, Slot(e).0, Slot(e).1).None?)
  {
    var front, e := es[..|es| - 1], es[|es| - 1];
    LastAtIsSome(front, Slot(e).0, Slot(e).1);
    assert forall i :: 0 <= i < |front| ==> es[i] == front[i];
    if Regroupable(es) && e.isSource {
      assert forall i :: 0 <= i < |front| ==> Slot(es[i]) != Slot(es[|es| - 1]);
    }
  }

  /** Regrouping succeeds on exactly the lists whose binaries have a link containing a slash and whose
      source entries never meet an occupied slot; the result then holds the last package of every slot. */
  lemma {:induction false} RegroupOutcome(es: seq<Package>)
    ensures Regroup(es).error.None? <==> Regroupable(es)
    ensures NoEmptyGroup(Regroup(es).groups)
    ensures Regroupable(es) ==> forall s, k :: Lookup(Regroup(es).groups, s, k) == LastAt(es, s, k)
  {
    if es == [] {
    } else {
      var front, e := es[..|es| - 1], es[|es| - 1];
      RegroupOutcome(front);
      RegroupableStep(es);
    }
  }

  ghost predicate DistinctSlots(es: seq<Package>) {
    forall i, j :: 0 <= i < j < |es| ==> Slot(es[i]) != Slot(es[j])
  }

  lemma {:induction false} LastAtOfDistinct(es: seq<Package>, e: Package)
    requires DistinctSlots(es) && e in es
    ensures LastAt(es, Slot(e).0, Slot(e).1) == Some(e)
  {
    var last := es[|es| - 1];
    if Slot(last) != Slot(e) {
      LastAtOfDistinct(es[..|es| - 1], e);
    }
  }

  lemma LookupExtensional(g: Grouped, h: Grouped)
    requires NoEmptyGroup(g) && NoEmptyGroup(h)
    requires forall s, k :: Lookup(g, s, k) == Lookup(h, s, k)
    ensures g == h
  {
    forall s | s in g || s in h ensures s in g && s in h && g[s] == h[s] {
      var m := if s in g then g[s] else h[s];
      assert m != map[];
      var k :| k in m;
      assert Lookup(g, s, k).Some? && Lookup(h, s, k).Some?;
      forall k | k in g[s] || k in h[s] ensures k in g[s] && k in h[s] && g[s][k] == h[s][k] {
        assert Lookup(g, s, k) == Lookup(h, s, k);
      }
      assert g[s].Keys == h[s].Keys;
    }
    assert g.Keys == h.Keys;
  }

  /** With no slot used twice, every package is filed exactly once, and the list order is irrelevant. */
  lemma RegroupIgnoresOrder(es: seq<Package>, fs: seq<Package>)
    requires DistinctSlots(es) && DistinctSlots(fs)
    requires forall e :: e in es <==> e in fs
    ensures Regroup(es).error.None? <==> forall e :: e in es ==> WellLinked(e)
    ensures Regroup(fs).error.None? <==> Regroup(es).error.None?
    ensures Regroup(es).error.None? ==>
      && Regroup(es).groups == Regroup(fs).groups
      && forall s, k, e :: Lookup(Regroup(es).groups, s, k) == Some(e) <==> e in es && Slot(e) == (s, k)
  {
    RegroupOutcome(es);
    RegroupOutcome(fs);
    assert NoSourceAfter(es) && NoSourceAfter(fs);
    if Regroup(es).error.None? {
      forall s, k ensures LastAt(es, s, k) == LastAt(fs, s, k)
        ensures forall e :: LastAt(es, s, k) == Some(e) <==> e in es && Slot(e) == (s, k)
      {
        LastAtIsSome(es, s, k);
        LastAtIsSome(fs, s, k);
        forall e | e in es && Slot(e) == (s, k) ensures LastAt(es, s, k) == LastAt(fs, s, k) == Some(e) {
          LastAtOfDistinct(es, e);
          LastAtOfDistinct(fs, e);
        }
        if LastAt(fs, s, k).Some? {
          LastAtOfDistinct(es, LastAt(fs, s, k).value);
        }
      }
      LookupExtensional(Regroup(es).groups, Regroup(fs).groups);
    }
  }
}
