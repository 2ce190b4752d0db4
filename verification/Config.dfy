/** UAConfig: memoised views of the files in the data directory. */
module Config {
  import opened Common
  import opened Json
  import opened Overlay
  import opened SeriesOverrides
  import C = Contract

  datatype OverlayFile = NoOverlay | Unreadable | Contents(doc: Fields)

  /** What the machine_token property computes from the token file; None where it raises. */
  ghost function TokenFrom(file: Fields, overlay: OverlayFile): Option<Fields> {
    if file == map[] then Some(file)
    else match overlay
      case NoOverlay => Some(file)
      case Unreadable => None
      case Contents(doc) =>
        if doc == map[] then Some(file)
        else if Mergeable(Dict(file), Dict(doc)) then Some(Merge(Dict(file), Dict(doc)).fields)
        else None
  }

  /** An entry of the cached entitlements; its dict is the very dict inside the cached token. */
  datatype Access = Access(entitlement: Entitlement, resourceToken: Option<Json>)

  /** The cached token: the document as it was read, its contract, and its entitlement dicts as live objects. */
  datatype CachedToken = CachedToken(raw: Fields, contract: Option<C.Contract>, entries: seq<Entitlement>)

  datatype Notice = Notice(heading: string, description: string)
  datatype Lock = Lock(pid: int, holder: string)

  const DATA_PATHS: set<string> := {
    "instance-id", "machine-access-cis", "machine-id", "machine-token", "lock", "status-cache", "notices",
      "marker-reboot-cmds"
  }

  /** The files with a field of their own. */
  const OWN_FILES: set<string> := {"machine-token", "lock", "notices"}

  /** The names under which the client keeps its files. */
  ghost predicate IsDataPath(key: string) {
    key in [
      "instance-id", "lock", "machine-access-cis", "machine-id", "machine-token", "marker-reboot-cmds", "notices",
      "status-cache"]
  }

  predicate InvalidatesToken(key: string) {
    "machine-access" <= key || key == "machine-token"
  }

  predicate IsOperation(n: Notice) {
    "Operation in progress" <= n.description
  }

  /** The notices without those of an operation in progress. */
  ghost predicate OperationsGone(before: seq<Notice>, after: seq<Notice>) {
    forall n :: n in after <==> n in before && !("Operation in progress" <= n.description)
  }

  function OperationNotice(holder: string): (n: Notice)
    ensures IsOperation(n)
  {
    Notice("", "Operation in progress: " + holder)
  }

  ghost function Keep(notices: seq<Notice>, drop: Notice -> bool): seq<Notice> {
    if notices == [] then []
    else Keep(notices[..|notices| - 1], drop) + if drop(notices[|notices| - 1]) then [] else [notices[|notices| - 1]]
  }

  function Names(c: C.Contract): set<string> {
    set name | name in c.names
  }

  /** Exactly the last entries of the given types have been overridden. */
  ghost predicate EntriesBuilt(c: C.Contract, series: string, entries: seq<Entitlement>, done: set<string>)
    requires C.Buildable(c, series) && |entries| == |c.docs|
    reads entries
  {
    forall i :: 0 <= i < |c.docs| ==>
      entries[i].fields ==
        if c.names[i] in done && C.LastOf(c.names, c.names[i]) == i then Overridden(c.docs[i], series) else c.docs[i]
  }

  /** No dict has been overridden yet. */
  ghost predicate Pristine(c: C.Contract, entries: seq<Entitlement>)
    requires |entries| == |c.docs|
    reads entries
  {
    forall i :: 0 <= i < |c.docs| ==> entries[i].fields == c.docs[i]
  }

  ghost predicate AccessesBuilt(c: C.Contract, entries: seq<Entitlement>, built: map<string, Access>)
    requires C.Complete(c) && |entries| == |c.docs|
  {
    forall name :: name in built ==>
      name in c.names && built[name] == Access(entries[C.LastOf(c.names, name)], Get(c.tokens, name))
  }

  function View(m: map<string, Access>): map<string, C.AccessDoc>
    reads set name | name in m :: m[name].entitlement
  {
    map name | name in m :: C.AccessDoc(m[name].entitlement.fields, m[name].resourceToken)
  }

  /** No two names share a dict. */
  ghost predicate Separate(m: map<string, Access>) {
    forall a, b :: a in m && b in m && a != b ==> m[a].entitlement != m[b].entitlement
  }

  ghost predicate Owned(m: map<string, Access>, entries: seq<Entitlement>) {
    Separate(m) && forall name :: name in m ==> m[name].entitlement in entries
  }

  lemma BuiltSeparately(c: C.Contract, entries: seq<Entitlement>, built: map<string, Access>)
    requires C.Complete(c) && |entries| == |c.docs| && Distinct(entries) && AccessesBuilt(c, entries, built)
    ensures Owned(built, entries)
  {
    forall a, b | a in built && b in built && a != b ensures built[a].entitlement != built[b].entitlement {
      assert C.LastOf(c.names, a) != C.LastOf(c.names, b);
    }
  }

  lemma BuiltView(c: C.Contract, series: string, entries: seq<Entitlement>, built: map<string, Access>)
    requires C.Buildable(c, series) && |entries| == |c.docs|
    requires built.Keys == Names(c) && EntriesBuilt(c, series, entries, built.Keys) && AccessesBuilt(c, entries, built)
    ensures View(built) == C.Entitlements(c, series)
  {
    var v, e := View(built), C.Entitlements(c, series);
    forall name | name in built ensures v[name] == e[name] {
      assert c.names[C.LastOf(c.names, name)] == name;
    }
  }

  /** The entries still to do are untouched, and the overrides of the others could be applied. */
  ghost predicate HalfBuilt(c: C.Contract, series: string, entries: seq<Entitlement>, todo: set<string>)
    requires C.Complete(c) && |entries| == |c.docs|
    reads entries
  {
    forall name :: name in c.names ==>
      var k := C.LastOf(c.names, name);
      if name in todo then entries[k].fields == c.docs[k] else Applicable(c.docs[k], series)
  }

  lemma StartsHalfBuilt(c: C.Contract, series: string, entries: seq<Entitlement>)
    requires C.Complete(c) && |entries| == |c.docs|
    ensures Pristine(c, entries) ==> HalfBuilt(c, series, entries, Names(c))
  {
  }

  lemma NothingLeftToBuild(c: C.Contract, series: string, entries: seq<Entitlement>)
    requires C.Complete(c) && |entries| == |c.docs| && HalfBuilt(c, series, entries, {})
    ensures C.Buildable(c, series)
  {
  }

  method OverrideAt(entries: seq<Entitlement>, k: nat, series: string) returns (ok: bool)
    requires k < |entries| && Distinct(entries)
    modifies entries[k]
    ensures ok <==> old(Applicable(entries[k].fields, series))
    ensures ok ==> entries[k].fields == old(Overridden(entries[k].fields, series))
    ensures forall i :: 0 <= i < |entries| && i != k ==> entries[i].fields == old(entries[i].fields)
  {
    ok := entries[k].ApplySeriesOverrides(series);
  }

  /** One entitlement dict overridden in place. */
  method OverrideEntry(c: C.Contract, series: string, entries: seq<Entitlement>, ghost todo: set<string>, name: string)
    returns (ok: bool)
    requires C.Complete(c) && |entries| == |c.docs| && Distinct(entries) && name in todo && todo <= Names(c)
    requires C.Buildable(c, series) ==> EntriesBuilt(c, series, entries, Names(c) - todo)
    modifies entries[C.LastOf(c.names, name)]
    ensures C.Buildable(c, series) ==> ok && EntriesBuilt(c, series, entries, Names(c) - (todo - {name}))
    ensures old(HalfBuilt(c, series, entries, todo)) && ok ==> HalfBuilt(c, series, entries, todo - {name})
  {
    var k := C.LastOf(c.names, name);
    assert C.Buildable(c, series) ==> entries[k].fields == c.docs[k];
    ok := OverrideAt(entries, k, series);
    assert forall other :: other in c.names && other != name ==> c.names[C.LastOf(c.names, other)] != c.names[k];
  }

  /** The loop over the entitlement names, in any order; it stops at the first error. */
  method OverrideEntries(c: C.Contract, series: string, entries: seq<Entitlement>)
    returns (built: map<string, Access>, ok: bool)
    requires C.Complete(c) && |entries| == |c.docs| && Distinct(entries)
    requires C.Buildable(c, series) ==> EntriesBuilt(c, series, entries, {})
    modifies set e | e in entries
    ensures AccessesBuilt(c, entries, built)
    ensures C.Buildable(c, series) ==> ok && built.Keys == Names(c) && EntriesBuilt(c, series, entries, Names(c))
    ensures old(Pristine(c, entries)) && ok ==> C.Buildable(c, series)
  {
    built, ok := map[], true;
    ghost var pristine := Pristine(c, entries);
    StartsHalfBuilt(c, series, entries);
    var todo := Names(c);
    while todo != {}
      invariant todo <= Names(c)
      invariant pristine ==> HalfBuilt(c, series, entries, todo)
      invariant C.Buildable(c, series) ==> EntriesBuilt(c, series, entries, Names(c) - todo)
      invariant built.Keys == Names(c) - todo && AccessesBuilt(c, entries, built)
    {
      var name :| name in todo;
      ok := OverrideEntry(c, series, entries, todo, name);
      if !ok {
        return built, false;
      }
      built := built[name := Access(entries[C.LastOf(c.names, name)], Get(c.tokens, name))];
      todo := todo - {name};
    }
    assert Names(c) - todo == Names(c);
    if pristine {
      NothingLeftToBuild(c, series, entries);
    }
    return built, true;
  }

  /** The entitlements, each with a dict of its own, as a fresh object would read them. */
  method BuildAccesses(c: C.Contract, series: string, entries: seq<Entitlement>)
    returns (built: map<string, Access>, ok: bool)
    requires C.Complete(c) && |entries| == |c.docs| && Distinct(entries)
    requires C.Buildable(c, series) ==> EntriesBuilt(c, series, entries, {})
    modifies set e | e in entries
    ensures AccessesBuilt(c, entries, built) && Owned(built, entries)
    ensures C.Buildable(c, series) ==> ok && built.Keys == Names(c) && EntriesBuilt(c, series, entries, Names(c))
    ensures C.Buildable(c, series) ==> View(built) == C.Entitlements(c, series)
    ensures old(Pristine(c, entries)) && ok ==> C.Buildable(c, series)
  {
    built, ok := OverrideEntries(c, series, entries);
    BuiltSeparately(c, entries, built);
    if C.Buildable(c, series) {
      BuiltView(c, series, entries, built);
    }
  }

  class UAConfig {
    const series: string
    const overlay: OverlayFile

    // the files of the data directory
    var tokenFile: Option<Fields>
    var lockFile: Option<Lock>
    var noticesFile: Option<seq<Notice>>
    var otherFiles: map<string, Json>

    // the memoised properties; a falsy token is not kept
    var cachedToken: Option<CachedToken>
    var cachedEntitlements: Option<map<string, Access>>

    function Entries(): seq<Entitlement>
      reads this`cachedToken
    {
      if cachedToken.Some? then cachedToken.value.entries else []
    }

    /** The dicts inside the cached token. */
    ghost function Objects(): set<Entitlement>
      reads this`cachedToken
    {
      set e | e in Entries()
    }

    /** The cached token is what reading the file gives, with one live dict per resource entitlement. */
    ghost predicate TokenCurrent()
      reads this`tokenFile, this`cachedToken
    {
      cachedToken.Some? ==>
        && tokenFile.Some? && tokenFile.value != map[]
        && TokenFrom(tokenFile.value, overlay) == Some(cachedToken.value.raw)
        && cachedToken.value.raw != map[]
        && cachedToken.value.contract == C.Parse(cachedToken.value.raw)
        && Distinct(Entries())
        && (cachedToken.value.contract.Some? ==> |Entries()| == |cachedToken.value.contract.value.docs|)
    }

    /** The caches agree with the token file, unless the token is one that raises. Building the entitlements changes the
        dicts inside the cached token: those of the last entry of each type have their overrides applied. */
    ghost predicate Valid()
      reads this`tokenFile, this`cachedToken, this`cachedEntitlements, Objects()
    {
      && TokenCurrent()
      && (cachedEntitlements.Some? ==> cachedToken.Some?)
      && (cachedToken.Some? && cachedToken.value.contract.Some?
          && C.Buildable(cachedToken.value.contract.value, series) ==>
            Coherent(cachedToken.value.contract.value))
      && (cachedToken.Some? && cachedToken.value.contract.Some? && cachedEntitlements.None? ==>
            Pristine(cachedToken.value.contract.value, Entries()))
    }

    ghost predicate Coherent(c: C.Contract)
      requires C.Buildable(c, series) && |Entries()| == |c.docs|
      reads this`cachedToken, this`cachedEntitlements, Objects()
    {
      if cachedEntitlements.None? || cachedEntitlements.value == map[] then EntriesBuilt(c, series, Entries(), {})
      else
        && cachedEntitlements.value.Keys == Names(c)
        && EntriesBuilt(c, series, Entries(), Names(c))
        && AccessesBuilt(c, Entries(), cachedEntitlements.value)
    }

    /** A new object over whatever files there are: nothing is read yet. */
    constructor (series: string, overlay: OverlayFile, tokenFile: Option<Fields>, lockFile: Option<Lock>,
                 noticesFile: Option<seq<Notice>>, otherFiles: map<string, Json>)
      ensures Valid() && this.tokenFile == tokenFile && this.series == series && this.overlay == overlay
      ensures this.lockFile == lockFile && this.noticesFile == noticesFile && this.otherFiles == otherFiles
    {
      this.series, this.overlay, this.tokenFile, this.otherFiles := series, overlay, tokenFile, otherFiles;
      this.lockFile, this.noticesFile := lockFile, noticesFile;
      cachedToken, cachedEntitlements := None, None;
    }

    method NewEntries(docs: seq<Fields>) returns (entries: seq<Entitlement>)
      ensures |entries| == |docs| && Distinct(entries) && fresh(set e | e in entries)
      ensures forall i :: 0 <= i < |docs| ==> entries[i].fields == docs[i]
    {
      entries := [];
      for i := 0 to |docs|
        invariant |entries| == i && Distinct(entries) && fresh(set e | e in entries)
        invariant forall j :: 0 <= j < i ==> entries[j].fields == docs[j]
      {
        var e := new Entitlement(docs[i]);
        entries := entries + [e];
      }
    }

    /** The token of a fresh object, or a failure where reading it raises. */
    method MachineToken() returns (r: Result<Option<CachedToken>, ()>)
      requires Valid()
      modifies this`cachedToken
      ensures Valid() && cachedEntitlements == old(cachedEntitlements)
      ensures old(cachedToken).Some? ==> cachedToken == old(cachedToken)
      ensures old(cachedToken).None? && cachedToken.Some? ==> fresh(Objects())
      ensures r.Success? ==> r.value == cachedToken
      ensures r.Success? <==> tokenFile.None? || TokenFrom(tokenFile.value, overlay).Some?
      ensures r.Success? && r.value.None? ==> tokenFile.None? || TokenFrom(tokenFile.value, overlay) == Some(map[])
      ensures r.Success? && r.value.Some? ==>
        tokenFile.Some? && TokenFrom(tokenFile.value, overlay) == Some(r.value.value.raw)
    {
      if cachedToken.None? && tokenFile.Some? {
        var raw := tokenFile.value;
        if raw != map[] && !overlay.NoOverlay? {
          if overlay.Unreadable? {
            return Failure(());
          }
          if overlay.doc != map[] {
            var merged := MergeOverlay(raw, overlay.doc);
            if merged.Failure? {
              return Failure(());
            }
            raw := merged.value;
          }
        }
        if raw != map[] {
          var contract := C.Parse(raw);
          var entries := [];
          if contract.Some? {
            entries := NewEntries(contract.value.docs);
          }
          cachedToken := Some(CachedToken(raw, contract, entries));
        }
      }
      return Success(cachedToken);
    }

    /** The contract in the token file, if the token can be read. */
    ghost function FileContract(): Option<C.Contract>
      reads this`tokenFile
    {
      if tokenFile.Some? && TokenFrom(tokenFile.value, overlay).Some? then
        C.Parse(TokenFrom(tokenFile.value, overlay).value)
      else None
    }

    /** The file holds no token, or one from which everything can be read without an error. */
    ghost predicate ReadableFile()
      reads this`tokenFile
    {
      tokenFile.None? || tokenFile.value == map[] || (FileContract().Some? && C.Buildable(FileContract().value, series))
    }

    /** What a fresh configuration object would answer. */
    ghost function FreshEntitlements(): map<string, C.AccessDoc>
      requires ReadableFile()
      reads this`tokenFile
    {
      if tokenFile.None? || tokenFile.value == map[] then map[] else C.Entitlements(FileContract().value, series)
    }

    /** The document read from the files has the keys that are looked up, and overrides that can be applied. */
    ghost predicate ShapedFile()
      reads this`tokenFile
    {
      && tokenFile.Some? && TokenFrom(tokenFile.value, overlay).Some?
      && var document := TokenFrom(tokenFile.value, overlay).value;
         C.Shaped(document) && C.AllApplicable(document, series)
    }

    /** The answer is what that document says. */
    ghost predicate AnswersDocument(answer: map<string, C.AccessDoc>)
      requires ShapedFile()
      reads this`tokenFile
    {
      C.ReadOff(TokenFrom(tokenFile.value, overlay).value, series, answer)
    }

    lemma FreshAnswersDocument()
      ensures ReadableFile() <==> tokenFile.None? || tokenFile.value == map[] || ShapedFile()
      ensures ShapedFile() ==> AnswersDocument(FreshEntitlements())
    {
      if tokenFile.Some? && TokenFrom(tokenFile.value, overlay).Some? {
        var document := TokenFrom(tokenFile.value, overlay).value;
        C.ParsesShaped(document);
        if C.Shaped(document) {
          C.ParsedIsReadOff(document, series);
        }
      }
    }

    /** The entitlements property: memoised, built in place over the dicts of the cached token. */
    method Entitlements() returns (r: Result<map<string, Access>, ()>)
      requires Valid()
      modifies this`cachedToken, this`cachedEntitlements, Objects()
      ensures Valid() && fresh(Objects() - old(Objects()))
      ensures ReadableFile() ==> r.Success? && View(r.value) == FreshEntitlements()
      ensures ShapedFile() ==> r.Success? && AnswersDocument(View(r.value))
      // the first read fails on any other file
      ensures old(cachedEntitlements).None? && r.Success? ==> ReadableFile()
      ensures tokenFile.None? || tokenFile.value == map[] ==> r == Success(map[])
      // even a dict left half-built by an error is answered from then on
      ensures old(cachedEntitlements.Some? && cachedEntitlements.value != map[]) ==>
        r == Success(old(cachedEntitlements).value)
      ensures old(cachedEntitlements).None? && r.Success? ==> Owned(r.value, Entries())
    {
      FreshAnswersDocument();
      if cachedEntitlements.Some? && cachedEntitlements.value != map[] {
        if ReadableFile() {
          BuiltView(cachedToken.value.contract.value, series, Entries(), cachedEntitlements.value);
        }
        return Success(cachedEntitlements.value);
      }
      var read := MachineToken();
      if read.Failure? {
        return Failure(());
      }
      if read.value.None? {
        return Success(map[]);
      }
      if cachedToken.value.contract.None? {
        cachedEntitlements := Some(map[]);
        return Failure(());
      }
      r := BuildEntitlements(cachedToken.value.contract.value);
    }

    method BuildEntitlements(c: C.Contract) returns (r: Result<map<string, Access>, ()>)
      requires Valid() && cachedToken.Some? && cachedToken.value.contract == Some(c)
      requires cachedEntitlements.None? || cachedEntitlements.value == map[]
      modifies this`cachedEntitlements, Objects()
      ensures Valid()
      ensures C.Buildable(c, series) ==> r.Success? && View(r.value) == C.Entitlements(c, series)
      ensures r.Success? ==> Owned(r.value, Entries())
      ensures old(cachedEntitlements).None? && r.Success? ==> C.Buildable(c, series)
    {
      var built, ok := BuildAccesses(c, series, Entries());
      assert TokenCurrent();
      Remember(c, built);
      return if ok then Success(built) else Failure(());
    }

    method Remember(c: C.Contract, built: map<string, Access>)
      requires TokenCurrent() && cachedToken.Some? && cachedToken.value.contract == Some(c)
      requires C.Buildable(c, series) ==>
        built.Keys == Names(c) && EntriesBuilt(c, series, Entries(), Names(c)) && AccessesBuilt(c, Entries(), built)
      modifies this`cachedEntitlements
      ensures Valid() && cachedEntitlements == Some(built)
    {
      cachedEntitlements := Some(built);
      assert built == map[] ==> built.Keys == {};
    }

    /** Changes elsewhere in the heap do not disturb the caches. */
    twostate lemma StillValid()
      requires old(Valid()) && unchanged(this) && forall e :: e in Objects() ==> e.fields == old(e.fields)
      ensures Valid()
    {
      if cachedToken.Some? && cachedToken.value.contract.Some? &&
        C.Buildable(cachedToken.value.contract.value, series) {
        var c := cachedToken.value.contract.value;
        forall i | 0 <= i < |c.docs| ensures Entries()[i].fields == old(Entries()[i].fields) {
          assert Entries()[i] in Objects();
        }
        assert Coherent(c);
      }
    }

    function Notices(): seq<Notice>
      reads this`noticesFile
    {
      if noticesFile.Some? then noticesFile.value else []
    }

    method AddNotice(n: Notice)
      modifies this`noticesFile
      ensures Notices() == if n in old(Notices()) then old(Notices()) else old(Notices()) + [n]
      ensures old(Distinct(Notices())) ==> Distinct(Notices())
    {
      var notices := Notices();
      if n !in notices {
        noticesFile := Some(notices + [n]);
      }
    }

    /** Drops the matching notices and keeps the others in order; an empty list leaves no file. */
    method RemoveNotice(drop: Notice -> bool)
      modifies this`noticesFile
      ensures Notices() == Keep(old(Notices()), drop)
      ensures noticesFile.Some? ==> noticesFile.value != []
    {
      var notices, cached := [], Notices();
      for i := 0 to |cached|
        invariant notices == Keep(cached[..i], drop)
      {
        assert cached[..i + 1][..i] == cached[..i];
        if !drop(cached[i]) {
          notices := notices + [cached[i]];
        }
      }
      assert cached[..|cached|] == cached;
      noticesFile := if notices == [] then None else Some(notices);
    }

    method WriteMachineToken(content: Fields)
      requires Valid()
      modifies this`tokenFile, this`cachedToken, this`cachedEntitlements
      ensures Valid() && tokenFile == Some(content) && cachedToken == None && cachedEntitlements == None
    {
      cachedToken, cachedEntitlements := None, None;
      tokenFile := Some(content);
    }

    method WriteOther(key: string, content: Json)
      requires Valid() && key !in OWN_FILES
      modifies this`otherFiles, this`cachedToken, this`cachedEntitlements
      ensures Valid() && otherFiles == old(otherFiles)[key := content]
      ensures if "machine-access" <= key then cachedToken == None && cachedEntitlements == None
              else cachedToken == old(cachedToken) && cachedEntitlements == old(cachedEntitlements)
    {
      if InvalidatesToken(key) {
        cachedToken, cachedEntitlements := None, None;
      }
      otherFiles := otherFiles[key := content];
    }

    method WriteLock(lock: Lock)
      modifies this`lockFile, this`noticesFile
      ensures lockFile == Some(lock)
      ensures var n := Notice("", "Operation in progress: " + lock.holder);
        Notices() == if n in old(Notices()) then old(Notices()) else old(Notices()) + [n]
      ensures old(Distinct(Notices())) ==> Distinct(Notices())
    {
      AddNotice(OperationNotice(lock.holder));
      lockFile := Some(lock);
    }

    /** The holder of the lock. A lock whose process is gone is removed, by root only, and its notice stays. */
    method CheckLockInfo(alive: int -> bool, root: bool) returns (holder: Option<Lock>)
      modifies this`lockFile
      ensures holder == if old(lockFile).Some? && (alive(old(lockFile).value.pid) || !root) then old(lockFile) else None
      ensures lockFile == holder
    {
      if lockFile.None? {
        return None;
      }
      if alive(lockFile.value.pid) || !root {
        return lockFile;
      }
      lockFile := None;
      return None;
    }

    /** Lock and notices as some other code leaves them. */
    method LeaveFiles(lock: Option<Lock>, notices: Option<seq<Notice>>)
      modifies this`lockFile, this`noticesFile
      ensures lockFile == lock && noticesFile == notices && (old(Valid()) ==> Valid())
    {
      lockFile, noticesFile := lock, notices;
    }

    ghost predicate HasFile(key: string)
      reads this
    {
      if key == "machine-token" then tokenFile.Some?
      else if key == "lock" then lockFile.Some?
      else if key == "notices" then noticesFile.Some?
      else key in otherFiles
    }

    twostate predicate SameFiles()
      reads this
    {
      && tokenFile == old(tokenFile) && lockFile == old(lockFile)
      && noticesFile == old(noticesFile) && otherFiles == old(otherFiles)
    }

    method RemoveFile(key: string)
      requires Valid() && (key == "machine-token" ==> cachedToken == None && cachedEntitlements == None)
      modifies this`tokenFile, this`lockFile, this`noticesFile, this`otherFiles
      ensures Valid()
      ensures otherFiles == old(otherFiles) - ({key} - OWN_FILES)
      ensures tokenFile == if key == "machine-token" then None else old(tokenFile)
      ensures lockFile == if key == "lock" then None else old(lockFile)
      ensures noticesFile == if key == "notices" then None else old(noticesFile)
    {
      if key == "machine-token" {
        tokenFile := None;
      } else if key == "lock" {
        lockFile := None;
      } else if key == "notices" {
        noticesFile := None;
      } else {
        otherFiles := otherFiles - {key};
      }
    }

    /** What goes along with a deleted file: the caches of the token, or the notices about the lock's operation. */
    method PrepareDelete(key: string)
      requires Valid()
      modifies this`cachedToken, this`cachedEntitlements, this`noticesFile
      ensures Valid()
      ensures if InvalidatesToken(key) then cachedToken == None && cachedEntitlements == None
              else cachedToken == old(cachedToken) && cachedEntitlements == old(cachedEntitlements)
      ensures if key == "lock" then Notices() == Keep(old(Notices()), IsOperation) else noticesFile == old(noticesFile)
      ensures noticesFile.Some? ==> old(noticesFile).Some?
    {
      if InvalidatesToken(key) {
        cachedToken, cachedEntitlements := None, None;
      } else if key == "lock" {
        RemoveNotice(IsOperation);
        assert Keep([], IsOperation) == [];
      }
    }

    /** Fails, as Python raises, on an empty key. */
    method DeleteCacheKey(key: string) returns (ok: bool)
      requires Valid()
      modifies this
      ensures Valid() && (ok <==> key != "")
      ensures if ok then !HasFile(key) else unchanged(this)
      ensures otherFiles == if ok then old(otherFiles) - ({key} - OWN_FILES) else old(otherFiles)
      ensures noticesFile.Some? ==> old(noticesFile).Some?
      ensures ok && key == "lock" ==> Notices() == Keep(old(Notices()), IsOperation)
      ensures ok && key == "lock" ==> OperationsGone(old(Notices()), Notices())
      ensures key != "lock" && key != "notices" ==> noticesFile == old(noticesFile)
      ensures key != "lock" ==> lockFile == old(lockFile)
      ensures key != "machine-token" ==> tokenFile == old(tokenFile)
      ensures if "machine-access" <= key || key == "machine-token"
              then cachedToken == None && cachedEntitlements == None
              else cachedToken == old(cachedToken) && cachedEntitlements == old(cachedEntitlements)
    {
      if key == "" {
        return false;
      }
      PrepareDelete(key);
      KeepAre(old(Notices()), IsOperation);
      RemoveFile(key);
      return true;
    }

    /** Whatever the order of the keys, no file of `data_paths` is left, and every other file is. */
    method DeleteCache()
      requires Valid()
      modifies this
      ensures Valid() && forall k :: IsDataPath(k) ==> !HasFile(k)
      ensures tokenFile == None && lockFile == None && noticesFile == None
      ensures forall k :: k !in OWN_FILES ==>
        Get(otherFiles, k) == if IsDataPath(k) then None else Get(old(otherFiles), k)
      ensures cachedToken == None && cachedEntitlements == None
    {
      DeleteKeys();
      assert !HasFile("machine-token") && !HasFile("lock") && !HasFile("notices");
    }

    method DeleteKeys()
      requires Valid()
      modifies this
      ensures Valid() && cachedToken == None && cachedEntitlements == None
      ensures forall k :: k in DATA_PATHS ==> !HasFile(k)
      ensures otherFiles == old(otherFiles) - (DATA_PATHS - OWN_FILES)
    {
      var todo := DATA_PATHS;
      while todo != {}
        invariant Valid() && todo <= DATA_PATHS
        invariant forall k :: k in DATA_PATHS && k !in todo ==> !HasFile(k)
        invariant otherFiles == old(otherFiles) - (DATA_PATHS - OWN_FILES - todo)
        invariant "machine-token" !in todo ==> cachedToken == None && cachedEntitlements == None
        invariant cachedToken == old(cachedToken) || cachedToken == None
      {
        var key :| key in todo;
        var _ := DeleteCacheKey(key);
        todo := todo - {key};
      }
    }
  }

  lemma {:induction false} KeepAre(notices: seq<Notice>, drop: Notice -> bool)
    ensures forall n :: n in Keep(notices, drop) <==> n in notices && !drop(n)
    ensures Distinct(notices) ==> Distinct(Keep(notices, drop))
  {
    if notices == [] {
    } else {
      KeepAre(notices[..|notices| - 1], drop);
    }
  }

  /** The order of the kept notices is the old one. */
  lemma {:induction false} KeepOrder(a: seq<Notice>, b: seq<Notice>, drop: Notice -> bool)
    ensures Keep(a + b, drop) == Keep(a, drop) + Keep(b, drop)
  {
    if b == [] {
      assert a + b == a;
    } else {
      assert (a + b)[..|a + b| - 1] == a + b[..|b| - 1];
      KeepOrder(a, b[..|b| - 1], drop);
    }
  }

  datatype Step =
    | ReadToken
    | ReadEntitlements
    | WriteToken(content: Fields)
    | WriteFile(key: string, json: Json)
    | Delete(name: string)
    | DeleteAll
    | TakeLock(lock: Lock)
    | Note(notice: Notice)

  method PerformWrite(cfg: UAConfig, step: Step)
    requires cfg.Valid()
    requires step.WriteFile? ==> step.key !in OWN_FILES
    modifies cfg
    ensures cfg.Valid() && (cfg.cachedToken == old(cfg.cachedToken) || cfg.cachedToken == None)
    ensures step.WriteToken? ==> cfg.tokenFile == Some(step.content)
    ensures step.WriteFile? ==> cfg.HasFile(step.key) && Get(cfg.otherFiles, step.key) == Some(step.json)
    ensures step.Delete? && step.name != "" ==> !cfg.HasFile(step.name)
    ensures step.DeleteAll? ==> forall k :: IsDataPath(k) ==> !cfg.HasFile(k)
  {
    match step {
      case WriteToken(content) => cfg.WriteMachineToken(content);
      case WriteFile(key, json) => cfg.WriteOther(key, json);
      case Delete(name) => var _ := cfg.DeleteCacheKey(name);
      case DeleteAll => cfg.DeleteCache();
      case _ =>
    }
  }

  method Perform(cfg: UAConfig, step: Step)
    requires cfg.Valid()
    requires step.WriteFile? ==> step.key !in OWN_FILES
    modifies cfg, cfg.Objects()
    ensures cfg.Valid() && fresh(cfg.Objects() - old(cfg.Objects()))
    ensures step.ReadToken? || step.ReadEntitlements? ==> cfg.SameFiles()
    ensures step.WriteToken? ==> cfg.tokenFile == Some(step.content)
    ensures step.WriteFile? ==> cfg.HasFile(step.key) && Get(cfg.otherFiles, step.key) == Some(step.json)
    ensures step.Delete? && step.name != "" ==> !cfg.HasFile(step.name)
    ensures step.DeleteAll? ==> forall k :: IsDataPath(k) ==> !cfg.HasFile(k)
    ensures step.TakeLock? ==> cfg.lockFile == Some(step.lock)
    ensures step.Note? ==> step.notice in cfg.Notices()
  {
    if step.ReadToken? {
      var _ := cfg.MachineToken();
    } else if step.ReadEntitlements? {
      var _ := cfg.Entitlements();
    } else if step.TakeLock? {
      cfg.WriteLock(step.lock);
    } else if step.Note? {
      cfg.AddNotice(step.notice);
    } else {
      PerformWrite(cfg, step);
    }
  }

  /** After any sequence of reads, writes and deletes, the entitlements are those of a fresh object over these files. */
  method Session(cfg: UAConfig, steps: seq<Step>) returns (r: Result<map<string, Access>, ()>)
    requires cfg.Valid()
    requires forall i :: 0 <= i < |steps| && steps[i].WriteFile? ==> steps[i].key !in OWN_FILES
    modifies cfg, cfg.Objects()
    ensures cfg.Valid()
    ensures cfg.ReadableFile() ==> r.Success? && View(r.value) == cfg.FreshEntitlements()
    ensures cfg.ShapedFile() ==> r.Success? && cfg.AnswersDocument(View(r.value))
  {
    for i := 0 to |steps|
      invariant cfg.Valid()
      invariant fresh(cfg.Objects() - old(cfg.Objects()))
    {
      Perform(cfg, steps[i]);
    }
    r := cfg.Entitlements();
  }
}
