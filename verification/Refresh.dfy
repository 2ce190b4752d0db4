/** A contract refresh: new token, new entitlements, and the deltas handed to the services. */
module Refresh {
  import opened Common
  import opened Json
  import opened SeriesOverrides
  import C = Contract
  import opened Config
  import AptRepo
  import Policy

  const KNOWN: set<string> := {"cc-eal", "cis", "esm-apps", "esm-infra", "fips", "fips-updates", "livepatch"}

  /** An entitlement class has this name. */
  ghost predicate IsService(name: string) {
    exists s: AptRepo.Service :: Policy.Name(s) == name
  }

  lemma ServicesAreKnown()
    ensures forall name :: name in KNOWN <==> IsService(name)
  {
    assert Policy.Name(AptRepo.EsmApps) == "esm-apps" && Policy.Name(AptRepo.EsmInfra) == "esm-infra";
    assert Policy.Name(AptRepo.FipsUpdates) == "fips-updates" && Policy.Name(AptRepo.Fips) == "fips";
    assert Policy.Name(AptRepo.CommonCriteria) == "cc-eal" && Policy.Name(AptRepo.Cis) == "cis";
    assert Policy.Name(AptRepo.Livepatch) == "livepatch";
  }

  /** How a service's process_contract_deltas ends, and how the processing of one entitlement ends. */
  datatype Ending = Fine | UserError | Unexpected

  datatype Call = Call(service: string, deltas: Fields)

  datatype Processed = Processed(call: Option<Call>, ending: Ending)

  function AccessFields(entitlement: Fields, token: Option<Json>): Fields {
    var m: Fields := map["entitlement" := Dict(entitlement)];
    if token.Some? then m["resourceToken" := token.value] else m
  }

  function PastFields(past: Option<C.AccessDoc>): Fields {
    if past.Some? then AccessFields(past.value.entitlement, past.value.resourceToken) else map[]
  }

  /** access.get("entitlement", {}).get("type"): None where the first is no dict. */
  function TypeIn(access: Fields): Option<Json> {
    if "entitlement" !in access then Some(Null)
    else if !access["entitlement"].Dict? then None
    else if "type" in access["entitlement"].fields then Some(access["entitlement"].fields["type"])
    else Some(Null)
  }

  /** The service a non-empty delta is for: the old type, else the new one. */
  function ServiceOf(orig: Fields, deltas: Fields): Option<Json> {
    var old_ := TypeIn(orig);
    if old_.None? || Truthy(old_.value) then old_ else TypeIn(deltas)
  }

  /** A list or a dict cannot be looked up in the dict of known services. */
  predicate Hashable(j: Json) {
    !j.List? && !j.Dict?
  }

  ghost function Dispatch(orig: Fields, deltas: Fields, react: Call -> Ending): Processed {
    var name := ServiceOf(orig, deltas);
    if deltas == map[] then Processed(None, Fine)
    else if name.None? || !Truthy(name.value) then Processed(None, Unexpected)
    else if !Hashable(name.value) then Processed(None, Unexpected)
    else if !name.value.Str? || name.value.s !in KNOWN then Processed(None, Fine)
    else Processed(Some(Call(name.value.s, deltas)), react(Call(name.value.s, deltas)))
  }

  /** Processing one entitlement: overrides once more, diff, dispatch. */
  ghost function Step(past: Option<C.AccessDoc>, now: C.AccessDoc, series: string, react: Call -> Ending): Processed {
    if !Applicable(now.entitlement, series) then Processed(None, Unexpected)
    else
      var orig, new_ := PastFields(past), AccessFields(Overridden(now.entitlement, series), now.resourceToken);
      if !Comparable(Dict(orig), Dict(new_)) then Processed(None, Unexpected)
      else Dispatch(orig, Delta(Dict(orig), Dict(new_)), react)
  }

  method ProcessEntitlementDelta(past: Option<C.AccessDoc>, now: Access, series: string, react: Call -> Ending)
    returns (r: Processed)
    modifies now.entitlement
    ensures r == old(Step(past, C.AccessDoc(now.entitlement.fields, now.resourceToken), series, react))
    ensures old("series" !in now.entitlement.fields) ==> now.entitlement.fields == old(now.entitlement.fields)
  {
    ghost var was := now.entitlement.fields;
    assert "series" !in was ==> was - {"series"} == was && Overridden(was, series) == was;
    var ok := now.entitlement.ApplySeriesOverrides(series);
    if !ok {
      return Processed(None, Unexpected);
    }
    var orig := PastFields(past);
    var deltas := GetDictDeltas(orig, AccessFields(now.entitlement.fields, now.resourceToken));
    if deltas.Failure? {
      return Processed(None, Unexpected);
    }
    if deltas.value == map[] {
      return Processed(None, Fine);
    }
    var name := ServiceOf(orig, deltas.value);
    if name.None? || !Truthy(name.value) {
      return Processed(None, Unexpected);
    }
    if !Hashable(name.value) {
      return Processed(None, Unexpected);
    }
    if !name.value.Str? || name.value.s !in KNOWN {
      return Processed(None, Fine);
    }
    var call := Call(name.value.s, deltas.value);
    return Processed(Some(call), react(call));
  }

  /** A document without a `series` key and without the dropped-key marker. */
  ghost predicate Settled(a: C.AccessDoc) {
    "series" !in a.entitlement && Plain(Dict(AccessFields(a.entitlement, a.resourceToken)))
  }

  lemma ComparableToItself(j: Json)
    ensures Comparable(j, j)
  {
  }

  /** An unchanged entitlement is never handed to its service; the second application of overrides and the diff are both
      without effect. */
  lemma UnchangedIsQuiet(a: C.AccessDoc, series: string, react: Call -> Ending)
    requires Settled(a)
    ensures Step(Some(a), a, series, react) == Processed(None, Fine)
  {
    var e := a.entitlement;
    assert e - {"series"} == e;
    assert Overridden(e, series) == e;
    var doc := Dict(AccessFields(e, a.resourceToken));
    ComparableToItself(doc);
    DeltaKeys(doc, doc);
  }

  /** A document that carries its own name. */
  ghost predicate Named(a: C.AccessDoc, name: string) {
    "type" in a.entitlement && a.entitlement["type"] == Str(name)
  }

  lemma SettledStep(past: Option<C.AccessDoc>, now: C.AccessDoc, series: string, react: Call -> Ending)
    requires Settled(now) && Comparable(Dict(PastFields(past)), Dict(PastFields(Some(now))))
    ensures Step(past, now, series, react) ==
      Dispatch(PastFields(past), Delta(Dict(PastFields(past)), Dict(PastFields(Some(now)))), react)
  {
    assert now.entitlement - {"series"} == now.entitlement;
    assert Overridden(now.entitlement, series) == now.entitlement;
  }

  lemma AccessFieldsDiffer(a: C.AccessDoc, b: C.AccessDoc)
    requires a != b
    ensures PastFields(Some(a)) != PastFields(Some(b))
  {
    var o, n := PastFields(Some(a)), PastFields(Some(b));
    assert o["entitlement"] == Dict(a.entitlement) && n["entitlement"] == Dict(b.entitlement);
    assert Get(o, "resourceToken") == a.resourceToken && Get(n, "resourceToken") == b.resourceToken;
  }

  lemma PastDiffers(past: Option<C.AccessDoc>, now: C.AccessDoc)
    requires past != Some(now)
    ensures PastFields(past) != PastFields(Some(now))
  {
    assert "entitlement" in PastFields(Some(now));
    if past.Some? {
      AccessFieldsDiffer(past.value, now);
    }
  }

  /** The name is found in the old document, or else in the delta, which then holds the whole new one. */
  lemma ServiceFound(past: Option<C.AccessDoc>, now: C.AccessDoc, name: string)
    requires Named(now, name) && name != "" && (past.Some? ==> Named(past.value, name))
    ensures ServiceOf(PastFields(past), Delta(Dict(PastFields(past)), Dict(PastFields(Some(now))))) == Some(Str(name))
  {
    if past.Some? {
      assert PastFields(past)["entitlement"] == Dict(past.value.entitlement);
    } else {
      var o, n := Dict(PastFields(past)), Dict(PastFields(Some(now)));
      DeltaAt(o, n, "entitlement");
      assert Get(Delta(o, n), "entitlement") == Some(Dict(now.entitlement));
    }
  }

  lemma PastPlain(past: Option<C.AccessDoc>)
    requires past.Some? ==> Settled(past.value)
    ensures Plain(Dict(PastFields(past)))
  {
  }

  lemma DeltaDispatched(o: Fields, n: Fields, name: string, react: Call -> Ending)
    requires Plain(Dict(o)) && Plain(Dict(n)) && Comparable(Dict(o), Dict(n)) && o != n
    requires ServiceOf(o, Delta(Dict(o), Dict(n))) == Some(Str(name)) && name in KNOWN
    ensures var d := Delta(Dict(o), Dict(n));
      Dispatch(o, d, react) == Processed(Some(Call(name, d)), react(Call(name, d))) && Patch(Dict(o), d) == n
  {
    DeltaKeys(Dict(o), Dict(n));
    DiffRoundTrip(Dict(o), Dict(n));
  }

  /** A changed or new entitlement of a known service is handed to it, with a delta from which the new document can be
      rebuilt. */
  lemma ChangeIsDelivered(past: Option<C.AccessDoc>, now: C.AccessDoc, name: string, series: string,
      react: Call -> Ending)
    requires Settled(now) && Named(now, name) && IsService(name) && past != Some(now)
    requires past.Some? ==> Settled(past.value) && Named(past.value, name)
    requires Comparable(Dict(PastFields(past)), Dict(PastFields(Some(now))))
    ensures var r := Step(past, now, series, react);
      && r.call.Some? && r.call.value.service == name && r.ending == react(r.call.value)
      && Patch(Dict(PastFields(past)), r.call.value.deltas) == PastFields(Some(now))
  {
    PastDiffers(past, now);
    SettledStep(past, now, series, react);
    ServiceFound(past, now, name);
    PastPlain(past);
    PastPlain(Some(now));
    ServicesAreKnown();
    DeltaDispatched(PastFields(past), PastFields(Some(now)), name, react);
  }

  function Lookup(docs: map<string, C.AccessDoc>, name: string): Option<C.AccessDoc> {
    if name in docs then Some(docs[name]) else None
  }

  /** The outcome of one entitlement of the new contract. */
  ghost function Outcome(past: map<string, C.AccessDoc>, now: map<string, C.AccessDoc>, series: string,
      react: Call -> Ending, name: string): Processed
    requires name in now
  {
    Step(Lookup(past, name), now[name], series, react)
  }

  /** The outcomes in the order in which the new entitlements are visited. */
  ghost function Outcomes(names: seq<string>, past: map<string, C.AccessDoc>, now: map<string, C.AccessDoc>,
      series: string, react: Call -> Ending): seq<Processed>
    requires forall i :: 0 <= i < |names| ==> names[i] in now
  {
    seq(|names|, i requires 0 <= i < |names| => Outcome(past, now, series, react, names[i]))
  }

  ghost function Calls(outcomes: seq<Processed>): seq<Call> {
    if outcomes == [] then []
    else
      var last := outcomes[|outcomes| - 1];
      Calls(outcomes[..|outcomes| - 1]) + if last.call.Some? then [last.call.value] else []
  }

  ghost predicate SomeEnd(outcomes: seq<Processed>, ending: Ending) {
    exists i | 0 <= i < |outcomes| :: outcomes[i].ending == ending
  }

  /** An unexpected error outweighs a user-facing one. */
  ghost function Overall(outcomes: seq<Processed>): Ending {
    if SomeEnd(outcomes, Unexpected) then Unexpected else if SomeEnd(outcomes, UserError) then UserError else Fine
  }

  /** Refreshing an unchanged contract: no service is told anything and nothing is raised. */
  lemma {:induction false} UnchangedContractIsQuiet(
    names: seq<string>, docs: map<string, C.AccessDoc>, series: string, react: Call -> Ending)
    requires forall i :: 0 <= i < |names| ==> names[i] in docs && Settled(docs[names[i]])
    ensures Calls(Outcomes(names, docs, docs, series, react)) == [] &&
      Overall(Outcomes(names, docs, docs, series, react)) == Fine
  {
    var outcomes := Outcomes(names, docs, docs, series, react);
    forall i | 0 <= i < |names| ensures outcomes[i] == Processed(None, Fine) {
      UnchangedIsQuiet(docs[names[i]], series, react);
    }
    NothingToTell(outcomes);
  }

  lemma {:induction false} NothingToTell(outcomes: seq<Processed>)
    requires forall i :: 0 <= i < |outcomes| ==> outcomes[i] == Processed(None, Fine)
    ensures Calls(outcomes) == []
  {
    if outcomes == [] {
    } else {
      NothingToTell(outcomes[..|outcomes| - 1]);
    }
  }

  ghost predicate AllSettled(docs: map<string, C.AccessDoc>) {
    forall name :: name in docs ==> Settled(docs[name])
  }

  /** Each document is settled and named after its key, and those kept can be compared with their old version. */
  ghost predicate WellFormed(past: map<string, C.AccessDoc>, now: map<string, C.AccessDoc>) {
    && AllSettled(past) && AllSettled(now)
    && (forall name :: name in past ==> Named(past[name], name))
    && (forall name :: name in now ==> Named(now[name], name))
    && (forall name :: name in now ==>
      Comparable(Dict(PastFields(Lookup(past, name))), Dict(PastFields(Some(now[name])))))
  }

  /** The known services among the names whose document is new or changed. */
  ghost function Changed(names: seq<string>, past: map<string, C.AccessDoc>, now: map<string, C.AccessDoc>)
    : seq<string>
  {
    if names == [] then []
    else
      var last := names[|names| - 1];
      Changed(names[..|names| - 1], past, now) +
      if IsService(last) && Lookup(past, last) != Lookup(now, last) then [last] else []
  }

  ghost function Told(calls: seq<Call>): seq<string> {
    seq(|calls|, i requires 0 <= i < |calls| => calls[i].service)
  }

  /** An empty name is looked for in the delta as well, where an unchanged type does not appear. */
  lemma NamelessService(past: Option<C.AccessDoc>, now: C.AccessDoc)
    requires Named(now, "") && (past.Some? ==> Named(past.value, ""))
    ensures var name := ServiceOf(PastFields(past), Delta(Dict(PastFields(past)), Dict(PastFields(Some(now)))));
      name.None? || !Truthy(name.value)
  {
    var o, n := Dict(PastFields(past)), Dict(PastFields(Some(now)));
    DeltaAt(o, n, "entitlement");
    if past.Some? {
      assert o.fields["entitlement"] == Dict(past.value.entitlement) &&
        n.fields["entitlement"] == Dict(now.entitlement);
      DeltaAt(Dict(past.value.entitlement), Dict(now.entitlement), "type");
    } else {
      assert Get(Delta(o, n), "entitlement") == Some(Dict(now.entitlement));
    }
  }

  lemma UnknownIsNotTold(past: Option<C.AccessDoc>, now: C.AccessDoc, name: string, series: string,
      react: Call -> Ending)
    requires Settled(now) && Named(now, name) && !IsService(name) && (past.Some? ==> Named(past.value, name))
    requires Comparable(Dict(PastFields(past)), Dict(PastFields(Some(now))))
    ensures Step(past, now, series, react).call.None?
  {
    SettledStep(past, now, series, react);
    ServicesAreKnown();
    if name == "" {
      NamelessService(past, now);
    } else {
      ServiceFound(past, now, name);
    }
  }

  /** What becomes of a new entitlement is decided by its type: a falsy one, a list or a dict is an unexpected error,
      the name of an entitlement class is told, and anything else is passed over. */
  lemma TypeDecides(now: C.AccessDoc, kind: Json, series: string, react: Call -> Ending)
    requires Settled(now) && Get(now.entitlement, "type") == Some(kind)
    ensures var r := Step(None, now, series, react);
      if kind.List? || kind.Dict? || kind in [Null, Bool(false), Num(0), Str("")] then r == Processed(None, Unexpected)
      else if kind.Str? && IsService(kind.s) then r.call.Some? && r.call.value.service == kind.s
      else r == Processed(None, Fine)
  {
    SettledStep(None, now, series, react);
    ServicesAreKnown();
    var o, n := Dict(map[]), Dict(PastFields(Some(now)));
    DeltaAt(o, n, "entitlement");
    assert Get(Delta(o, n), "entitlement") == Some(Dict(now.entitlement));
  }

  ghost predicate ToldRightly(r: Processed, before: Option<C.AccessDoc>, after: C.AccessDoc, name: string) {
    && (r.call.Some? <==> IsService(name) && before != Some(after))
    && (r.call.Some? ==>
          && r.call.value.service == name
          && Patch(Dict(PastFields(before)), r.call.value.deltas) == PastFields(Some(after)))
  }

  lemma OneCall(past: map<string, C.AccessDoc>, now: map<string, C.AccessDoc>, series: string, react: Call -> Ending,
      name: string)
    requires WellFormed(past, now) && name in now
    ensures ToldRightly(Outcome(past, now, series, react, name), Lookup(past, name), now[name], name)
  {
    var before := Lookup(past, name);
    if before == Some(now[name]) {
      UnchangedIsQuiet(now[name], series, react);
    } else if IsService(name) {
      ChangeIsDelivered(before, now[name], name, series, react);
    } else {
      UnknownIsNotTold(before, now[name], name, series, react);
    }
  }

  lemma {:induction false} ToldAre(
    names: seq<string>, outcomes: seq<Processed>, past: map<string, C.AccessDoc>, now: map<string, C.AccessDoc>)
    requires |outcomes| == |names| && forall i :: 0 <= i < |names| ==> names[i] in now
    requires forall i :: 0 <= i < |names| ==> ToldRightly(outcomes[i], Lookup(past, names[i]), now[names[i]], names[i])
    ensures Told(Calls(outcomes)) == Changed(names, past, now)
    ensures forall c :: c in Calls(outcomes) ==>
      c.service in now && Patch(Dict(PastFields(Lookup(past, c.service))), c.deltas) ==
        PastFields(Lookup(now, c.service))
  {
    if names == [] {
    } else {
      ToldAre(names[..|names| - 1], outcomes[..|outcomes| - 1], past, now);
    }
  }

  /** The services told are exactly the known ones that are new or changed, in order; each gets a delta from which its
      new document can be rebuilt. One missing from the new contract is never told. */
  lemma ChangedAreTold(names: seq<string>, past: map<string, C.AccessDoc>, now: map<string, C.AccessDoc>,
      series: string, react: Call -> Ending)
    requires WellFormed(past, now) && forall i :: 0 <= i < |names| ==> names[i] in now
    ensures var calls := Calls(Outcomes(names, past, now, series, react));
      && Told(calls) == Changed(names, past, now)
      && forall c :: c in calls ==>
           c.service in now && Patch(Dict(PastFields(Lookup(past, c.service))), c.deltas) ==
             PastFields(Lookup(now, c.service))
  {
    var outcomes := Outcomes(names, past, now, series, react);
    forall i | 0 <= i < |names|
      ensures ToldRightly(outcomes[i], Lookup(past, names[i]), now[names[i]], names[i])
    {
      OneCall(past, now, series, react, names[i]);
    }
    ToldAre(names, outcomes, past, now);
  }

  /** What the loop accumulates. */
  datatype Tally = Tally(calls: seq<Call>, deltaError: bool, unexpectedError: bool)

  function Count(t: Tally, r: Processed): Tally {
    Tally(
      t.calls + if r.call.Some? then [r.call.value] else [],
      t.deltaError || r.ending == UserError,
      t.unexpectedError || r.ending == Unexpected)
  }

  ghost function Tallied(outcomes: seq<Processed>): Tally {
    if outcomes == [] then Tally([], false, false)
    else Count(Tallied(outcomes[..|outcomes| - 1]), outcomes[|outcomes| - 1])
  }

  lemma {:induction false} TalliedIs(outcomes: seq<Processed>)
    ensures Tallied(outcomes) == Tally(Calls(outcomes), SomeEnd(outcomes, UserError), SomeEnd(outcomes, Unexpected))
  {
    if outcomes == [] {
    } else {
      var front, last := outcomes[..|outcomes| - 1], outcomes[|outcomes| - 1];
      TalliedIs(front);
      forall e ensures SomeEnd(outcomes, e) <==> SomeEnd(front, e) || last.ending == e {
        if SomeEnd(front, e) {
          var j :| 0 <= j < |front| && front[j].ending == e;
          assert outcomes[j].ending == e;
        }
      }
    }
  }

  lemma OneMoreOutcome(outcomes: seq<Processed>, i: nat)
    requires i < |outcomes|
    ensures Tallied(outcomes[..i + 1]) == Count(Tallied(outcomes[..i]), outcomes[i])
  {
    TakeOneMore(outcomes, i);
  }

  /** The dicts of the entries hold these documents, except those already processed that have overrides left. */
  ghost predicate Mirrors(docs: map<string, C.AccessDoc>, m: map<string, Access>, rest: set<string>)
    reads set name | name in m :: m[name].entitlement
  {
    && docs.Keys == m.Keys
    && forall name :: name in m ==>
         && docs[name].resourceToken == m[name].resourceToken
         && (name in rest || "series" !in docs[name].entitlement ==>
           m[name].entitlement.fields == docs[name].entitlement)
  }

  /** One pass of the loop body. */
  method ProcessNamed(
    past: map<string, C.AccessDoc>, now: map<string, Access>, series: string, react: Call -> Ending, name: string,
    ghost after: map<string, C.AccessDoc>, ghost rest: set<string>)
    returns (r: Processed)
    requires Separate(now) && name in now && name in rest && Mirrors(after, now, rest)
    modifies now[name].entitlement
    ensures r == Outcome(past, after, series, react, name) && Mirrors(after, now, rest - {name})
  {
    r := ProcessEntitlementDelta(Lookup(past, name), now[name], series, react);
  }

  /** An error in one entitlement does not stop the others. */
  method ProcessInOrder(
    names: seq<string>, past: map<string, C.AccessDoc>, now: map<string, Access>, series: string, react: Call -> Ending)
    returns (calls: seq<Call>, raised: Ending)
    requires Separate(now) && Distinct(names) && forall i :: 0 <= i < |names| ==> names[i] in now
    modifies set name | name in now :: now[name].entitlement
    ensures var outcomes := Outcomes(names, past, old(View(now)), series, react);
      calls == Calls(outcomes) && raised == Overall(outcomes)
    ensures Mirrors(old(View(now)), now, {})
  {
    var tally := Tally([], false, false);
    ghost var after, rest := View(now), now.Keys;
    ghost var outcomes := Outcomes(names, past, after, series, react);
    for i := 0 to |names|
      invariant forall j :: i <= j < |names| ==> names[j] in rest
      invariant Mirrors(after, now, rest)
      invariant tally == Tallied(outcomes[..i])
    {
      var r := ProcessNamed(past, now, series, react, names[i], after, rest);
      rest := rest - {names[i]};
      OneMoreOutcome(outcomes, i);
      tally := Count(tally, r);
    }
    assert outcomes[..|names|] == outcomes;
    TalliedIs(outcomes);
    return tally.calls, if tally.unexpectedError then Unexpected else if tally.deltaError then UserError else Fine;
  }

  method ProcessEntitlementsDelta(
    past: map<string, C.AccessDoc>, now: map<string, Access>, series: string, react: Call -> Ending)
    returns (calls: seq<Call>, raised: Ending)
    requires Separate(now)
    modifies set name | name in now :: now[name].entitlement
    ensures var outcomes := Outcomes(SortedKeys(now.Keys), past, old(View(now)), series, react);
      calls == Calls(outcomes) && raised == Overall(outcomes)
    ensures Mirrors(old(View(now)), now, {})
  {
    calls, raised := ProcessInOrder(SortedKeys(now.Keys), past, now, series, react);
  }

  datatype Reply = Token(content: Fields) | Refused

  datatype Refreshed =
    | NotAsked          // the machine's own token cannot be used for the request
    | NotAnswered
    | Unread            // the new token was written but cannot be read
    | Done(calls: seq<Call>, raised: Ending)

  /** The token holds what a request for a new one needs. */
  predicate Usable(token: Fields) {
    var id := C.Inner(C.Inner(Get(token, "machineTokenInfo"), "contractInfo"), "id");
    "machineToken" in token && id.Some?
  }

  /** The token document of a fresh configuration object; {} when there is none. */
  ghost function FreshToken(cfg: UAConfig): Fields
    requires cfg.ReadableFile()
    reads cfg`tokenFile
  {
    if cfg.tokenFile.None? || cfg.tokenFile.value == map[] then map[]
    else TokenFrom(cfg.tokenFile.value, cfg.overlay).value
  }

  /** The machine's token and the id of its contract are in the document. */
  ghost predicate NamesContract(token: Fields) {
    && "machineToken" in token && "machineTokenInfo" in token && token["machineTokenInfo"].Dict?
    && "contractInfo" in token["machineTokenInfo"].fields
    && token["machineTokenInfo"].fields["contractInfo"].Dict?
    && "id" in token["machineTokenInfo"].fields["contractInfo"].fields
  }

  /** Enough is known to ask: a first token on an unattached machine, or an update on an attached one. */
  ghost predicate Asks(contractToken: bool, token: Fields) {
    if contractToken then token == map[] else NamesContract(token)
  }

  ghost predicate NoOverridesLeft(docs: map<string, C.AccessDoc>) {
    forall name :: name in docs ==> "series" !in docs[name].entitlement
  }

  /** The result of handing the differences between two sets of entitlements to the services. */
  ghost function Delivered(
    past: map<string, C.AccessDoc>, now: map<string, C.AccessDoc>, series: string, react: Call -> Ending): Refreshed
  {
    var outcomes := Outcomes(SortedKeys(now.Keys), past, now, series, react);
    Done(Calls(outcomes), Overall(outcomes))
  }

  /** The same entitlements again: nobody is told and nothing is raised. */
  lemma QuietRefresh(docs: map<string, C.AccessDoc>, series: string, react: Call -> Ending)
    requires AllSettled(docs)
    ensures Delivered(docs, docs, series, react) == Done([], Fine)
  {
    UnchangedContractIsQuiet(SortedKeys(docs.Keys), docs, series, react);
  }

  /** The second application of overrides happens inside the cached token; it is harmless where none are left. */
  method DeliverCached(cfg: UAConfig, past: map<string, C.AccessDoc>, now: map<string, Access>, series: string,
      react: Call -> Ending) returns (r: Refreshed)
    requires cfg.Valid() && Separate(now) && forall name :: name in now ==> now[name].entitlement in cfg.Entries()
    modifies set name | name in now :: now[name].entitlement
    ensures r == Delivered(past, old(View(now)), series, react)
    ensures NoOverridesLeft(old(View(now))) ==> cfg.Valid()
  {
    var calls, raised := ProcessEntitlementsDelta(past, now, series, react);
    if NoOverridesLeft(old(View(now))) {
      cfg.StillValid();
    }
    return Done(calls, raised);
  }

  /** From the old entitlements to the new ones, once the new token is written. */
  method ReactToNewToken(cfg: UAConfig, past: map<string, Access>, series: string, react: Call -> Ending)
    returns (r: Refreshed)
    requires cfg.Valid() && cfg.cachedEntitlements == None && cfg.cachedToken == None
    modifies cfg`cachedToken, cfg`cachedEntitlements
    ensures (r.Done? || r.Unread?) && (r.Unread? <==> !cfg.ReadableFile())
    ensures cfg.ReadableFile() ==> r == Delivered(old(View(past)), cfg.FreshEntitlements(), series, react)
    ensures cfg.ReadableFile() && NoOverridesLeft(cfg.FreshEntitlements()) ==> cfg.Valid()
  {
    var docs := View(past);
    var now := cfg.Entitlements();
    if now.Failure? {
      return Unread;
    }
    forall name | name in now.value ensures fresh(now.value[name].entitlement) {
      assert now.value[name].entitlement in cfg.Objects();
    }
    r := DeliverCached(cfg, docs, now.value, series, react);
  }

  /** The entitlements before the request; None where reading raises or nothing can be asked. */
  method ReadBefore(cfg: UAConfig, contractToken: bool) returns (r: Option<map<string, Access>>)
    requires cfg.Valid()
    modifies cfg`cachedToken, cfg`cachedEntitlements, cfg.Objects()
    ensures cfg.Valid()
    ensures cfg.ReadableFile() ==>
      && (r.Some? <==> Asks(contractToken, FreshToken(cfg)))
      && (r.Some? ==> View(r.value) == cfg.FreshEntitlements())
  {
    var token := cfg.MachineToken();
    if token.Failure? {
      return None;
    }
    var entitlements := cfg.Entitlements();
    if entitlements.Failure? {
      return None;
    }
    var attached := token.value.Some?;
    if if contractToken then attached else !attached || !Usable(token.value.value.raw) {
      return None;
    }
    return Some(entitlements.value);
  }

  method WriteReply(cfg: UAConfig, content: Fields, machineId: Option<string>)
    requires cfg.Valid()
    modifies cfg`tokenFile, cfg`otherFiles, cfg`cachedToken, cfg`cachedEntitlements
    ensures cfg.Valid() && cfg.cachedEntitlements == None && cfg.cachedToken == None
    ensures cfg.tokenFile == Some(content)
    ensures cfg.otherFiles ==
      if machineId.Some? then old(cfg.otherFiles)["machine-id" := Str(machineId.value)] else old(cfg.otherFiles)
  {
    cfg.WriteMachineToken(content);
    if machineId.Some? {
      cfg.WriteOther("machine-id", Str(machineId.value));
    }
  }

  /** Up to the writing of the new token: the old entitlements, or why there is no new token. */
  method AskForToken(cfg: UAConfig, contractToken: bool, reply: Reply, machineId: string)
    returns (orig: Result<map<string, Access>, Refreshed>)
    requires cfg.Valid()
    modifies cfg`tokenFile, cfg`otherFiles, cfg`cachedToken, cfg`cachedEntitlements, cfg.Objects()
    ensures cfg.Valid()
    ensures orig.Failure? ==> cfg.tokenFile == old(cfg.tokenFile) && cfg.otherFiles == old(cfg.otherFiles)
    ensures orig.Failure? ==> orig.error == NotAsked || (orig.error == NotAnswered && reply.Refused?)
    ensures orig.Success? ==> reply.Token? && cfg.tokenFile == Some(reply.content)
    ensures orig.Success? ==> cfg.cachedEntitlements == None && cfg.cachedToken == None
    ensures old(cfg.ReadableFile()) ==>
      && (orig == Failure(NotAsked) <==> !Asks(contractToken, old(FreshToken(cfg))))
      && (orig.Success? ==> View(orig.value) == old(cfg.FreshEntitlements()))
  {
    var before := ReadBefore(cfg, contractToken);
    if before.None? {
      return Failure(NotAsked);
    }
    if reply.Refused? {
      return Failure(NotAnswered);
    }
    ghost var docs := View(before.value);
    assert old(cfg.ReadableFile()) ==>
      Asks(contractToken, old(FreshToken(cfg))) && docs == old(cfg.FreshEntitlements());
    WriteReply(cfg, reply.content, if contractToken then None else Some(machineId));
    assert View(before.value) == docs;
    return Success(before.value);
  }

  /** A refresh, or the first request of an attach. An error before the new token is written leaves the files alone. */
  method RequestUpdatedContract(
    cfg: UAConfig, contractToken: bool, reply: Reply, machineId: string, series: string, react: Call -> Ending)
    returns (r: Refreshed)
    requires cfg.Valid()
    modifies cfg`tokenFile, cfg`otherFiles, cfg`cachedToken, cfg`cachedEntitlements, cfg.Objects()
    ensures r.NotAsked? || r.NotAnswered? ==>
      cfg.Valid() && cfg.tokenFile == old(cfg.tokenFile) && cfg.otherFiles == old(cfg.otherFiles)
    ensures r.Unread? || r.Done? ==> reply.Token? && cfg.tokenFile == Some(reply.content)
    ensures old(cfg.ReadableFile()) ==>
      && (r.NotAsked? <==> !Asks(contractToken, old(FreshToken(cfg))))
      && (r.NotAnswered? <==> Asks(contractToken, old(FreshToken(cfg))) && reply.Refused?)
    ensures old(cfg.ReadableFile()) && cfg.ReadableFile() && (r.Unread? || r.Done?) ==>
      r == Delivered(old(cfg.FreshEntitlements()), cfg.FreshEntitlements(), series, react)
    ensures old(cfg.ReadableFile()) && cfg.ReadableFile() && (r.Unread? || r.Done?) ==>
      old(cfg.FreshEntitlements()) == cfg.FreshEntitlements() && AllSettled(cfg.FreshEntitlements()) ==>
        r == Done([], Fine)
    ensures r.Done? && cfg.ReadableFile() && NoOverridesLeft(cfg.FreshEntitlements()) ==> cfg.Valid()
  {
    var orig := AskForToken(cfg, contractToken, reply, machineId);
    if orig.Failure? {
      return orig.error;
    }
    r := ReactToNewToken(cfg, orig.value, series, react);
    if cfg.ReadableFile() && AllSettled(cfg.FreshEntitlements()) {
      QuietRefresh(cfg.FreshEntitlements(), series, react);
    }
  }
}
