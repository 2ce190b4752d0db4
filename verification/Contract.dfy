/** Reading a machine token: the entitlements of its contract, by name, with the series overrides applied. */
module Contract {
  import opened Common
  import opened Json
  import opened SeriesOverrides

  /** The parts of a token that the entitlements are built from: one dict and type per resource entitlement, in list
      order, and the resource tokens by type. */
  datatype Contract = Contract(docs: seq<Fields>, names: seq<string>, tokens: map<string, Json>)

  predicate Typed(x: Json) {
    x.Dict? && "type" in x.fields && x.fields["type"].Str?
  }

  function Inner(j: Option<Json>, key: string): Option<Json> {
    if j.Some? && j.value.Dict? then Get(j.value.fields, key) else None
  }

  predicate AllTyped(items: seq<Json>) {
    forall i | 0 <= i < |items| :: Typed(items[i])
  }

  predicate AllTokens(items: seq<Json>) {
    forall i | 0 <= i < |items| :: Typed(items[i]) && "token" in items[i].fields
  }

  /** Later tokens replace earlier ones of the same type. */
  function TokensByName(items: seq<Json>): map<string, Json>
    requires AllTokens(items)
  {
    if items == [] then map[]
    else
      var last := items[|items| - 1];
      assert Typed(items[|items| - 1]);
      TokensByName(items[..|items| - 1])[last.fields["type"].s := last.fields["token"]]
  }

  /** None where a key that is looked up is missing. */
  function Parse(token: Fields): (r: Option<Contract>)
    ensures r.Some? ==> |r.value.docs| == |r.value.names|
  {
    var entitlements := Inner(Inner(Get(token, "machineTokenInfo"), "contractInfo"), "resourceEntitlements");
    var tokens := if "resourceTokens" in token then token["resourceTokens"] else List([]);
    if !(entitlements.Some? && entitlements.value.List? && tokens.List?) then None
    else
      var es, ts := entitlements.value.items, tokens.items;
      if AllTyped(es) && AllTokens(ts) then
        Some(Contract(
          seq(|es|, i requires 0 <= i < |es| && Typed(es[i]) => es[i].fields),
          seq(|es|, i requires 0 <= i < |es| && Typed(es[i]) => es[i].fields["type"].s),
          TokensByName(ts)))
      else None
  }

  /** The index of the last occurrence: later documents replace earlier ones of the same type. */
  function LastOf(names: seq<string>, name: string): (r: nat)
    requires name in names
    ensures r < |names| && names[r] == name
    ensures forall i :: r < i < |names| ==> names[i] != name
  {
    if names[|names| - 1] == name then |names| - 1 else LastOf(names[..|names| - 1], name)
  }

  ghost predicate Complete(c: Contract) {
    |c.docs| == |c.names|
  }

  /** Building the entitlements raises nothing. */
  ghost predicate Buildable(c: Contract, series: string) {
    Complete(c) && forall name :: name in c.names ==> Applicable(c.docs[LastOf(c.names, name)], series)
  }

  /** One entry of the entitlements dict, as a value. */
  datatype AccessDoc = AccessDoc(entitlement: Fields, resourceToken: Option<Json>)

  /** What a fresh configuration object computes from a contract. */
  ghost function Entitlements(c: Contract, series: string): map<string, AccessDoc>
    requires Buildable(c, series)
  {
    map name | name in c.names :: AccessDoc(Overridden(c.docs[LastOf(c.names, name)], series), Get(c.tokens, name))
  }

  ghost function TypeOf(item: Json): Option<string> {
    match item
    case Dict(fields) => (match Get(fields, "type") case Some(Str(name)) => Some(name) case _ => None)
    case _ => None
  }

  ghost predicate IsNamed(items: seq<Json>, name: string, i: int) {
    0 <= i < |items| && TypeOf(items[i]) == Some(name)
  }

  ghost predicate IsLast(items: seq<Json>, name: string, i: int) {
    IsNamed(items, name, i) && forall j :: i < j ==> !IsNamed(items, name, j)
  }

  ghost predicate AllNamed(items: seq<Json>) {
    forall i :: 0 <= i < |items| ==> TypeOf(items[i]).Some?
  }

  /** A document from which the entitlements can be looked up: every key that is looked up is there. */
  ghost predicate Shaped(token: Fields) {
    && "machineTokenInfo" in token && token["machineTokenInfo"].Dict?
    && var info := token["machineTokenInfo"].fields;
      && "contractInfo" in info && info["contractInfo"].Dict?
      && var contract := info["contractInfo"].fields;
        && "resourceEntitlements" in contract && contract["resourceEntitlements"].List?
        && AllNamed(contract["resourceEntitlements"].items)
        && ("resourceTokens" in token ==>
              && token["resourceTokens"].List? && AllNamed(token["resourceTokens"].items)
              && forall i :: 0 <= i < |token["resourceTokens"].items| ==>
                   var item := token["resourceTokens"].items[i]; item.Dict? && "token" in item.fields)
  }

  ghost function ResourceEntitlements(token: Fields): seq<Json>
    requires Shaped(token)
  {
    token["machineTokenInfo"].fields["contractInfo"].fields["resourceEntitlements"].items
  }

  ghost function ResourceTokens(token: Fields): (items: seq<Json>)
    requires Shaped(token)
    ensures forall i :: 0 <= i < |items| ==> items[i].Dict? && "token" in items[i].fields
  {
    if "resourceTokens" in token then token["resourceTokens"].items else []
  }

  /** The overrides of every entitlement that counts can be applied. */
  ghost predicate AllApplicable(token: Fields, series: string)
    requires Shaped(token)
  {
    var es := ResourceEntitlements(token);
    forall name, i :: IsLast(es, name, i) ==> Applicable(es[i].fields, series)
  }

  /** The answer read off the document: the names are the types of the resource entitlements; of several of a type the
      last one counts, with its overrides applied; and the token is that of the last resource token of the type. */
  ghost predicate ReadOff(token: Fields, series: string, answer: map<string, AccessDoc>)
    requires Shaped(token)
  {
    var es, ts := ResourceEntitlements(token), ResourceTokens(token);
    && (forall name :: name in answer <==> exists i :: IsNamed(es, name, i))
    && (forall name, i :: IsLast(es, name, i) && name in answer ==>
          Applicable(es[i].fields, series) && answer[name].entitlement == Overridden(es[i].fields, series))
    && (forall name :: name in answer && answer[name].resourceToken == None ==> forall i :: !IsNamed(ts, name, i))
    && (forall name :: name in answer && answer[name].resourceToken != None ==> exists i :: IsNamed(ts, name, i))
    && (forall name, i :: IsLast(ts, name, i) && name in answer ==>
          answer[name].resourceToken == Some(ts[i].fields["token"]))
  }

  lemma TypedHaveType(items: seq<Json>)
    ensures AllNamed(items) <==> AllTyped(items)
    ensures AllTokens(items) <==>
      AllNamed(items) && forall i :: 0 <= i < |items| ==> items[i].Dict? && "token" in items[i].fields
  {
    forall i | 0 <= i < |items| ensures TypeOf(items[i]).Some? <==> Typed(items[i]) {
    }
  }

  lemma TokensStep(items: seq<Json>, name: string)
    requires items != [] && AllTokens(items)
    ensures var n := |items| - 1;
      && ((exists i :: IsNamed(items, name, i)) <==>
            IsNamed(items, name, n) || exists i :: IsNamed(items[..n], name, i))
      && (forall i :: IsLast(items, name, i) ==>
            if IsNamed(items, name, n) then i == n else IsLast(items[..n], name, i))
      && Get(TokensByName(items), name) ==
           if IsNamed(items, name, n) then Some(items[n].fields["token"]) else Get(TokensByName(items[..n]), name)
  {
    var n := |items| - 1;
    assert Typed(items[n]);
    forall i ensures IsNamed(items, name, i) <==> (i == n && IsNamed(items, name, n)) || IsNamed(items[..n], name, i) {
    }
  }

  lemma {:induction false} TokensAreLast(items: seq<Json>, name: string)
    requires AllTokens(items)
    ensures name in TokensByName(items) <==> exists i :: IsNamed(items, name, i)
    ensures forall i :: IsLast(items, name, i) ==> Get(TokensByName(items), name) == Some(items[i].fields["token"])
  {
    if items == [] {
    } else {
      var front, n := items[..|items| - 1], |items| - 1;
      TokensAreLast(front, name);
      TokensStep(items, name);
      assert name in TokensByName(items) <==> Get(TokensByName(items), name).Some?;
      forall i | IsLast(items, name, i)
        ensures Get(TokensByName(items), name) == Some(items[i].fields["token"])
      {
        if i < n {
          assert front[i] == items[i];
        }
      }
    }
  }

  lemma ParsesShaped(token: Fields)
    ensures Parse(token).Some? <==> Shaped(token)
  {
    var entitlements := Inner(Inner(Get(token, "machineTokenInfo"), "contractInfo"), "resourceEntitlements");
    if entitlements.Some? && entitlements.value.List? {
      TypedHaveType(entitlements.value.items);
      if "resourceTokens" in token && token["resourceTokens"].List? {
        TypedHaveType(token["resourceTokens"].items);
      }
    }
  }

  lemma LastCounts(token: Fields, name: string, i: int)
    requires Shaped(token) && Parse(token).Some?
    ensures var es, c := ResourceEntitlements(token), Parse(token).value;
      && (IsNamed(es, name, i) <==> 0 <= i < |c.names| && c.names[i] == name)
      && (0 <= i < |es| ==> |c.docs| == |es| && es[i].Dict? && c.docs[i] == es[i].fields)
      && (IsLast(es, name, i) <==> name in c.names && LastOf(c.names, name) == i)
  {
    var es, c := ResourceEntitlements(token), Parse(token).value;
    assert forall k :: IsNamed(es, name, k) <==> 0 <= k < |c.names| && c.names[k] == name;
    if name in c.names {
      assert IsNamed(es, name, LastOf(c.names, name));
    }
  }

  /** What is built from the parsed document is what it says. */
  lemma ParsedIsReadOff(token: Fields, series: string)
    requires Shaped(token) && Parse(token).Some?
    ensures Buildable(Parse(token).value, series) <==> AllApplicable(token, series)
    ensures AllApplicable(token, series) ==> ReadOff(token, series, Entitlements(Parse(token).value, series))
  {
    var es, ts, c := ResourceEntitlements(token), ResourceTokens(token), Parse(token).value;
    TypedHaveType(ts);
    forall name, i
      ensures IsNamed(es, name, i) <==> 0 <= i < |c.names| && c.names[i] == name
      ensures IsLast(es, name, i) <==> name in c.names && LastOf(c.names, name) == i
      ensures IsLast(es, name, i) ==> c.docs[i] == es[i].fields
    {
      LastCounts(token, name, i);
    }
    forall name
      ensures name in c.tokens <==> exists i :: IsNamed(ts, name, i)
      ensures forall i :: IsLast(ts, name, i) ==> Get(c.tokens, name) == Some(ts[i].fields["token"])
    {
      TokensAreLast(ts, name);
    }
    forall name | name in c.names ensures IsLast(es, name, LastOf(c.names, name)) {
    }
  }
}
