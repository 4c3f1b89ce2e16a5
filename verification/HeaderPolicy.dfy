/**
 The operator's ClientTrafficPolicy on each shared listener: it removes identity headers a caller sent and
 otherwise carries the settings of the Gateway-wide policy it replaces there. One pass brings it up to date.
 */
module HeaderPolicy {
  import opened Common
  import opened StringOrder

  // ---- Unstructured objects ----

  /** A JSON value; Scalar stands for a number, a truth value or null. */
  datatype Json = Obj(fields: map<string, Json>) | Arr(items: seq<Json>) | Str(text: string) | Scalar(v: int)

  type Spec = map<string, Json>

  function NestedSlice(s: Spec, k: string): seq<Json> { if k in s && s[k].Arr? then s[k].items else [] }

  function Strings(xs: seq<Json>): seq<string>
    requires forall x :: x in xs ==> x.Str?
  {
    if xs == [] then [] else Strings(xs[..|xs| - 1]) + [xs[|xs| - 1].text]
  }

  /** A list with anything but strings in it reads as no list. */
  function NestedStringSlice(s: Spec, k: string): seq<string> {
    var xs := NestedSlice(s, k);
    if forall x :: x in xs ==> x.Str? then Strings(xs) else []
  }

  function Texts(xs: seq<string>): seq<Json> { if xs == [] then [] else Texts(xs[..|xs| - 1]) + [Str(xs[|xs| - 1])] }

  /** fmt's %v. */
  type Printed = Json -> string

  predicate ValueEqual(show: Printed, a: Json, b: Json)
    decreases a
  {
    match a
    case Obj(fields) =>
      b.Obj? && |fields| == |b.fields|
      && forall k :: k in fields ==> k in b.fields && ValueEqual(show, fields[k], b.fields[k])
    case Arr(items) =>
      b.Arr? && |items| == |b.items| && forall i :: 0 <= i < |items| ==> ValueEqual(show, items[i], b.items[i])
    case _ => show(a) == show(b)
  }

  predicate SpecsEqual(show: Printed, a: Spec, b: Spec) { ValueEqual(show, Obj(a), Obj(b)) }

  lemma {:induction false} ValueEqualReflexive(show: Printed, a: Json)
    ensures ValueEqual(show, a, a)
    decreases a
  {
    match a
    case Obj(fields) =>
      forall k | k in fields ensures ValueEqual(show, fields[k], fields[k]) { ValueEqualReflexive(show, fields[k]); }
    case Arr(items) =>
      forall i | 0 <= i < |items| ensures ValueEqual(show, items[i], items[i]) { ValueEqualReflexive(show, items[i]); }
    case _ =>
  }

  lemma SpecsEqualReflexive(show: Printed, a: Spec)
    ensures SpecsEqual(show, a, a)
  {
    ValueEqualReflexive(show, Obj(a));
  }

  // ---- The policy built ----

  const TARGET_REF := "targetRef"
  const TARGET_REFS := "targetRefs"
  const TARGET_SELECTORS := "targetSelectors"
  const HEADERS := "headers"
  const REQUEST_ID := "requestID"
  const EARLY := "earlyRequestHeaders"
  const REMOVE := "remove"
  const GROUP := "group"
  const KIND := "kind"
  const NAME := "name"
  const SECTION := "sectionName"

  const IDENTITY_HEADERS := ["x-llm-client-id", "x-auth-user", "x-auth-subject", "x-auth-groups"]

  /** The list with each identity header appended unless it is there. */
  function AddMissing(remove: seq<string>, headers: seq<string>): seq<string> {
    if headers == [] then remove
    else
      var rest, h := AddMissing(remove, headers[..|headers| - 1]), headers[|headers| - 1];
      if h in rest then rest else rest + [h]
  }

  function TargetRef(gateway: string, listener: string): Json {
    Obj(map[GROUP := Str("gateway.networking.k8s.io"), KIND := Str("Gateway"), NAME := Str(gateway),
            SECTION := Str(listener)])
  }

  /** The object under k, empty if there is none. */
  function Sub(s: Spec, k: string): Spec { if k in s && s[k].Obj? then s[k].fields else map[] }

  function BuiltEarly(early: Spec): Spec {
    early[REMOVE := Arr(Texts(AddMissing(NestedStringSlice(early, REMOVE), IDENTITY_HEADERS)))]
  }

  function BuiltHeaders(headers: Spec): Spec {
    headers[REQUEST_ID := Str("Generate")][EARLY := Obj(BuiltEarly(Sub(headers, EARLY)))]
  }

  function Built(gateway: string, listener: string, inherited: Spec): Spec {
    (inherited - {TARGET_REF, TARGET_REFS, TARGET_SELECTORS})
      [TARGET_REFS := Arr([TargetRef(gateway, listener)])][HEADERS := Obj(BuiltHeaders(Sub(inherited, HEADERS)))]
  }

  method AddRemovals(early: Spec) returns (added: Spec)
    ensures added == BuiltEarly(early)
  {
    var remove := NestedStringSlice(early, REMOVE);
    for i := 0 to |IDENTITY_HEADERS|
      invariant remove == AddMissing(NestedStringSlice(early, REMOVE), IDENTITY_HEADERS[..i])
    {
      assert IDENTITY_HEADERS[..i + 1][..i] == IDENTITY_HEADERS[..i];
      var h := IDENTITY_HEADERS[i];
      if h !in remove { remove := remove + [h]; }
    }
    assert IDENTITY_HEADERS[..|IDENTITY_HEADERS|] == IDENTITY_HEADERS;
    var list: seq<Json> := [];
    for i := 0 to |remove|
      invariant list == Texts(remove[..i])
    {
      assert remove[..i + 1][..i] == remove[..i];
      list := list + [Str(remove[i])];
    }
    assert remove[..|remove|] == remove;
    added := early[REMOVE := Arr(list)];
  }

  method BuildListenerHeaderPolicy(gateway: string, listener: string, inherited: Option<Spec>) returns (spec: Spec)
    ensures spec == Built(gateway, listener, if inherited.Some? then inherited.value else map[])
  {
    KeyNames();
    hide BuiltEarly, TargetRef;
    var from := if inherited.Some? then inherited.value else map[];
    spec := from - {TARGET_REF};
    spec := spec - {TARGET_REFS};
    spec := spec - {TARGET_SELECTORS};
    spec := spec[TARGET_REFS := Arr([TargetRef(gateway, listener)])];
    assert Sub(spec, HEADERS) == Sub(from, HEADERS);
    var headers := Sub(spec, HEADERS);
    headers := headers[REQUEST_ID := Str("Generate")];
    assert Sub(headers, EARLY) == Sub(Sub(from, HEADERS), EARLY);
    var early := AddRemovals(Sub(headers, EARLY));
    headers := headers[EARLY := Obj(early)];
    spec := spec[HEADERS := Obj(headers)];
    assert spec == Built(gateway, listener, from);
  }

  lemma {:induction false} AddMissingHasAll(remove: seq<string>, headers: seq<string>)
    ensures remove <= AddMissing(remove, headers)
    ensures forall h :: h in AddMissing(remove, headers) <==> h in remove || h in headers
  {
    if headers != [] {
      AddMissingHasAll(remove, headers[..|headers| - 1]);
      assert forall h :: h in headers <==> h in headers[..|headers| - 1] || h == headers[|headers| - 1];
    }
  }

  lemma {:induction false} TextsByIndex(xs: seq<string>)
    ensures |Texts(xs)| == |xs| && forall i :: 0 <= i < |xs| ==> Texts(xs)[i] == Str(xs[i])
  {
    if xs != [] { TextsByIndex(xs[..|xs| - 1]); }
  }

  lemma {:induction false} TextsAreStrings(xs: seq<string>)
    ensures |Texts(xs)| == |xs| && (forall i :: 0 <= i < |xs| ==> Texts(xs)[i] == Str(xs[i]))
    ensures (forall x :: x in Texts(xs) ==> x.Str?) && Strings(Texts(xs)) == xs
  {
    TextsByIndex(xs);
    if xs != [] {
      var n := |xs| - 1;
      TextsAreStrings(xs[..n]);
      assert Texts(xs)[..n] == Texts(xs[..n]);
      hide Texts;
    }
  }

  /** The early headers a policy removes. */
  function Removed(s: Spec): seq<string> { NestedStringSlice(Sub(Sub(s, HEADERS), EARLY), REMOVE) }

  lemma EarlyLevel(early: Spec)
    ensures var b := BuiltEarly(early);
            && NestedStringSlice(early, REMOVE) <= NestedStringSlice(b, REMOVE)
            && (forall h ::
                  h in NestedStringSlice(b, REMOVE) <==> h in NestedStringSlice(early, REMOVE) || h in IDENTITY_HEADERS)
            && forall k :: k != REMOVE ==> SameAt(early, b, k)
  {
    AddMissingHasAll(NestedStringSlice(early, REMOVE), IDENTITY_HEADERS);
    TextsAreStrings(AddMissing(NestedStringSlice(early, REMOVE), IDENTITY_HEADERS));
    hide AddMissing, Texts, Strings;
  }

  lemma HeadersLevel(headers: Spec)
    ensures var b := BuiltHeaders(headers);
            && Sub(b, EARLY) == BuiltEarly(Sub(headers, EARLY)) && REQUEST_ID in b && b[REQUEST_ID] == Str("Generate")
            && forall k :: k != REQUEST_ID && k != EARLY ==> SameAt(headers, b, k)
  {
    KeyNames();
    hide BuiltEarly;
  }

  lemma SpecLevel(gateway: string, listener: string, s: Spec)
    ensures var b := Built(gateway, listener, s);
            && Sub(b, HEADERS) == BuiltHeaders(Sub(s, HEADERS))
            && NestedSlice(b, TARGET_REFS) == [TargetRef(gateway, listener)]
            && TARGET_REF !in b && TARGET_SELECTORS !in b
            && forall k :: k != TARGET_REF && k != TARGET_REFS && k != TARGET_SELECTORS && k != HEADERS ==>
                 SameAt(s, b, k)
  {
    KeyNames();
    hide BuiltHeaders, TargetRef;
  }

  /**
   The built policy targets the listener, generates request ids, removes every identity header and all the
   inherited policy removed, and changes nothing else: every other setting, at each of the three levels, is the
   inherited one.
   */
  lemma BuiltKeepsTheRest(gateway: string, listener: string, inherited: Spec)
    ensures var b := Built(gateway, listener, inherited);
            && Removed(inherited) <= Removed(b)
            && (forall h :: h in Removed(b) <==> h in Removed(inherited) || h in IDENTITY_HEADERS)
            && NestedSlice(b, TARGET_REFS) == [TargetRef(gateway, listener)] && TARGET_REF !in b
            && TARGET_SELECTORS !in b
            && REQUEST_ID in Sub(b, HEADERS) && Sub(b, HEADERS)[REQUEST_ID] == Str("Generate")
    ensures var b := Built(gateway, listener, inherited);
            forall k :: k != TARGET_REF && k != TARGET_REFS && k != TARGET_SELECTORS && k != HEADERS ==>
              SameAt(inherited, b, k)
    ensures var b := Built(gateway, listener, inherited);
            forall k :: k != REQUEST_ID && k != EARLY ==> SameAt(Sub(inherited, HEADERS), Sub(b, HEADERS), k)
    ensures var b := Built(gateway, listener, inherited);
            forall k :: k != REMOVE ==> SameAt(Sub(Sub(inherited, HEADERS), EARLY), Sub(Sub(b, HEADERS), EARLY), k)
  {
    SpecLevel(gateway, listener, inherited);
    HeadersLevel(Sub(inherited, HEADERS));
    EarlyLevel(Sub(Sub(inherited, HEADERS), EARLY));
    hide Built, BuiltHeaders, BuiltEarly, Sub, NestedStringSlice, TargetRef, SameAt;
  }

  /** What the built policy says, in the JSON itself. */
  lemma BuiltSays(gateway: string, listener: string, inherited: Spec)
    ensures var b := Built(gateway, listener, inherited);
            && "targetRefs" in b && "targetRef" !in b && "targetSelectors" !in b
            && b["targetRefs"] == Arr([Obj(map["group" := Str("gateway.networking.k8s.io"), "kind" := Str("Gateway"),
                                               "name" := Str(gateway), "sectionName" := Str(listener)])])
            && "headers" in b && b["headers"].Obj?
            && var headers := b["headers"].fields;
               && "requestID" in headers && headers["requestID"] == Str("Generate")
               && "earlyRequestHeaders" in headers && headers["earlyRequestHeaders"].Obj?
               && var early := headers["earlyRequestHeaders"].fields;
                  && "remove" in early && early["remove"].Arr?
                  && Str("x-llm-client-id") in early["remove"].items && Str("x-auth-user") in early["remove"].items
                  && Str("x-auth-subject") in early["remove"].items && Str("x-auth-groups") in early["remove"].items
  {
    KeyNames();
    var early := Sub(Sub(inherited, HEADERS), EARLY);
    forall h | h in IDENTITY_HEADERS ensures Str(h) in BuiltEarly(early)[REMOVE].items {
      var i := BuiltRemoves(early, h);
      assert BuiltEarly(early)[REMOVE].items[i] == Str(h);
    }
    assert "x-llm-client-id" == IDENTITY_HEADERS[0] && "x-auth-user" == IDENTITY_HEADERS[1];
    assert "x-auth-subject" == IDENTITY_HEADERS[2] && "x-auth-groups" == IDENTITY_HEADERS[3];
    hide AddMissing, Texts, NestedStringSlice;
  }

  predicate SameAt(a: Spec, b: Spec, k: string) { (k in a <==> k in b) && (k in a ==> a[k] == b[k]) }

  lemma KeyNames()
    ensures HEADERS != TARGET_REF && HEADERS != TARGET_REFS && HEADERS != TARGET_SELECTORS && REQUEST_ID != EARLY
    ensures TARGET_REF != TARGET_REFS && TARGET_SELECTORS != TARGET_REFS
  {
    assert |HEADERS| == 7 && |TARGET_REF| == 9 && |TARGET_REFS| == 10 && |TARGET_SELECTORS| == 15;
    assert |REQUEST_ID| == 9 && |EARLY| == 19;
  }

  // ---- Which policies apply to a listener ----

  /** A policy of the Gateway's namespace; created in seconds, managedBy its managed-by label. */
  datatype Policy = Policy(name: string, created: int, managedBy: string, spec: Spec)

  datatype Scope = Elsewhere | OnGateway | OnListener

  const OPERATOR := "nebari-llm-operator"
  const EXTERNAL := "llm-https"
  const INTERNAL := "llm-internal-https"
  const SUFFIX := "-client-headers"

  /** selects: whether a target selector picks this Gateway by its labels, absent when it cannot be read. */
  datatype Gateway = Gateway(name: string, selects: Spec -> Option<bool>)

  function TextAt(s: Spec, k: string): string { if k in s && s[k].Str? then s[k].text else "" }

  predicate IsGatewayKind(ref: Spec) {
    KIND in ref && ref[KIND] == Str("Gateway")
    && (TextAt(ref, GROUP) == "" || TextAt(ref, GROUP) == "gateway.networking.k8s.io")
  }

  /** How one target reference applies. */
  function RefScope(ref: Json, gw: Gateway, listener: string): Scope {
    if !ref.Obj? || !IsGatewayKind(ref.fields) then Elsewhere
    else if !(NAME in ref.fields && ref.fields[NAME] == Str(gw.name)) then Elsewhere
    else if TextAt(ref.fields, SECTION) == listener then OnListener
    else if TextAt(ref.fields, SECTION) == "" then OnGateway
    else Elsewhere
  }

  function Refs(s: Spec): seq<Json> {
    NestedSlice(s, TARGET_REFS) + if TARGET_REF in s && s[TARGET_REF].Obj? then [s[TARGET_REF]] else []
  }

  /** The first selector that picks the Gateway or cannot be read decides. */
  function SelectorScope(sels: seq<Json>, gw: Gateway): Result<Scope> {
    if sels == [] then Ok(Elsewhere)
    else if !sels[0].Obj? || !IsGatewayKind(sels[0].fields) then SelectorScope(sels[1..], gw)
    else
      match gw.selects(sels[0].fields)
      case None => Err("selector")
      case Some(picked) => if picked then Ok(OnGateway) else SelectorScope(sels[1..], gw)
  }

  /** A reference to the listener wins over one to the Gateway, and any reference over the selectors. */
  function ScopeOf(p: Policy, gw: Gateway, listener: string): Result<Scope> {
    if exists ref :: ref in Refs(p.spec) && RefScope(ref, gw, listener).OnListener? then Ok(OnListener)
    else if exists ref :: ref in Refs(p.spec) && RefScope(ref, gw, listener).OnGateway? then Ok(OnGateway)
    else SelectorScope(NestedSlice(p.spec, TARGET_SELECTORS), gw)
  }

  // ---- What the targets of a policy say, in the JSON itself ----

  /** One of the policy's target references, in the list or the deprecated single one. */
  predicate IsReference(spec: Spec, ref: Json) {
    || ("targetRefs" in spec && spec["targetRefs"].Arr? && ref in spec["targetRefs"].items)
    || ("targetRef" in spec && spec["targetRef"].Obj? && ref == spec["targetRef"])
  }

  /** An object of kind Gateway, whose group, if it is a text at all, is empty or Gateway API's. */
  predicate OfGateway(o: Json) {
    && o.Obj? && "kind" in o.fields && o.fields["kind"] == Str("Gateway")
    && ("group" in o.fields && o.fields["group"].Str? ==>
          o.fields["group"].text == "" || o.fields["group"].text == "gateway.networking.k8s.io")
  }

  predicate NamesGateway(ref: Json, gateway: string) {
    OfGateway(ref) && "name" in ref.fields && ref.fields["name"] == Str(gateway)
  }

  /** A reference to this listener of this Gateway, and one to the whole Gateway. */
  predicate NamesListener(ref: Json, gateway: string, listener: string) {
    NamesGateway(ref, gateway) && "sectionName" in ref.fields && ref.fields["sectionName"] == Str(listener)
  }

  predicate NamesWhole(ref: Json, gateway: string) {
    NamesGateway(ref, gateway)
    && ("sectionName" in ref.fields && ref.fields["sectionName"].Str? ==> ref.fields["sectionName"].text == "")
  }

  /** Gateway selector number i says answer, and each before it was readable and did not pick. */
  predicate FirstSays(sels: seq<Json>, gw: Gateway, i: nat, answer: Option<bool>) {
    && i < |sels| && OfGateway(sels[i]) && gw.selects(sels[i].fields) == answer
    && forall j :: 0 <= j < i && OfGateway(sels[j]) ==> gw.selects(sels[j].fields) == Some(false)
  }

  predicate SelectorSays(spec: Spec, gw: Gateway, i: nat, answer: Option<bool>) {
    && "targetSelectors" in spec && spec["targetSelectors"].Arr?
    && FirstSays(spec["targetSelectors"].items, gw, i, answer)
  }

  /** Somebody else's policy with a Gateway selector that cannot be read. */
  ghost predicate IsUnreadable(p: Policy, gw: Gateway) {
    !IsOwn(p) && exists i: nat :: SelectorSays(p.spec, gw, i, None)
  }

  ghost predicate OnThisListener(spec: Spec, gw: Gateway, listener: string) {
    exists ref :: IsReference(spec, ref) && NamesListener(ref, gw.name, listener)
  }

  ghost predicate OnWholeGateway(spec: Spec, gw: Gateway, listener: string) {
    && !OnThisListener(spec, gw, listener)
    && ((exists ref :: IsReference(spec, ref) && NamesWhole(ref, gw.name))
        || exists i: nat :: SelectorSays(spec, gw, i, Some(true)))
  }

  lemma RefScopeIsExact(ref: Json, gw: Gateway, listener: string)
    requires listener != ""
    ensures RefScope(ref, gw, listener).OnListener? <==> NamesListener(ref, gw.name, listener)
    ensures RefScope(ref, gw, listener).OnGateway? <==> NamesWhole(ref, gw.name)
  {
  }

  lemma RefsAreReferences(spec: Spec)
    ensures forall ref :: ref in Refs(spec) <==> IsReference(spec, ref)
  {
  }

  lemma {:induction false} SelectorScopeIsExact(sels: seq<Json>, gw: Gateway)
    ensures SelectorScope(sels, gw) == Ok(OnGateway) <==> exists i: nat :: FirstSays(sels, gw, i, Some(true))
    ensures SelectorScope(sels, gw).Err? <==> exists i: nat :: FirstSays(sels, gw, i, None)
    ensures SelectorScope(sels, gw) != Ok(OnListener)
  {
    if sels != [] {
      SelectorScopeIsExact(sels[1..], gw);
      FirstSaysNext(sels, gw, Some(true));
      FirstSaysNext(sels, gw, None);
    }
  }

  lemma FirstSaysNext(sels: seq<Json>, gw: Gateway, answer: Option<bool>)
    requires sels != [] && answer != Some(false)
    ensures (exists i: nat :: FirstSays(sels, gw, i, answer)) <==>
              if OfGateway(sels[0]) && gw.selects(sels[0].fields) != Some(false)
              then gw.selects(sels[0].fields) == answer
              else exists i: nat :: FirstSays(sels[1..], gw, i, answer)
  {
    if OfGateway(sels[0]) && gw.selects(sels[0].fields) != Some(false) {
      if gw.selects(sels[0].fields) == answer { assert FirstSays(sels, gw, 0, answer); }
    } else {
      if i: nat :| FirstSays(sels, gw, i, answer) { assert FirstSays(sels[1..], gw, i - 1, answer); }
      if i: nat :| FirstSays(sels[1..], gw, i, answer) { assert FirstSays(sels, gw, i + 1, answer); }
    }
  }

  /** How a policy applies, read off its JSON. */
  lemma ScopeIsExact(p: Policy, gw: Gateway, listener: string)
    requires listener != ""
    ensures var r := ScopeOf(p, gw, listener);
            && (r == Ok(OnListener) <==> OnThisListener(p.spec, gw, listener))
            && (r == Ok(OnGateway) <==> OnWholeGateway(p.spec, gw, listener))
            && (r.Err? <==> !OnThisListener(p.spec, gw, listener) && !OnWholeGateway(p.spec, gw, listener)
                            && exists i: nat :: SelectorSays(p.spec, gw, i, None))
  {
    RefsAreReferences(p.spec);
    forall ref
      ensures RefScope(ref, gw, listener).OnListener? <==> NamesListener(ref, gw.name, listener)
      ensures RefScope(ref, gw, listener).OnGateway? <==> NamesWhole(ref, gw.name)
    {
      RefScopeIsExact(ref, gw, listener);
    }
    var sels := NestedSlice(p.spec, TARGET_SELECTORS);
    SelectorScopeIsExact(sels, gw);
    assert sels == [] ==> forall i: nat, answer :: !FirstSays(sels, gw, i, answer);
    assert forall i: nat, answer :: SelectorSays(p.spec, gw, i, answer) <==> FirstSays(sels, gw, i, answer);
    hide Refs, RefScope, IsReference, NamesListener, NamesWhole, SelectorScope, SelectorSays, FirstSays;
  }

  method PolicyScopeForListener(p: Policy, gw: Gateway, listener: string) returns (res: Result<Scope>)
    requires listener != ""
    ensures res == ScopeOf(p, gw, listener)
    ensures res == Ok(OnListener) <==> OnThisListener(p.spec, gw, listener)
    ensures res == Ok(OnGateway) <==> OnWholeGateway(p.spec, gw, listener)
    ensures res.Err? ==> exists i: nat :: SelectorSays(p.spec, gw, i, None)
  {
    ScopeIsExact(p, gw, listener);
    hide OnThisListener, OnWholeGateway, SelectorSays;
    var scope := Elsewhere;
    var refs := Refs(p.spec);
    for i := 0 to |refs|
      invariant scope == Elsewhere || scope == OnGateway
      invariant forall ref :: ref in refs[..i] ==> !RefScope(ref, gw, listener).OnListener?
      invariant scope == OnGateway <==> exists ref :: ref in refs[..i] && RefScope(ref, gw, listener).OnGateway?
    {
      assert refs[..i + 1] == refs[..i] + [refs[i]];
      match RefScope(refs[i], gw, listener)
      case OnListener =>
        assert refs[i] in refs;
        return Ok(OnListener);
      case OnGateway => scope := OnGateway;
      case Elsewhere =>
    }
    assert refs[..|refs|] == refs;
    if scope == OnGateway { return Ok(scope); }
    var sels := NestedSlice(p.spec, TARGET_SELECTORS);
    for i := 0 to |sels|
      invariant SelectorScope(sels[i..], gw) == SelectorScope(sels, gw)
    {
      if sels[i].Obj? && IsGatewayKind(sels[i].fields) {
        var picked := gw.selects(sels[i].fields);
        if picked.None? { return Err("selector"); }
        if picked.value { return Ok(OnGateway); }
      }
    }
    assert sels[|sels|..] == [];
    return Ok(Elsewhere);
  }

  function PolicyName(listener: string): string { listener + SUFFIX }

  /** One of the operator's own header policies: labelled, and with one of the two reserved names. */
  predicate IsOwn(p: Policy) {
    p.managedBy == OPERATOR && (p.name == PolicyName(EXTERNAL) || p.name == PolicyName(INTERNAL))
  }

  /** What Envoy Gateway applies of several: the oldest, then by name. */
  predicate Older(a: Policy, b: Policy) { a.created < b.created || (a.created == b.created && Less(a.name, b.name)) }

  lemma OlderIsStrict(a: Policy, b: Policy)
    ensures !(Older(a, b) && Older(b, a)) && (Older(a, b) || Older(b, a) || a.name == b.name)
  {
    LessTotal(a.name, b.name);
  }

  // ---- The cluster's policies and what a pass leaves ----

  /** By name. */
  type Policies = map<string, Policy>

  ghost predicate Named(ps: Policies) { forall n :: n in ps ==> ps[n].name == n }

  predicate ForeignAt(ps: Policies, n: string, gw: Gateway, listener: string, scope: Scope) {
    n in ps && !IsOwn(ps[n]) && ScopeOf(ps[n], gw, listener) == Ok(scope)
  }

  predicate Taken(ps: Policies, gw: Gateway, listener: string) {
    exists n :: n in ps && ForeignAt(ps, n, gw, listener, OnListener)
  }

  predicate IsApplied(ps: Policies, n: string, gw: Gateway, listener: string) {
    ForeignAt(ps, n, gw, listener, OnGateway)
    && forall m :: m in ps && m != n && ForeignAt(ps, m, gw, listener, OnGateway) ==> Older(ps[n], ps[m])
  }

  /** What the listener's policy starts from: the applied Gateway-wide policy's settings, or nothing. */
  ghost function Inherited(ps: Policies, gw: Gateway, listener: string): Spec {
    if exists n :: IsApplied(ps, n, gw, listener)
    then (var n :| IsApplied(ps, n, gw, listener); ps[n].spec)
    else map[]
  }

  lemma AppliedIsUnique(ps: Policies, m: string, n: string, gw: Gateway, listener: string)
    requires Named(ps) && IsApplied(ps, m, gw, listener) && IsApplied(ps, n, gw, listener)
    ensures m == n
  {
    OlderIsStrict(ps[m], ps[n]);
  }

  ghost function DesiredSpec(ps: Policies, gw: Gateway, listener: string): Spec {
    Built(gw.name, listener, Inherited(ps, gw, listener))
  }

  /** The policies after a pass without errors, at time now. */
  ghost function AfterPass(ps: Policies, gw: Gateway, listener: string, show: Printed, now: int): Policies {
    var own := PolicyName(listener);
    if Taken(ps, gw, listener) then ps - {own}
    else if own !in ps then ps[own := Policy(own, now, OPERATOR, DesiredSpec(ps, gw, listener))]
    else if SpecsEqual(show, DesiredSpec(ps, gw, listener), ps[own].spec) then ps
    else ps[own := ps[own].(spec := DesiredSpec(ps, gw, listener))]
  }

  /** The API server's policies in the namespace; writes counts the calls that changed them, failures those lost. */
  class Cluster {
    var policies: Policies
    var writes: nat
    var failures: nat

    ghost predicate Valid() reads this { Named(policies) }

    constructor ()
      ensures Valid() && policies == map[] && writes == 0 && failures == 0
    {
      policies, writes, failures := map[], 0, 0;
    }

    /** A failed write may also have taken effect. */
    method Delete(n: string) returns (ok: bool)
      requires Valid()
      modifies this
      ensures Valid() && (policies == old(policies) - {n} || (!ok && policies == old(policies)))
      ensures writes == old(writes) + (if policies == old(policies) then 0 else 1)
      ensures failures == old(failures) + (if ok then 0 else 1)
    {
      var up: bool := *;
      ok := up;
      if !up { failures := failures + 1; }
      var effect: bool := *;
      if (up || effect) && n in policies {
        policies := policies - {n};
        writes := writes + 1;
      }
    }

    method Put(p: Policy) returns (ok: bool)
      requires Valid() && (p.name !in policies || policies[p.name] != p)
      modifies this
      ensures Valid() && (policies == old(policies)[p.name := p] || (!ok && policies == old(policies)))
      ensures writes == old(writes) + (if policies == old(policies) then 0 else 1)
      ensures failures == old(failures) + (if ok then 0 else 1)
    {
      var up: bool := *;
      ok := up;
      if !up { failures := failures + 1; }
      var effect: bool := *;
      if up || effect {
        policies := policies[p.name := p];
        writes := writes + 1;
      }
    }

    method CreateOrUpdate(n: string, spec: Spec, show: Printed, now: int) returns (ok: bool)
      requires Valid()
      modifies this
      ensures Valid()
      ensures var want := if n !in old(policies) then old(policies)[n := Policy(n, now, OPERATOR, spec)]
                          else if SpecsEqual(show, spec, old(policies)[n].spec) then old(policies)
                          else old(policies)[n := old(policies)[n].(spec := spec)];
              policies == want || (!ok && policies == old(policies))
      ensures writes == old(writes) + (if policies == old(policies) then 0 else 1)
      ensures failures == old(failures) + (if ok then 0 else 1)
    {
      SpecsEqualReflexive(show, spec);
      hide SpecsEqual;
      var up: bool := *;
      if !up {
        failures := failures + 1;
        return false;
      }
      if n !in policies {
        ok := Put(Policy(n, now, OPERATOR, spec));
      } else if SpecsEqual(show, spec, policies[n].spec) {
        ok := true;
      } else {
        ok := Put(policies[n].(spec := spec));
      }
    }

    /** One pass over the policies in whatever order they are listed. */
    method EnsureListenerHeaderPolicy(listing: seq<string>, gw: Gateway, listener: string, show: Printed, now: int)
      returns (ok: bool)
      requires Valid() && listener != "" && forall n :: n in listing <==> n in policies
      modifies this
      ensures Valid()
      ensures policies == AfterPass(old(policies), gw, listener, show, now) || (!ok && policies == old(policies))
      ensures writes == old(writes) + (if policies == old(policies) then 0 else 1)
      ensures !ok ==> failures > old(failures) || exists n :: n in old(policies) && IsUnreadable(old(policies)[n], gw)
    {
      hide ScopeOf, SpecsEqual, Built, IsOwn;
      var wide: seq<string> := [];
      for i := 0 to |listing|
        invariant policies == old(policies) && writes == old(writes) && failures == old(failures)
        invariant forall n :: n in listing[..i] ==> !ForeignAt(policies, n, gw, listener, OnListener)
        invariant forall n :: n in wide <==> n in listing[..i] && ForeignAt(policies, n, gw, listener, OnGateway)
      {
        assert listing[..i + 1] == listing[..i] + [listing[i]];
        assert listing[i] in listing;
        var p := policies[listing[i]];
        if IsOwn(p) { continue; }
        var scope := PolicyScopeForListener(p, gw, listener);
        if scope.Err? {
          assert IsUnreadable(p, gw) && listing[i] in policies;
          return false;
        }
        match scope.value
        case OnListener =>
          assert ForeignAt(policies, listing[i], gw, listener, OnListener);
          ok := Delete(PolicyName(listener));
          return;
        case OnGateway => wide := wide + [listing[i]];
        case Elsewhere =>
      }
      assert listing[..|listing|] == listing;
      var inherited := None;
      if wide != [] {
        var n := AppliedGatewayWidePolicy(policies, wide);
        AppliedIsInherited(policies, wide, n, gw, listener);
        inherited := Some(policies[n].spec);
      } else {
        NoneApplied(policies, gw, listener);
      }
      var spec := BuildListenerHeaderPolicy(gw.name, listener, inherited);
      ok := CreateOrUpdate(PolicyName(listener), spec, show, now);
    }
  }

  /** slices.MinFunc over the Gateway-wide policies. */
  method AppliedGatewayWidePolicy(ps: Policies, wide: seq<string>) returns (n: string)
    requires Named(ps) && wide != [] && forall m :: m in wide ==> m in ps
    ensures n in wide && forall m :: m in wide && m != n ==> Older(ps[n], ps[m])
  {
    n := wide[0];
    for i := 1 to |wide|
      invariant n in wide && forall m :: m in wide[..i] && m != n ==> Older(ps[n], ps[m])
    {
      assert wide[..i + 1] == wide[..i] + [wide[i]] && wide[i] in wide;
      OlderIsStrict(ps[n], ps[wide[i]]);
      if Older(ps[wide[i]], ps[n]) {
        forall m | m in wide[..i] && m != n ensures Older(ps[wide[i]], ps[m]) {
          OlderTransitive(ps[wide[i]], ps[n], ps[m]);
        }
        n := wide[i];
      }
    }
    assert wide[..|wide|] == wide;
  }

  lemma OlderTransitive(a: Policy, b: Policy, c: Policy)
    requires Older(a, b) && Older(b, c)
    ensures Older(a, c)
  {
    if a.created == b.created == c.created { LessTransitive(a.name, b.name, c.name); }
  }

  lemma AppliedIsInherited(ps: Policies, wide: seq<string>, n: string, gw: Gateway, listener: string)
    requires Named(ps) && n in wide && (forall m :: m in wide ==> m in ps)
    requires forall m :: m in wide <==> ForeignAt(ps, m, gw, listener, OnGateway)
    requires forall m :: m in wide && m != n ==> Older(ps[n], ps[m])
    ensures Inherited(ps, gw, listener) == ps[n].spec
  {
    assert IsApplied(ps, n, gw, listener);
    var m :| IsApplied(ps, m, gw, listener) && Inherited(ps, gw, listener) == ps[m].spec;
    AppliedIsUnique(ps, m, n, gw, listener);
  }

  lemma NoneApplied(ps: Policies, gw: Gateway, listener: string)
    requires forall m :: !ForeignAt(ps, m, gw, listener, OnGateway)
    ensures Inherited(ps, gw, listener) == map[]
  {
  }

  // ---- A pass reaches a fixed point ----

  predicate SameForeign(ps: Policies, qs: Policies) {
    forall n :: n in ps.Keys + qs.Keys ==>
      && ((n in ps && !IsOwn(ps[n])) <==> (n in qs && !IsOwn(qs[n])))
      && (n in ps && !IsOwn(ps[n]) ==> ps[n] == qs[n])
  }

  lemma ForeignStays(ps: Policies, qs: Policies, n: string, gw: Gateway, listener: string, scope: Scope)
    requires SameForeign(ps, qs)
    ensures ForeignAt(ps, n, gw, listener, scope) <==> ForeignAt(qs, n, gw, listener, scope)
  {
    assert n in ps || n in qs ==> n in ps.Keys + qs.Keys;
  }

  lemma AppliedStays(ps: Policies, qs: Policies, n: string, gw: Gateway, listener: string)
    requires SameForeign(ps, qs) && IsApplied(ps, n, gw, listener)
    ensures IsApplied(qs, n, gw, listener) && ps[n] == qs[n]
  {
    forall m ensures ForeignAt(ps, m, gw, listener, OnGateway) <==> ForeignAt(qs, m, gw, listener, OnGateway) {
      ForeignStays(ps, qs, m, gw, listener, OnGateway);
    }
    forall m | m in ps && m in qs && !IsOwn(ps[m]) ensures ps[m] == qs[m] { assert m in ps.Keys + qs.Keys; }
    hide ScopeOf, IsOwn, Older;
  }

  /** What a pass wants depends on the policies of others alone. */
  lemma OwnPoliciesDoNotMatter(ps: Policies, qs: Policies, gw: Gateway, listener: string)
    requires Named(ps) && Named(qs) && SameForeign(ps, qs)
    ensures Taken(ps, gw, listener) == Taken(qs, gw, listener)
    ensures DesiredSpec(ps, gw, listener) == DesiredSpec(qs, gw, listener)
  {
    forall n ensures ForeignAt(ps, n, gw, listener, OnListener) <==> ForeignAt(qs, n, gw, listener, OnListener) {
      ForeignStays(ps, qs, n, gw, listener, OnListener);
    }
    assert Taken(ps, gw, listener) == Taken(qs, gw, listener) by { hide ScopeOf, IsOwn, SameForeign; }
    assert SameForeign(qs, ps) by { assert qs.Keys + ps.Keys == ps.Keys + qs.Keys; }
    hide ScopeOf, Built, IsOwn, Older, ForeignAt, SameForeign, Named, IsApplied, Taken;
    if exists n :: IsApplied(ps, n, gw, listener) {
      var m :| IsApplied(ps, m, gw, listener) && Inherited(ps, gw, listener) == ps[m].spec;
      AppliedStays(ps, qs, m, gw, listener);
      var n :| IsApplied(qs, n, gw, listener) && Inherited(qs, gw, listener) == qs[n].spec;
      AppliedIsUnique(qs, m, n, gw, listener);
    } else if n :| IsApplied(qs, n, gw, listener) {
      AppliedStays(qs, ps, n, gw, listener);
    }
  }

  /** The listener's reserved name is unused or the operator's. */
  predicate NameIsOurs(ps: Policies, listener: string) {
    PolicyName(listener) in ps ==> IsOwn(ps[PolicyName(listener)])
  }

  lemma PassTouchesOnlyItsOwn(ps: Policies, gw: Gateway, listener: string, show: Printed, now: int)
    requires Named(ps) && NameIsOurs(ps, listener) && (listener == EXTERNAL || listener == INTERNAL)
    ensures var qs := AfterPass(ps, gw, listener, show, now);
            && Named(qs) && SameForeign(ps, qs) && NameIsOurs(qs, listener)
            && forall n :: n != PolicyName(listener) ==> ((n in ps <==> n in qs) && (n in ps ==> ps[n] == qs[n]))
  {
    hide ScopeOf, SpecsEqual, Built, DesiredSpec, Taken;
  }

  /** What a pass leaves in its own place. */
  ghost predicate Settled(ps: Policies, gw: Gateway, listener: string, show: Printed) {
    if Taken(ps, gw, listener) then PolicyName(listener) !in ps
    else PolicyName(listener) in ps && SpecsEqual(show, DesiredSpec(ps, gw, listener), ps[PolicyName(listener)].spec)
  }

  lemma SettledIsFixed(ps: Policies, gw: Gateway, listener: string, show: Printed, now: int)
    requires Settled(ps, gw, listener, show)
    ensures AfterPass(ps, gw, listener, show, now) == ps
  {
  }

  lemma PassSettles(ps: Policies, gw: Gateway, listener: string, show: Printed, now: int)
    requires Named(ps) && NameIsOurs(ps, listener) && (listener == EXTERNAL || listener == INTERNAL)
    ensures Settled(AfterPass(ps, gw, listener, show, now), gw, listener, show)
  {
    PassTouchesOnlyItsOwn(ps, gw, listener, show, now);
    OwnPoliciesDoNotMatter(ps, AfterPass(ps, gw, listener, show, now), gw, listener);
    SpecsEqualReflexive(show, DesiredSpec(ps, gw, listener));
    hide SpecsEqual, DesiredSpec, Taken, SameForeign, Named, IsOwn, PolicyName;
  }

  /** After both listeners' passes, in the order they run, either pass again changes nothing. */
  lemma BothListenersSettle(ps: Policies, external: Gateway, internal: Gateway, show: Printed, now: int, then': int)
    requires Named(ps) && NameIsOurs(ps, EXTERNAL) && NameIsOurs(ps, INTERNAL)
    ensures var qs := AfterPass(AfterPass(ps, external, EXTERNAL, show, now), internal, INTERNAL, show, now);
            AfterPass(qs, external, EXTERNAL, show, then') == qs && AfterPass(qs, internal, INTERNAL, show, then') == qs
  {
    var mid := AfterPass(ps, external, EXTERNAL, show, now);
    var qs := AfterPass(mid, internal, INTERNAL, show, now);
    assert |PolicyName(EXTERNAL)| == 24 && |PolicyName(INTERNAL)| == 33;
    PassTouchesOnlyItsOwn(ps, external, EXTERNAL, show, now);
    PassSettles(ps, external, EXTERNAL, show, now);
    assert NameIsOurs(mid, INTERNAL);
    PassTouchesOnlyItsOwn(mid, internal, INTERNAL, show, now);
    PassSettles(mid, internal, INTERNAL, show, now);
    OwnPoliciesDoNotMatter(mid, qs, external, EXTERNAL);
    hide AfterPass, SpecsEqual, DesiredSpec, Taken, SameForeign, Named, IsOwn;
    assert Settled(qs, external, EXTERNAL, show);
    SettledIsFixed(qs, external, EXTERNAL, show, then');
    SettledIsFixed(qs, internal, INTERNAL, show, then');
  }

  // ---- What the stored policy says ----

  /** No other value prints as this text. */
  ghost predicate TellsApart(show: Printed, text: string) { forall v :: show(v) == show(Str(text)) ==> v == Str(text) }

  lemma EqualMember(show: Printed, a: Spec, b: Spec, k: string)
    requires SpecsEqual(show, a, b) && k in a
    ensures k in b && ValueEqual(show, a[k], b[k])
    ensures a[k].Obj? ==> b[k].Obj? && SpecsEqual(show, a[k].fields, b[k].fields)
    ensures a[k].Arr? ==> b[k].Arr? && |a[k].items| == |b[k].items|
                          && forall i :: 0 <= i < |a[k].items| ==> ValueEqual(show, a[k].items[i], b[k].items[i])
  {
  }

  lemma EqualSub(show: Printed, a: Spec, b: Spec, k: string)
    requires SpecsEqual(show, a, b) && k in a && a[k].Obj?
    ensures SpecsEqual(show, Sub(a, k), Sub(b, k))
  {
    EqualMember(show, a, b, k);
    hide SpecsEqual;
  }

  lemma BuiltRemoves(early: Spec, h: string) returns (i: nat)
    requires h in IDENTITY_HEADERS
    ensures REMOVE in BuiltEarly(early) && BuiltEarly(early)[REMOVE].Arr?
    ensures i < |BuiltEarly(early)[REMOVE].items| && BuiltEarly(early)[REMOVE].items[i] == Str(h)
  {
    var remove := AddMissing(NestedStringSlice(early, REMOVE), IDENTITY_HEADERS);
    AddMissingHasAll(NestedStringSlice(early, REMOVE), IDENTITY_HEADERS);
    TextsAreStrings(remove);
    i :| 0 <= i < |remove| && remove[i] == h;
  }

  lemma BuiltHasHeaders(gateway: string, listener: string, inherited: Spec)
    ensures var b := Built(gateway, listener, inherited);
            && HEADERS in b && b[HEADERS].Obj? && EARLY in Sub(b, HEADERS) && Sub(b, HEADERS)[EARLY].Obj?
            && Sub(Sub(b, HEADERS), EARLY) == BuiltEarly(Sub(Sub(inherited, HEADERS), EARLY))
  {
    SpecLevel(gateway, listener, inherited);
    HeadersLevel(Sub(inherited, HEADERS));
    hide BuiltEarly, TargetRef;
  }

  /** A stored policy the operator takes for the desired one removes every identity header, whoever wrote it. */
  lemma StoredRemovesIdentity(show: Printed, gateway: string, listener: string, inherited: Spec, stored: Spec,
                              h: string)
    requires SpecsEqual(show, Built(gateway, listener, inherited), stored) && h in IDENTITY_HEADERS
             && TellsApart(show, h)
    ensures Str(h) in NestedSlice(Sub(Sub(stored, HEADERS), EARLY), REMOVE)
  {
    var b := Built(gateway, listener, inherited);
    BuiltHasHeaders(gateway, listener, inherited);
    var i := BuiltRemoves(Sub(Sub(inherited, HEADERS), EARLY), h);
    hide Built, BuiltEarly, SpecsEqual, Sub;
    EqualSub(show, b, stored, HEADERS);
    EqualSub(show, Sub(b, HEADERS), Sub(stored, HEADERS), EARLY);
    var early := Sub(Sub(stored, HEADERS), EARLY);
    EqualMember(show, Sub(Sub(b, HEADERS), EARLY), early, REMOVE);
    assert ValueEqual(show, Str(h), early[REMOVE].items[i]);
    assert early[REMOVE].items[i] == Str(h) && early[REMOVE].items[i] in early[REMOVE].items;
  }

  /** With the name the operator's, a pass without errors protects the listener, unless another policy has it. */
  lemma PassProtects(ps: Policies, gw: Gateway, listener: string, show: Printed, now: int, h: string)
    requires Named(ps) && NameIsOurs(ps, listener) && (listener == EXTERNAL || listener == INTERNAL)
    requires !Taken(ps, gw, listener) && h in IDENTITY_HEADERS && TellsApart(show, h)
    ensures var qs := AfterPass(ps, gw, listener, show, now);
            PolicyName(listener) in qs
            && Str(h) in NestedSlice(Sub(Sub(qs[PolicyName(listener)].spec, HEADERS), EARLY), REMOVE)
  {
    var qs := AfterPass(ps, gw, listener, show, now);
    PassSettles(ps, gw, listener, show, now);
    PassTouchesOnlyItsOwn(ps, gw, listener, show, now);
    OwnPoliciesDoNotMatter(ps, qs, gw, listener);
    hide AfterPass, SpecsEqual, Built, Sub, NestedSlice, Taken, SameForeign, Named, IsOwn;
    StoredRemovesIdentity(show, gw.name, listener, Inherited(qs, gw, listener), qs[PolicyName(listener)].spec, h);
  }

  // ---- When the stored policy is the desired one ----

  predicate IsLeaf(v: Json) { v.Str? || v.Scalar? }

  /** A text, number, truth value or null prints like no other value. */
  ghost predicate PrintsApart(show: Printed) { forall a, b :: IsLeaf(a) && show(a) == show(b) ==> a == b }

  lemma {:induction false} EqualIsSame(show: Printed, a: Json, b: Json)
    requires PrintsApart(show) && ValueEqual(show, a, b)
    ensures a == b
    decreases a
  {
    match a
    case Obj(fields) =>
      forall k | k in fields ensures fields[k] == b.fields[k] { EqualIsSame(show, fields[k], b.fields[k]); }
      SameKeys(fields, b.fields);
    case Arr(items) =>
      forall i | 0 <= i < |items| ensures items[i] == b.items[i] { EqualIsSame(show, items[i], b.items[i]); }
    case _ =>
  }

  lemma SameKeys(a: Spec, b: Spec)
    requires |a| == |b| && forall k :: k in a ==> k in b && a[k] == b[k]
    ensures a == b
  {
    assert |a.Keys| == |b.Keys| && a.Keys <= b.Keys;
    assert |b.Keys - a.Keys| == 0;
    assert forall k :: k in b ==> k in a.Keys || k in b.Keys - a.Keys;
  }

  /** The operator's comparison is equality exactly for a printer that tells plain values apart. */
  lemma ComparisonIsEqualityExactly(show: Printed)
    ensures (forall a: Spec, b: Spec :: SpecsEqual(show, a, b) ==> a == b) <==> PrintsApart(show)
  {
    if PrintsApart(show) {
      forall a: Spec, b: Spec | SpecsEqual(show, a, b) ensures a == b { EqualIsSame(show, Obj(a), Obj(b)); }
    } else {
      var a, b :| IsLeaf(a) && show(a) == show(b) && a != b;
      var x: Spec, y: Spec := map["timeout" := a], map["timeout" := b];
      assert x["timeout"] != y["timeout"] && SpecsEqual(show, x, y);
    }
  }

  /** A setting the operator leaves alone. */
  predicate Inheritable(k: string) { k != TARGET_REF && k != TARGET_REFS && k != TARGET_SELECTORS && k != HEADERS }

  /**
   Every setting of the Gateway-wide policy but its targets and headers, and every header setting the operator
   has no say in.
   */
  ghost predicate KeepsSettings(from: Spec, kept: Spec) {
    && (forall k :: Inheritable(k) ==> SameAt(from, kept, k))
    && (forall k :: k != REQUEST_ID && k != EARLY ==> SameAt(Sub(from, HEADERS), Sub(kept, HEADERS), k))
    && (forall k :: k != REMOVE ==> SameAt(Sub(Sub(from, HEADERS), EARLY), Sub(Sub(kept, HEADERS), EARLY), k))
    && Removed(from) <= Removed(kept)
  }

  lemma AppliedSettingsAreDesired(ps: Policies, n: string, gw: Gateway, listener: string)
    requires Named(ps) && IsApplied(ps, n, gw, listener)
    ensures KeepsSettings(ps[n].spec, DesiredSpec(ps, gw, listener))
  {
    AppliedGives(ps, n, gw, listener);
    BuiltKeepsTheRest(gw.name, listener, ps[n].spec);
    hide Built, Named, IsApplied, DesiredSpec, Sub, SameAt, Removed;
  }

  /**
   A printer that tells plain values apart: a pass stores the desired policy, with all the Gateway-wide policy's
   settings.
   */
  lemma PassKeepsSettings(ps: Policies, gw: Gateway, listener: string, show: Printed, now: int)
    requires PrintsApart(show) && Named(ps) && NameIsOurs(ps, listener)
             && (listener == EXTERNAL || listener == INTERNAL)
    requires !Taken(ps, gw, listener)
    ensures var qs := AfterPass(ps, gw, listener, show, now);
            && PolicyName(listener) in qs && qs[PolicyName(listener)].spec == DesiredSpec(ps, gw, listener)
            && forall n :: IsApplied(ps, n, gw, listener) ==> KeepsSettings(ps[n].spec, qs[PolicyName(listener)].spec)
  {
    ComparisonIsEqualityExactly(show);
    hide SpecsEqual, DesiredSpec, Taken, KeepsSettings, Named, IsOwn, PrintsApart;
    forall n | IsApplied(ps, n, gw, listener) ensures KeepsSettings(ps[n].spec, DesiredSpec(ps, gw, listener)) {
      AppliedSettingsAreDesired(ps, n, gw, listener);
    }
    hide IsApplied;
  }

  const WIDE := "wide"

  /** A policy on the whole Gateway with setting k at v. */
  function WidePolicy(gw: Gateway, k: string, v: Json): Policy {
    Policy(WIDE, 0, "", map[TARGET_REFS := Arr([Obj(map[KIND := Str("Gateway"), NAME := Str(gw.name)])])][k := v])
  }

  /** Such a policy, and the listener's own one built as if the setting were another value. */
  function Lookalikes(gw: Gateway, listener: string, k: string, a: Json, b: Json): Policies {
    var own := PolicyName(listener);
    map[WIDE := WidePolicy(gw, k, a), own := Policy(own, 0, OPERATOR, Alone(gw.name, listener, k, b))]
  }

  lemma LookalikesApply(gw: Gateway, listener: string, k: string, a: Json, b: Json)
    requires Inheritable(k) && (listener == EXTERNAL || listener == INTERNAL)
    ensures var ps := Lookalikes(gw, listener, k, a, b);
            && Named(ps) && NameIsOurs(ps, listener) && WIDE != PolicyName(listener)
            && IsApplied(ps, WIDE, gw, listener)
            && !Taken(ps, gw, listener)
  {
    var ps := Lookalikes(gw, listener, k, a, b);
    assert |WIDE| == 4 && |PolicyName(listener)| > 4 && |listener| > 0;
    var ref := Obj(map[KIND := Str("Gateway"), NAME := Str(gw.name)]);
    TargetKeys();
    KeyNames();
    assert RefScope(ref, gw, listener).OnGateway?;
    assert Refs(ps[WIDE].spec) == [ref];
    assert ref in Refs(ps[WIDE].spec);
    assert ScopeOf(ps[WIDE], gw, listener) == Ok(OnGateway);
    assert IsOwn(ps[PolicyName(listener)]) && !IsOwn(ps[WIDE]) by { assert OPERATOR != ""; }
    hide ScopeOf, IsOwn, Alone;
    assert ForeignAt(ps, WIDE, gw, listener, OnGateway);
  }

  /** What is built from a policy with one setting. */
  function Alone(gateway: string, listener: string, k: string, v: Json): Spec {
    map[k := v][TARGET_REFS := Arr([TargetRef(gateway, listener)])][HEADERS := Obj(BuiltHeaders(map[]))]
  }

  lemma BuiltAlone(gateway: string, listener: string, s: Spec, k: string, v: Json)
    requires Inheritable(k) && s - {TARGET_REF, TARGET_REFS, TARGET_SELECTORS} == map[k := v]
    ensures Built(gateway, listener, s) == Alone(gateway, listener, k, v)
  {
    KeyNames();
    hide BuiltHeaders, TargetRef;
    assert HEADERS in s ==> HEADERS in s - {TARGET_REF, TARGET_REFS, TARGET_SELECTORS};
    assert Sub(s, HEADERS) == map[];
  }

  lemma AloneEqual(show: Printed, gateway: string, listener: string, k: string, a: Json, b: Json)
    requires IsLeaf(a) && show(a) == show(b) && Inheritable(k)
    ensures SpecsEqual(show, Alone(gateway, listener, k, a), Alone(gateway, listener, k, b))
  {
    var x, y := Alone(gateway, listener, k, a), Alone(gateway, listener, k, b);
    hide BuiltHeaders, TargetRef;
    assert x.Keys == y.Keys;
    assert |x| == |x.Keys| && |y| == |y.Keys|;
    forall n | n in x ensures n in y && ValueEqual(show, x[n], y[n]) {
      if n != k {
        assert n in y && x[n] == y[n];
        ValueEqualReflexive(show, x[n]);
      }
    }
  }

  lemma LookalikesHold(gw: Gateway, listener: string, k: string, a: Json, b: Json)
    requires Inheritable(k) && (listener == EXTERNAL || listener == INTERNAL)
    ensures var ps, own := Lookalikes(gw, listener, k, a, b), PolicyName(listener);
            && WIDE in ps && ps[WIDE] == WidePolicy(gw, k, a) && k in ps[WIDE].spec && ps[WIDE].spec[k] == a
            && own in ps && ps[own].spec == Alone(gw.name, listener, k, b) && k in ps[own].spec && ps[own].spec[k] == b
  {
    assert |WIDE| == 4 && |PolicyName(listener)| > 4;
  }

  lemma AppliedGives(ps: Policies, n: string, gw: Gateway, listener: string)
    requires Named(ps) && IsApplied(ps, n, gw, listener)
    ensures DesiredSpec(ps, gw, listener) == Built(gw.name, listener, ps[n].spec)
  {
    var m :| IsApplied(ps, m, gw, listener) && Inherited(ps, gw, listener) == ps[m].spec;
    AppliedIsUnique(ps, m, n, gw, listener);
    hide Built;
  }

  lemma LookalikesWant(gw: Gateway, listener: string, k: string, a: Json, b: Json)
    requires Inheritable(k) && (listener == EXTERNAL || listener == INTERNAL)
    ensures DesiredSpec(Lookalikes(gw, listener, k, a, b), gw, listener) == Alone(gw.name, listener, k, a)
  {
    var ps := Lookalikes(gw, listener, k, a, b);
    LookalikesApply(gw, listener, k, a, b);
    LookalikesHold(gw, listener, k, a, b);
    hide Lookalikes;
    BuiltAlone(gw.name, listener, ps[WIDE].spec, k, a);
    hide *;
    AppliedGives(ps, WIDE, gw, listener);
  }

  lemma SettlesBy(ps: Policies, gw: Gateway, listener: string, show: Printed, want: Spec, stored: Spec)
    requires !Taken(ps, gw, listener) && PolicyName(listener) in ps && ps[PolicyName(listener)].spec == stored
    requires DesiredSpec(ps, gw, listener) == want && SpecsEqual(show, want, stored)
    ensures Settled(ps, gw, listener, show)
  {
  }

  /** Two values that print alike pass for each other: the stored setting is never corrected to the Gateway-wide one. */
  lemma LookalikeStays(show: Printed, gw: Gateway, listener: string, k: string, a: Json, b: Json, now: int)
    requires IsLeaf(a) && show(a) == show(b) && Inheritable(k) && (listener == EXTERNAL || listener == INTERNAL)
    ensures var ps, own := Lookalikes(gw, listener, k, a, b), PolicyName(listener);
            && AfterPass(ps, gw, listener, show, now) == ps
            && IsApplied(ps, WIDE, gw, listener) && k in ps[WIDE].spec && ps[WIDE].spec[k] == a
            && own in ps && k in ps[own].spec && ps[own].spec[k] == b
  {
    var ps := Lookalikes(gw, listener, k, a, b);
    LookalikesApply(gw, listener, k, a, b);
    LookalikesHold(gw, listener, k, a, b);
    LookalikesWant(gw, listener, k, a, b);
    AloneEqual(show, gw.name, listener, k, a, b);
    hide *;
    SettlesBy(ps, gw, listener, show, Alone(gw.name, listener, k, a), Alone(gw.name, listener, k, b));
    SettledIsFixed(ps, gw, listener, show, now);
  }

  /** So passes always store what they should exactly for a printer that tells plain values apart. */
  lemma PassStoresDesiredExactly(gw: Gateway, listener: string, show: Printed, now: int)
    requires listener == EXTERNAL || listener == INTERNAL
    ensures (forall ps :: Named(ps) && NameIsOurs(ps, listener) && !Taken(ps, gw, listener)
              ==> (var qs := AfterPass(ps, gw, listener, show, now);
                   PolicyName(listener) in qs && qs[PolicyName(listener)].spec == DesiredSpec(ps, gw, listener)))
            <==> PrintsApart(show)
  {
    if PrintsApart(show) {
      forall ps | Named(ps) && NameIsOurs(ps, listener) && !Taken(ps, gw, listener)
        ensures var qs := AfterPass(ps, gw, listener, show, now);
                PolicyName(listener) in qs && qs[PolicyName(listener)].spec == DesiredSpec(ps, gw, listener)
      {
        PassKeepsSettings(ps, gw, listener, show, now);
      }
    } else {
      var a, b :| IsLeaf(a) && show(a) == show(b) && a != b;
      var k := "timeout";
      assert |k| == 7 && k[0] != HEADERS[0];
      assert Inheritable(k) by { assert |TARGET_REF| == 9 && |TARGET_REFS| == 10 && |TARGET_SELECTORS| == 15; }
      var ps, own := Lookalikes(gw, listener, k, a, b), PolicyName(listener);
      LookalikeStays(show, gw, listener, k, a, b, now);
      LookalikesApply(gw, listener, k, a, b);
      LookalikesWant(gw, listener, k, a, b);
      assert Alone(gw.name, listener, k, a)[k] == a && ps[own].spec[k] == b;
      hide *;
      assert AfterPass(ps, gw, listener, show, now)[own].spec != DesiredSpec(ps, gw, listener);
    }
  }

  // ---- When the reserved name belongs to someone else ----

  /** The values the target reference is made of print like nothing else. */
  ghost predicate TargetTellsApart(show: Printed, gw: Gateway, listener: string) {
    && TellsApart(show, "gateway.networking.k8s.io") && TellsApart(show, "Gateway")
    && TellsApart(show, gw.name) && TellsApart(show, listener)
  }

  lemma TargetHitsListener(gw: Gateway, listener: string)
    ensures RefScope(TargetRef(gw.name, listener), gw, listener).OnListener?
  {
    TargetKeys();
  }

  lemma TargetKeys()
    ensures GROUP != KIND && GROUP != NAME && GROUP != SECTION && KIND != NAME && KIND != SECTION && NAME != SECTION
  {
    assert |GROUP| == 5 && |KIND| == 4 && |NAME| == 4 && |SECTION| == 11 && KIND[0] == 'k' && NAME[0] == 'n';
  }

  /** A policy that passes for the desired one targets the listener. */
  lemma DesiredTargetsListener(show: Printed, gw: Gateway, listener: string, inherited: Spec, p: Policy)
    requires TargetTellsApart(show, gw, listener) && SpecsEqual(show, Built(gw.name, listener, inherited), p.spec)
    ensures ScopeOf(p, gw, listener) == Ok(OnListener)
  {
    var b, ref := Built(gw.name, listener, inherited), TargetRef(gw.name, listener);
    SpecLevel(gw.name, listener, inherited);
    assert TARGET_REFS in b && b[TARGET_REFS].Arr? && b[TARGET_REFS].items == [ref] by { KeyNames(); }
    EqualMember(show, b, p.spec, TARGET_REFS);
    var stored := p.spec[TARGET_REFS].items[0];
    assert ValueEqual(show, ref, stored) by { assert ref == b[TARGET_REFS].items[0]; }
    SameTarget(show, gw, listener, stored);
    TargetHitsListener(gw, listener);
    assert stored in Refs(p.spec);
  }

  lemma SameTarget(show: Printed, gw: Gateway, listener: string, stored: Json)
    requires TargetTellsApart(show, gw, listener) && ValueEqual(show, TargetRef(gw.name, listener), stored)
    ensures RefScope(stored, gw, listener).OnListener?
  {
    TargetKeys();
    var ref := TargetRef(gw.name, listener).fields;
    assert ref[GROUP] == Str("gateway.networking.k8s.io") && ref[KIND] == Str("Gateway");
    assert ref[NAME] == Str(gw.name) && ref[SECTION] == Str(listener);
    EqualMember(show, ref, stored.fields, GROUP);
    EqualMember(show, ref, stored.fields, KIND);
    EqualMember(show, ref, stored.fields, NAME);
    EqualMember(show, ref, stored.fields, SECTION);
    assert stored.fields[GROUP] == Str("gateway.networking.k8s.io");
    assert stored.fields[KIND] == Str("Gateway") && stored.fields[NAME] == Str(gw.name)
           && stored.fields[SECTION] == Str(listener);
  }

  /**
   Exactly when one pass is enough: the reserved name is unused or the operator's, or some other policy has
   the listener. Otherwise the operator takes over the stranger's policy (or deletes it) and the next pass
   undoes that: it finds a policy not its own on the listener, or none at all.
   */
  lemma OnePassIsEnoughExactly(ps: Policies, gw: Gateway, listener: string, show: Printed, now: int, then': int)
    requires Named(ps) && (listener == EXTERNAL || listener == INTERNAL) && TargetTellsApart(show, gw, listener)
    ensures var qs := AfterPass(ps, gw, listener, show, now);
            AfterPass(qs, gw, listener, show, then') == qs
            <==> NameIsOurs(ps, listener)
                 || exists n :: n != PolicyName(listener) && ForeignAt(ps, n, gw, listener, OnListener)
  {
    var own, qs := PolicyName(listener), AfterPass(ps, gw, listener, show, now);
    if NameIsOurs(ps, listener) {
      PassSettles(ps, gw, listener, show, now);
      SettledIsFixed(qs, gw, listener, show, then');
    } else if exists n :: n != own && ForeignAt(ps, n, gw, listener, OnListener) {
      var n :| n != own && ForeignAt(ps, n, gw, listener, OnListener);
      assert ForeignAt(qs, n, gw, listener, OnListener) && n in qs;
      assert own !in qs;
    } else if ForeignAt(ps, own, gw, listener, OnListener) {
      assert qs == ps - {own};
      assert !Taken(qs, gw, listener) by {
        forall n | n in qs ensures !ForeignAt(qs, n, gw, listener, OnListener) {
          assert !ForeignAt(ps, n, gw, listener, OnListener);
        }
      }
      assert own in AfterPass(qs, gw, listener, show, then');
    } else {
      StrangerIsTakenOver(ps, gw, listener, show, now);
      assert own !in AfterPass(qs, gw, listener, show, then');
    }
  }

  lemma StrangerIsTakenOver(ps: Policies, gw: Gateway, listener: string, show: Printed, now: int)
    requires Named(ps) && TargetTellsApart(show, gw, listener)
    requires PolicyName(listener) in ps && !IsOwn(ps[PolicyName(listener)])
    requires forall n :: !ForeignAt(ps, n, gw, listener, OnListener)
    ensures var qs := AfterPass(ps, gw, listener, show, now);
            PolicyName(listener) in qs && ForeignAt(qs, PolicyName(listener), gw, listener, OnListener)
  {
    var own, want := PolicyName(listener), DesiredSpec(ps, gw, listener);
    if SpecsEqual(show, want, ps[own].spec) {
      DesiredTargetsListener(show, gw, listener, Inherited(ps, gw, listener), ps[own]);
    } else {
      SpecsEqualReflexive(show, want);
      DesiredTargetsListener(show, gw, listener, Inherited(ps, gw, listener), ps[own].(spec := want));
    }
    hide ScopeOf, SpecsEqual, DesiredSpec;
  }
}
