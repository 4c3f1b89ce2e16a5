/**
 What a pass over the listener policies goes by, in the policies' own JSON: other Gateways' policies play no part,
 and the policy inherited is the oldest of those on the whole Gateway.
 */
module HeaderTargets {
  import opened Common
  import opened StringOrder
  import opened HeaderPolicy

  /** One of the operator's own two policies, by label and name. */
  lemma OwnByLabelAndName(p: Policy)
    ensures IsOwn(p) <==> p.managedBy == "nebari-llm-operator"
                          && (p.name == "llm-https-client-headers" || p.name == "llm-internal-https-client-headers")
  {
    assert PolicyName(EXTERNAL) == "llm-https-client-headers";
    assert PolicyName(INTERNAL) == "llm-internal-https-client-headers";
  }

  /** A policy all of whose Gateway references name other Gateways, and that has no selectors. */
  ghost predicate OfOthers(spec: Spec, gateway: string) {
    && (forall ref :: IsReference(spec, ref) ==> !NamesGateway(ref, gateway))
    && ("targetSelectors" in spec && spec["targetSelectors"].Arr? ==> spec["targetSelectors"].items == [])
  }

  lemma OthersAreElsewhere(p: Policy, gw: Gateway, listener: string)
    requires listener != "" && OfOthers(p.spec, gw.name)
    ensures ScopeOf(p, gw, listener) == Ok(Elsewhere)
  {
    ScopeIsExact(p, gw, listener);
    hide ScopeOf, IsReference, NamesGateway;
  }

  lemma NeverAtOthers(ps: Policies, n: string, m: string, gw: Gateway, listener: string, scope: Scope)
    requires n in ps && ScopeOf(ps[n], gw, listener) == Ok(Elsewhere) && scope != Elsewhere
    ensures ForeignAt(ps - {n}, m, gw, listener, scope) <==> ForeignAt(ps, m, gw, listener, scope)
  {
    hide ScopeOf, IsOwn;
  }

  lemma SameApplied(ps: Policies, n: string, gw: Gateway, listener: string)
    requires Named(ps) && n in ps
    requires forall m :: ForeignAt(ps - {n}, m, gw, listener, OnGateway) <==> ForeignAt(ps, m, gw, listener, OnGateway)
    ensures Inherited(ps - {n}, gw, listener) == Inherited(ps, gw, listener)
  {
    hide ScopeOf, IsOwn, Older;
    var qs := ps - {n};
    forall m ensures IsApplied(qs, m, gw, listener) <==> IsApplied(ps, m, gw, listener) {
      assert ForeignAt(qs, m, gw, listener, OnGateway) ==> m in qs;
      assert forall k :: ForeignAt(ps, k, gw, listener, OnGateway) ==> k in qs && qs[k] == ps[k];
    }
    if m :| IsApplied(ps, m, gw, listener) {
      var a :| IsApplied(ps, a, gw, listener) && Inherited(ps, gw, listener) == ps[a].spec;
      var b :| IsApplied(qs, b, gw, listener) && Inherited(qs, gw, listener) == qs[b].spec;
      AppliedIsUnique(ps, a, b, gw, listener);
    }
  }

  lemma OthersPlayNoPart(ps: Policies, n: string, gw: Gateway, listener: string)
    requires Named(ps) && n in ps && ScopeOf(ps[n], gw, listener) == Ok(Elsewhere)
    ensures Taken(ps - {n}, gw, listener) == Taken(ps, gw, listener)
    ensures Inherited(ps - {n}, gw, listener) == Inherited(ps, gw, listener)
  {
    hide ScopeOf, IsOwn, Inherited, Named, IsApplied;
    forall m
      ensures ForeignAt(ps - {n}, m, gw, listener, OnListener) <==> ForeignAt(ps, m, gw, listener, OnListener)
      ensures ForeignAt(ps - {n}, m, gw, listener, OnGateway) <==> ForeignAt(ps, m, gw, listener, OnGateway)
    {
      NeverAtOthers(ps, n, m, gw, listener, OnListener);
      NeverAtOthers(ps, n, m, gw, listener, OnGateway);
    }
    SameApplied(ps, n, gw, listener);
  }

  /** A pass does the same with such a policy there and without it. */
  lemma OthersDoNotMatter(ps: Policies, n: string, gw: Gateway, listener: string, show: Printed, now: int)
    requires Named(ps) && n in ps && n != PolicyName(listener) && listener != "" && OfOthers(ps[n].spec, gw.name)
    ensures AfterPass(ps - {n}, gw, listener, show, now) == AfterPass(ps, gw, listener, show, now) - {n}
  {
    hide Inherited, Taken, ScopeOf, SpecsEqual, Built, OfOthers, Named, PolicyName;
    OthersAreElsewhere(ps[n], gw, listener);
    OthersPlayNoPart(ps, n, gw, listener);
  }

  /** Somebody else's policy on the whole Gateway, not the operator's own by label and name. */
  ghost predicate IsWide(ps: Policies, n: string, gw: Gateway, listener: string) {
    && n in ps && OnWholeGateway(ps[n].spec, gw, listener)
    && !(ps[n].managedBy == "nebari-llm-operator"
         && (ps[n].name == "llm-https-client-headers" || ps[n].name == "llm-internal-https-client-headers"))
  }

  lemma WideIsForeign(ps: Policies, n: string, gw: Gateway, listener: string)
    requires listener != ""
    ensures IsWide(ps, n, gw, listener) <==> ForeignAt(ps, n, gw, listener, OnGateway)
  {
    if n in ps {
      OwnByLabelAndName(ps[n]);
      ScopeIsExact(ps[n], gw, listener);
      hide ScopeOf, IsOwn, OnWholeGateway;
    }
  }

  lemma {:induction false} OldestOf(ps: Policies, names: set<string>) returns (n: string)
    requires Named(ps) && names != {} && names <= ps.Keys
    ensures n in names && forall m :: m in names && m != n ==> Older(ps[n], ps[m])
    decreases names
  {
    var k :| k in names;
    n := k;
    if names != {k} {
      var rest := OldestOf(ps, names - {k});
      OlderIsStrict(ps[rest], ps[k]);
      forall m | m in names && Older(ps[k], ps[rest]) && m != k && m != rest ensures Older(ps[k], ps[m]) {
        OlderTransitive(ps[k], ps[rest], ps[m]);
      }
      hide Older;
      n := if Older(ps[k], ps[rest]) then k else rest;
    }
  }

  /**
   The settings inherited are those of the policy on the whole Gateway that was created first, the first by name
   of several created then; without such a policy nothing is inherited.
   */
  lemma InheritsTheOldest(ps: Policies, gw: Gateway, listener: string)
    requires Named(ps) && listener != ""
    ensures (forall n :: !IsWide(ps, n, gw, listener)) ==> Inherited(ps, gw, listener) == map[]
    ensures (exists n :: IsWide(ps, n, gw, listener)) ==>
              exists n :: && IsWide(ps, n, gw, listener) && Inherited(ps, gw, listener) == ps[n].spec
                          && forall m :: IsWide(ps, m, gw, listener) && m != n ==>
                               ps[n].created < ps[m].created || (ps[n].created == ps[m].created && Less(n, m))
  {
    forall n ensures IsWide(ps, n, gw, listener) <==> ForeignAt(ps, n, gw, listener, OnGateway) {
      WideIsForeign(ps, n, gw, listener);
    }
    if exists n :: IsWide(ps, n, gw, listener) {
      var k :| IsWide(ps, k, gw, listener);
      var wide := set n | n in ps && IsWide(ps, n, gw, listener);
      assert k in wide;
      var n := OldestOf(ps, wide);
      hide IsWide, ForeignAt;
      assert IsApplied(ps, n, gw, listener);
      var a :| IsApplied(ps, a, gw, listener) && Inherited(ps, gw, listener) == ps[a].spec;
      AppliedIsUnique(ps, a, n, gw, listener);
    }
  }
}
