/**
 The key metadata of all models together, as listing every key reads it: each model's ConfigMap steps on its own,
 and an ID listed anywhere at any two times is one model's, with one owner.
 */
module FleetKeys {
  import opened Common
  import opened ClientIds
  import opened ModelAccess
  import KS = KeyStore

  // ---- Metadata is written for minted IDs only ----

  predicate WillWriteMeta(t: KS.Attempt) { t.CreateWroteSecret? || t.RevokeWroteSecret? || t.RevokeStamped? }

  ghost predicate MetaInv(h: Digest, s: KS.State) {
    && StoreInv(h, s) && AllMinted(h, s, s.meta.data)
    && forall a :: a in s.attempts && WillWriteMeta(s.attempts[a]) ==> Minted(h, s.users, s.model, s.attempts[a].id)
  }

  lemma NewMetaId(h: Digest, s: KS.State, act: KS.Action, id: string)
    requires KS.Inv(s) && id !in s.meta.data && id in KS.Apply(h, s, act).meta.data
    ensures act.WriteMeta? && act.a in s.attempts && WillWriteMeta(s.attempts[act.a]) && s.attempts[act.a].id == id
  {
    assert act.WriteMeta? && act.a in s.attempts;
    assert KS.AttemptOk(s, s.attempts[act.a]);
  }

  lemma AfterSecretWrite(s: KS.State, a: nat)
    requires KS.Inv(s) && a in s.attempts
    ensures var t := KS.DoWriteSecret(s, a);
            && t.attempts.Keys == s.attempts.Keys
            && (forall b :: b in s.attempts && b != a ==> t.attempts[b] == s.attempts[b])
            && (WillWriteMeta(t.attempts[a]) ==> MayWriteMeta(s, s.attempts[a], t.attempts[a].id))
  {
    assert KS.AttemptOk(s, s.attempts[a]);
  }

  lemma AfterMetaWrite(s: KS.State, a: nat)
    requires a in s.attempts
    ensures forall b :: b in KS.DoWriteMeta(s, a).attempts && WillWriteMeta(KS.DoWriteMeta(s, a).attempts[b]) ==>
              b in s.attempts && s.attempts[b] == KS.DoWriteMeta(s, a).attempts[b]
  {
  }

  lemma AfterOthers(h: Digest, s: KS.State, act: KS.Action, a: nat)
    requires !act.WriteSecret? && !act.WriteMeta?
    requires a in KS.Apply(h, s, act).attempts && WillWriteMeta(KS.Apply(h, s, act).attempts[a])
    ensures a in s.attempts && WillWriteMeta(s.attempts[a]) && s.attempts[a].id == KS.Apply(h, s, act).attempts[a].id
  {
    hide ClientId;
  }

  /** Its ID is in the Secret, or it is the attempt that puts it there or put it there. */
  ghost predicate MayWriteMeta(s: KS.State, t: KS.Attempt, id: string) {
    ((WillWriteMeta(t) || t.CreateDrawn?) && t.id == id) || id in s.secret.data
  }

  /** An attempt that will write metadata got its ID from the Secret, or is the one that put it there. */
  lemma WhoWillWrite(h: Digest, s: KS.State, act: KS.Action, a: nat)
    requires KS.Inv(s) && a in KS.Apply(h, s, act).attempts && WillWriteMeta(KS.Apply(h, s, act).attempts[a])
    ensures a in s.attempts && MayWriteMeta(s, s.attempts[a], KS.Apply(h, s, act).attempts[a].id)
  {
    hide KS.Inv, KS.DoWriteSecret, KS.DoWriteMeta, KS.DoReadSecret, KS.DoReadMeta, KS.DoDraw, KS.DoStamp;
    match act
    case WriteSecret(b) => if b in s.attempts { AfterSecretWrite(s, b); }
    case WriteMeta(b) => if b in s.attempts { AfterMetaWrite(s, b); }
    case _ => AfterOthers(h, s, act, a);
  }

  lemma MintedLater(h: Digest, s: KS.State, act: KS.Action, id: string)
    requires Minted(h, s.users, s.model, id)
    ensures Minted(h, KS.Apply(h, s, act).users, KS.Apply(h, s, act).model, id)
  {
    StoreStepUsers(h, s, act);
    hide KS.Apply, ClientId;
  }

  lemma MetaStep(h: Digest, s: KS.State, act: KS.Action)
    requires MetaInv(h, s)
    ensures MetaInv(h, KS.Apply(h, s, act))
  {
    var t := KS.Apply(h, s, act);
    StoreStep(h, s, act);
    hide KS.Apply, KS.Inv, Minted;
    forall id | id in t.meta.data ensures Minted(h, t.users, t.model, id) {
      if id !in s.meta.data { NewMetaId(h, s, act, id); }
      MintedLater(h, s, act, id);
    }
    forall a | a in t.attempts && WillWriteMeta(t.attempts[a]) ensures Minted(h, t.users, t.model, t.attempts[a].id) {
      WhoWillWrite(h, s, act, a);
      assert MintedAttempt(h, s, s.attempts[a]);
      MintedLater(h, s, act, t.attempts[a].id);
    }
  }

  /** The operator created every object empty, metadata included. */
  ghost predicate InitEmpty(f: Fleet) { Init(f) && forall m :: m in f ==> f[m].meta.data == map[] }

  lemma {:induction false} MetaRun(h: Digest, f: Fleet, xs: seq<FleetAction>)
    requires InitEmpty(f)
    ensures forall m :: m in Run(h, f, xs) ==> Run(h, f, xs)[m].model == m && MetaInv(h, Run(h, f, xs)[m])
    ensures Run(h, f, xs).Keys == f.Keys
  {
    FleetRun(h, f, xs);
    if xs == [] {
      forall m | m in f ensures MetaInv(h, f[m]) { assert StoreInv(h, f[m]) && f[m].attempts == map[]; }
    } else {
      var g, x := Run(h, f, xs[..|xs| - 1]), xs[|xs| - 1];
      MetaRun(h, f, xs[..|xs| - 1]);
      if x.model in g { MetaStep(h, g[x.model], x.act); }
      hide MetaInv, FleetInv, KS.Apply, Init;
    }
  }

  lemma MetaMinterOf(h: Digest, f: Fleet, xs: seq<FleetAction>, i: nat, m: string, id: string)
    returns (u: string, suffix: string)
    requires InitEmpty(f) && i <= |xs| && m in Run(h, f, xs[..i]) && id in Run(h, f, xs[..i])[m].meta.data
    ensures id == ClientId(h, u, m, suffix) && IsSuffix(suffix)
    ensures m in Run(h, f, xs) && Pair(u, m) in PairsInPlay(Run(h, f, xs))
  {
    MetaRun(h, f, xs[..i]);
    UsersGrow(h, f, xs, i, m);
    var s := Run(h, f, xs[..i])[m];
    hide Run, InitEmpty, ClientId, StoreInv;
    assert MetaInv(h, s) && s.model == m;
    assert Minted(h, s.users, s.model, id);
    u, suffix :| u in s.users && IsSuffix(suffix) && id == ClientId(h, u, m, suffix);
    assert u in AllUsers(Run(h, f, xs));
  }

  /** Different models' metadata share no client ID, in any two reachable states. */
  lemma MetadataDisjoint(h: Digest, f: Fleet, xs: seq<FleetAction>, i: nat, j: nat, a: string, b: string, id: string)
    requires InitEmpty(f) && i <= |xs| && j <= |xs| && Separable(h, Run(h, f, xs))
    requires a in Run(h, f, xs[..i]) && id in Run(h, f, xs[..i])[a].meta.data
    requires b in Run(h, f, xs[..j]) && id in Run(h, f, xs[..j])[b].meta.data
    ensures a == b
  {
    var u, s1 := MetaMinterOf(h, f, xs, i, a, id);
    var v, s2 := MetaMinterOf(h, f, xs, j, b, id);
    ClientIdIdentifiesPair(h, u, a, s1, v, b, s2);
  }

  // ---- One model's part of a run ----

  function ActsOf(xs: seq<FleetAction>, m: string): seq<KS.Action> {
    if xs == [] then []
    else
      var x := xs[|xs| - 1];
      ActsOf(xs[..|xs| - 1], m) + if x.model == m then [x.act] else []
  }

  lemma {:induction false} RunOfModel(h: Digest, f: Fleet, xs: seq<FleetAction>, m: string)
    requires m in f
    ensures m in Run(h, f, xs) && Run(h, f, xs)[m] == KS.Run(h, f[m], ActsOf(xs, m))
  {
    if xs != [] {
      RunOfModel(h, f, xs[..|xs| - 1], m);
      var before, x := ActsOf(xs[..|xs| - 1], m), xs[|xs| - 1];
      if x.model == m {
        assert ActsOf(xs, m)[..|ActsOf(xs, m)| - 1] == before;
      } else {
        assert ActsOf(xs, m) == before;
      }
      hide KS.Apply;
    }
  }

  lemma {:induction false} ActsOfPrefix(xs: seq<FleetAction>, i: nat, m: string)
    requires i <= |xs|
    ensures |ActsOf(xs[..i], m)| <= |ActsOf(xs, m)| && ActsOf(xs, m)[..|ActsOf(xs[..i], m)|] == ActsOf(xs[..i], m)
  {
    if i < |xs| {
      ActsOfPrefix(xs[..|xs| - 1], i, m);
      assert xs[..|xs| - 1][..i] == xs[..i];
    } else {
      assert xs[..i] == xs;
    }
  }

  lemma AtOfModel(h: Digest, f: Fleet, xs: seq<FleetAction>, i: nat, m: string)
    requires m in f && i <= |xs|
    ensures m in Run(h, f, xs[..i]) && |ActsOf(xs[..i], m)| <= |ActsOf(xs, m)|
    ensures Run(h, f, xs[..i])[m] == KS.At(h, f[m], ActsOf(xs, m), |ActsOf(xs[..i], m)|)
  {
    RunOfModel(h, f, xs[..i], m);
    ActsOfPrefix(xs, i, m);
    hide Run, KS.Run, ActsOf;
  }

  lemma {:induction false} ActsOfGrows(xs: seq<FleetAction>, i: nat, j: nat, m: string)
    requires i <= j <= |xs|
    ensures |ActsOf(xs[..i], m)| <= |ActsOf(xs[..j], m)|
  {
    ActsOfPrefix(xs[..j], i, m);
    assert xs[..j][..i] == xs[..i];
    hide ActsOf;
  }

  /** No model's random suffixes repeat. */
  ghost predicate Fresh(h: Digest, f: Fleet, xs: seq<FleetAction>) {
    InitEmpty(f) && forall m :: m in f ==> KS.FreshInit(f[m]) && KS.FreshDraws(h, f[m], ActsOf(xs, m))
  }

  /** An ID listed anywhere at two times is one model's, with one owner. */
  lemma OneModelOneOwner(h: Digest, f: Fleet, xs: seq<FleetAction>, i: nat, j: nat, a: string, b: string, id: string)
    requires Fresh(h, f, xs) && i <= j <= |xs| && Separable(h, Run(h, f, xs))
    requires a in Run(h, f, xs[..i]) && id in Run(h, f, xs[..i])[a].meta.data
    requires b in Run(h, f, xs[..j]) && id in Run(h, f, xs[..j])[b].meta.data
    ensures a == b
    ensures KS.OwnerOf(Run(h, f, xs[..i])[a].meta.data[id]) == KS.OwnerOf(Run(h, f, xs[..j])[b].meta.data[id])
  {
    MetadataDisjoint(h, f, xs, i, j, a, b, id);
    MetaRun(h, f, xs[..i]);
    hide Run, KS.At, ActsOf, KS.FreshInit, KS.FreshDraws, Separable, MetaInv, InitEmpty;
    AtOfModel(h, f, xs, i, a);
    AtOfModel(h, f, xs, j, a);
    ActsOfGrows(xs, i, j, a);
    KS.OwnerIsForever(h, f[a], ActsOf(xs, a), |ActsOf(xs[..i], a)|, |ActsOf(xs[..j], a)|, id);
  }
}
