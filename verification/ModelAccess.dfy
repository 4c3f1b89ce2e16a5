/**
 Who may call which model. Every model's API-key Secret is pooled into each external policy's
 credential refs, so any key authenticates anywhere; the per-model allow-list of client IDs, rendered
 by the operator from a read of that model's Secret, is what keeps a key to its own model.
 */
module ModelAccess {
  import opened Common
  import opened ClientIds
  import opened StringOrder
  import KS = KeyStore

  // ---- The fleet: one key store per model, stepping independently ----

  type Fleet = map<string, KS.State>

  datatype FleetAction = FleetAction(model: string, act: KS.Action)

  function Step(h: Digest, f: Fleet, x: FleetAction): Fleet {
    if x.model in f then f[x.model := KS.Apply(h, f[x.model], x.act)] else f
  }

  function Run(h: Digest, f: Fleet, xs: seq<FleetAction>): Fleet {
    if xs == [] then f else Step(h, Run(h, f, xs[..|xs| - 1]), xs[|xs| - 1])
  }

  /** The operator created every object empty; the manager has not run yet. */
  ghost predicate Init(f: Fleet) {
    forall m :: m in f ==> f[m].model == m && KS.Init(f[m]) && f[m].secret.data == map[] && f[m].users == {}
  }

  ghost predicate Minted(h: Digest, users: set<string>, model: string, id: string) {
    exists u, suffix :: u in users && IsSuffix(suffix) && id == ClientId(h, u, model, suffix)
  }

  ghost predicate AllMinted<V>(h: Digest, s: KS.State, ids: map<string, V>) {
    forall id :: id in ids ==> Minted(h, s.users, s.model, id)
  }

  ghost predicate MintedAttempt(h: Digest, s: KS.State, t: KS.Attempt) {
    match t
    case CreateStarted(c, _) => c.username in s.users
    case CreateReadSecret(c, _, _) => c.username in s.users
    case CreateReadMeta(c, _, _, _) => c.username in s.users
    case CreateDrawn(_, _, _, _, id, _) => Minted(h, s.users, s.model, id)
    case _ => true
  }

  ghost predicate AttemptsMinted(h: Digest, s: KS.State) {
    forall a :: a in s.attempts ==> MintedAttempt(h, s, s.attempts[a])
  }

  ghost predicate StoreInv(h: Digest, s: KS.State) {
    KS.Inv(s) && AllMinted(h, s, s.secret.data) && AttemptsMinted(h, s)
  }

  lemma StoreStepUsers(h: Digest, s: KS.State, act: KS.Action)
    ensures s.users <= KS.Apply(h, s, act).users && KS.Apply(h, s, act).model == s.model
  {
  }

  /** A client ID new to the Secret was drawn by the attempt that wrote it. */
  lemma NewIdWasDrawn(h: Digest, s: KS.State, act: KS.Action, id: string)
    requires KS.Inv(s) && id !in s.secret.data && id in KS.Apply(h, s, act).secret.data
    ensures act.WriteSecret? && act.a in s.attempts && s.attempts[act.a].CreateDrawn? && s.attempts[act.a].id == id
  {
    assert act.WriteSecret? && act.a in s.attempts;
    assert KS.AttemptOk(s, s.attempts[act.a]);
  }

  lemma StoreStepSecret(h: Digest, s: KS.State, act: KS.Action)
    requires StoreInv(h, s)
    ensures AllMinted(h, KS.Apply(h, s, act), KS.Apply(h, s, act).secret.data)
  {
    var t := KS.Apply(h, s, act);
    StoreStepUsers(h, s, act);
    forall id | id in t.secret.data ensures Minted(h, t.users, t.model, id) {
      if id !in s.secret.data {
        NewIdWasDrawn(h, s, act, id);
        assert MintedAttempt(h, s, s.attempts[act.a]);
      }
    }
  }

  lemma MintedMono(h: Digest, s: KS.State, t: KS.State, u: KS.Attempt)
    requires MintedAttempt(h, s, u) && s.users <= t.users && s.model == t.model
    ensures MintedAttempt(h, t, u)
  {
  }

  /** Only attempt a changed. */
  lemma AttemptsPut(h: Digest, s: KS.State, t: KS.State, a: nat)
    requires AttemptsMinted(h, s) && s.users <= t.users && s.model == t.model
    requires a in t.attempts && t.attempts == s.attempts[a := t.attempts[a]] && MintedAttempt(h, t, t.attempts[a])
    ensures AttemptsMinted(h, t)
  {
    forall b | b in t.attempts ensures MintedAttempt(h, t, t.attempts[b]) {
      if b != a { MintedMono(h, s, t, s.attempts[b]); }
    }
  }

  lemma AttemptsRead(h: Digest, s: KS.State, a: nat)
    requires AttemptsMinted(h, s) && a in s.attempts
    ensures AttemptsMinted(h, KS.DoReadSecret(s, a)) && AttemptsMinted(h, KS.DoReadMeta(s, a))
            && AttemptsMinted(h, KS.DoStamp(s, a))
  {
    assert MintedAttempt(h, s, s.attempts[a]);
    if KS.DoReadSecret(s, a) != s { AttemptsPut(h, s, KS.DoReadSecret(s, a), a); }
    if KS.DoReadMeta(s, a) != s { AttemptsPut(h, s, KS.DoReadMeta(s, a), a); }
    if KS.DoStamp(s, a) != s { AttemptsPut(h, s, KS.DoStamp(s, a), a); }
  }

  lemma AttemptsDraw(h: Digest, s: KS.State, a: nat, suffix: string, key: string)
    requires AttemptsMinted(h, s) && a in s.attempts
    ensures AttemptsMinted(h, KS.DoDraw(h, s, a, suffix, key))
  {
    var t := KS.DoDraw(h, s, a, suffix, key);
    if t.attempts != s.attempts {
      var u := s.attempts[a].creator.username;
      assert u in s.users by { assert MintedAttempt(h, s, s.attempts[a]); }
      assert Minted(h, s.users, s.model, ClientId(h, u, s.model, suffix));
      AttemptsPut(h, s, t, a);
    } else {
      forall b | b in t.attempts ensures MintedAttempt(h, t, t.attempts[b]) { MintedMono(h, s, t, s.attempts[b]); }
    }
  }

  lemma AttemptsWrite(h: Digest, s: KS.State, a: nat)
    requires AttemptsMinted(h, s) && a in s.attempts
    ensures AttemptsMinted(h, KS.DoWriteSecret(s, a)) && AttemptsMinted(h, KS.DoWriteMeta(s, a))
  {
    if KS.DoWriteSecret(s, a) != s { AttemptsPut(h, s, KS.DoWriteSecret(s, a), a); }
    if KS.DoWriteMeta(s, a) != s { AttemptsPut(h, s, KS.DoWriteMeta(s, a), a); }
  }

  lemma AttemptsStep(h: Digest, s: KS.State, act: KS.Action)
    requires AttemptsMinted(h, s)
    ensures AttemptsMinted(h, KS.Apply(h, s, act))
  {
    var t := KS.Apply(h, s, act);
    match act
    case Tick(_) =>
      forall b | b in t.attempts ensures MintedAttempt(h, t, t.attempts[b]) { MintedMono(h, s, t, s.attempts[b]); }
    case StartCreate(a, _, _) => if a !in s.attempts { AttemptsPut(h, s, t, a); }
    case StartRevoke(a, _) => if a !in s.attempts { AttemptsPut(h, s, t, a); }
    case Draw(a, suffix, key) => if a in s.attempts { AttemptsDraw(h, s, a, suffix, key); }
    case ReadSecret(a) => if a in s.attempts { AttemptsRead(h, s, a); }
    case ReadMeta(a) => if a in s.attempts { AttemptsRead(h, s, a); }
    case Stamp(a) => if a in s.attempts { AttemptsRead(h, s, a); }
    case WriteSecret(a) => if a in s.attempts { AttemptsWrite(h, s, a); }
    case WriteMeta(a) => if a in s.attempts { AttemptsWrite(h, s, a); }
    case Abort(a) => if a in s.attempts { AttemptsPut(h, s, t, a); }
  }

  lemma StoreStep(h: Digest, s: KS.State, act: KS.Action)
    requires StoreInv(h, s)
    ensures StoreInv(h, KS.Apply(h, s, act))
  {
    KS.InvStep(h, s, act);
    StoreStepSecret(h, s, act);
    AttemptsStep(h, s, act);
  }

  ghost predicate FleetInv(h: Digest, f: Fleet) {
    forall m :: m in f ==> f[m].model == m && StoreInv(h, f[m])
  }

  lemma {:induction false} FleetRun(h: Digest, f: Fleet, xs: seq<FleetAction>)
    requires Init(f)
    ensures FleetInv(h, Run(h, f, xs)) && Run(h, f, xs).Keys == f.Keys
  {
    if xs != [] {
      var g := Run(h, f, xs[..|xs| - 1]);
      var x := xs[|xs| - 1];
      FleetRun(h, f, xs[..|xs| - 1]);
      if x.model in g {
        StoreStep(h, g[x.model], x.act);
        StoreStepUsers(h, g[x.model], x.act);
      }
    }
  }

  /** Users of the whole run, so of every earlier state too. */
  lemma {:induction false} UsersGrow(h: Digest, f: Fleet, xs: seq<FleetAction>, i: nat, m: string)
    requires Init(f) && i <= |xs| && m in f
    ensures m in Run(h, f, xs[..i]) && m in Run(h, f, xs)
    ensures Run(h, f, xs[..i])[m].users <= Run(h, f, xs)[m].users
  {
    FleetRun(h, f, xs[..i]);
    FleetRun(h, f, xs);
    if i < |xs| {
      var g := Run(h, f, xs[..|xs| - 1]);
      var x := xs[|xs| - 1];
      UsersGrow(h, f, xs[..|xs| - 1], i, m);
      assert xs[..|xs| - 1][..i] == xs[..i];
      if x.model in g { StoreStepUsers(h, g[x.model], x.act); }
    } else {
      assert xs[..i] == xs;
    }
  }

  function AllUsers(f: Fleet): set<string> { set m, u | m in f && u in f[m].users :: u }

  /** The digest inputs of every pair that could be minted in this fleet. */
  function PairsInPlay(f: Fleet): set<string> { set u, m | u in AllUsers(f) && m in f :: Pair(u, m) }

  /** The assumptions about names and the digest, for the users and models of one run. */
  ghost predicate Separable(h: Digest, f: Fleet) {
    HexDigest(h) && (forall m :: m in f ==> NUL !in m) && CollisionFree(h, PairsInPlay(f))
  }

  /**
   Different models' Secrets share no client ID, in any two reachable states: an ID in A's Secret at
   one time and in B's at another means A is B.
   */
  lemma SecretsDisjoint(h: Digest, f: Fleet, xs: seq<FleetAction>, i: nat, j: nat, a: string, b: string, id: string)
    requires Init(f) && i <= |xs| && j <= |xs| && Separable(h, Run(h, f, xs))
    requires a in Run(h, f, xs[..i]) && id in Run(h, f, xs[..i])[a].secret.data
    requires b in Run(h, f, xs[..j]) && id in Run(h, f, xs[..j])[b].secret.data
    ensures a == b
  {
    FleetRun(h, f, xs);
    var u, s1 := MinterOf(h, f, xs, i, a, id);
    var v, s2 := MinterOf(h, f, xs, j, b, id);
    ClientIdIdentifiesPair(h, u, a, s1, v, b, s2);
  }

  /** Every reachable Secret entry names the user who minted it for that model, and is a legal data key. */
  lemma MinterOf(h: Digest, f: Fleet, xs: seq<FleetAction>, i: nat, m: string, id: string)
    returns (u: string, suffix: string)
    requires Init(f) && i <= |xs| && HexDigest(h)
    requires m in Run(h, f, xs[..i]) && id in Run(h, f, xs[..i])[m].secret.data
    ensures id == ClientId(h, u, m, suffix) && IsSuffix(suffix) && IsDataKeyName(id)
    ensures m in Run(h, f, xs) && u in AllUsers(Run(h, f, xs)) && Pair(u, m) in PairsInPlay(Run(h, f, xs))
  {
    FleetRun(h, f, xs[..i]);
    FleetRun(h, f, xs);
    UsersGrow(h, f, xs, i, m);
    var s := Run(h, f, xs[..i])[m];
    assert Minted(h, s.users, s.model, id);
    u, suffix :| u in s.users && IsSuffix(suffix) && id == ClientId(h, u, m, suffix);
    ClientIdIsDataKey(h, u, m, suffix);
  }

  // ---- What the operator renders ----

  datatype Secret = Secret(name: string, managedByOperator: bool, data: map<string, string>)

  const API_KEYS_SUFFIX := "-api-keys"

  function SecretName(model: string): string { model + API_KEYS_SUFFIX }

  predicate HasSuffix(s: string, suffix: string) { |suffix| <= |s| && s[|s| - |suffix|..] == suffix }

  lemma SuffixEnds(s: string, suffix: string)
    ensures HasSuffix(s, suffix) <==> exists t :: s == t + suffix
  {
    if HasSuffix(s, suffix) { assert s == s[..|s| - |suffix|] + suffix; }
  }

  /** ClientIDsFromSecret, with no Secret yielding no IDs. */
  method ClientIDsFromSecret(secret: Option<Secret>) returns (ids: seq<string>)
    ensures Ascending(ids)
    ensures Elements(ids) == if secret.Some? then secret.value.data.Keys else {}
  {
    if secret.None? { return []; }
    ids := SortedListing(secret.value.data.Keys);
  }

  /** apiKeySecretNamesWith: every operator-managed api-keys Secret, and always the model's own. */
  method ApiKeySecretNamesWith(listed: seq<Secret>, ownName: string) returns (names: seq<string>)
    ensures Ascending(names)
    ensures Elements(names) ==
              {ownName} + (set x | x in listed && x.managedByOperator && HasSuffix(x.name, API_KEYS_SUFFIX) :: x.name)
  {
    var found := {ownName};
    for i := 0 to |listed|
      invariant found ==
                  {ownName}
                  + (set x | x in listed[..i] && x.managedByOperator && HasSuffix(x.name, API_KEYS_SUFFIX) :: x.name)
    {
      assert listed[..i + 1] == listed[..i] + [listed[i]];
      if listed[i].managedByOperator && HasSuffix(listed[i].name, API_KEYS_SUFFIX) {
        found := found + {listed[i].name};
      }
    }
    assert listed[..|listed|] == listed;
    names := SortedListing(found);
  }

  datatype Rule = Rule(allow: bool, header: string, values: seq<string>)
  datatype Authorization = Authorization(defaultAllow: bool, rules: seq<Rule>)

  const CLIENT_ID_HEADER := "x-llm-client-id"

  /** buildAPIKeyAuthorization: deny by default, one Allow rule unless there is nobody to allow. */
  function BuildAuthorization(clientIds: seq<string>): Authorization {
    if clientIds == [] then Authorization(false, [])
    else Authorization(false, [Rule(true, CLIENT_ID_HEADER, clientIds)])
  }

  /** The gateway's evaluation: the first rule naming the header's value decides. */
  predicate Permits(authz: Authorization, header: string, value: string)
    decreases |authz.rules|
  {
    if authz.rules == [] then authz.defaultAllow
    else if authz.rules[0].header == header && value in authz.rules[0].values then authz.rules[0].allow
    else Permits(authz.(rules := authz.rules[1..]), header, value)
  }

  /** There is one rule, on the client ID, exactly when there is anybody to allow; all else is denied. */
  lemma AuthorizationIsOneRule(clientIds: seq<string>)
    ensures var a := BuildAuthorization(clientIds);
            && !a.defaultAllow && (a.rules == [] <==> clientIds == [])
            && (clientIds != [] ==> a.rules == [Rule(true, "x-llm-client-id", clientIds)])
  {
  }

  lemma PermitsExactlyListed(clientIds: seq<string>, id: string)
    ensures Permits(BuildAuthorization(clientIds), CLIENT_ID_HEADER, id) <==> id in clientIds
  {
  }

  /** The gateway's copy of a model's Secret: as it was after the run's first at steps. */
  datatype Copy = Copy(model: string, at: nat)

  ghost predicate Taken(h: Digest, f: Fleet, xs: seq<FleetAction>, pool: seq<Copy>) {
    forall c :: c in pool ==> c.at <= |xs| && c.model in Run(h, f, xs[..c.at])
  }

  function Held(h: Digest, f: Fleet, xs: seq<FleetAction>, c: Copy): map<string, string> {
    if c.at <= |xs| && c.model in Run(h, f, xs[..c.at]) then Run(h, f, xs[..c.at])[c.model].secret.data else map[]
  }

  /** The pooled credentials: the first ref holding a client ID decides its key. */
  function Pooled(h: Digest, f: Fleet, xs: seq<FleetAction>, pool: seq<Copy>): map<string, string> {
    if pool == [] then map[] else Pooled(h, f, xs, pool[1..]) + Held(h, f, xs, pool[0])
  }

  lemma {:induction false} PooledFrom(h: Digest, f: Fleet, xs: seq<FleetAction>, pool: seq<Copy>, id: string)
    returns (c: Copy)
    requires id in Pooled(h, f, xs, pool)
    ensures c in pool && id in Held(h, f, xs, c) && Pooled(h, f, xs, pool)[id] == Held(h, f, xs, c)[id]
  {
    if id in Held(h, f, xs, pool[0]) {
      c := pool[0];
    } else {
      c := PooledFrom(h, f, xs, pool[1..], id);
    }
  }

  /**
   A key of model A, authenticated through copies of the Secrets each read at a time of its own, passes the
   allow-list rendered for model B from any other (older or newer) read of B's Secret only if A is B.
   */
  lemma KeyReachesOnlyItsModel(h: Digest, f: Fleet, xs: seq<FleetAction>, i: nat, pool: seq<Copy>, b: string,
                               allowed: seq<string>, id: string) returns (c: Copy)
    requires Init(f) && i <= |xs| && Separable(h, Run(h, f, xs)) && Taken(h, f, xs, pool)
    requires b in Run(h, f, xs[..i]) && Elements(allowed) == Run(h, f, xs[..i])[b].secret.data.Keys
    requires id in Pooled(h, f, xs, pool)
    ensures c in pool && id in Held(h, f, xs, c) && Pooled(h, f, xs, pool)[id] == Held(h, f, xs, c)[id]
    ensures Permits(BuildAuthorization(allowed), CLIENT_ID_HEADER, id) ==> c.model == b
  {
    c := PooledFrom(h, f, xs, pool, id);
    PermitsExactlyListed(allowed, id);
    if Permits(BuildAuthorization(allowed), CLIENT_ID_HEADER, id) {
      assert id in Elements(allowed);
      SecretsDisjoint(h, f, xs, c.at, i, c.model, b, id);
    }
  }

  /** One copy per model: pooling hides nobody's key, whatever the ref order and the times the copies were read. */
  lemma {:induction false} PoolingHidesNothing(h: Digest, f: Fleet, xs: seq<FleetAction>, pool: seq<Copy>, c: Copy,
                                               id: string)
    requires Init(f) && Separable(h, Run(h, f, xs)) && Taken(h, f, xs, pool)
    requires forall i, j :: 0 <= i < j < |pool| ==> pool[i].model != pool[j].model
    requires c in pool && id in Held(h, f, xs, c)
    ensures id in Pooled(h, f, xs, pool) && Pooled(h, f, xs, pool)[id] == Held(h, f, xs, c)[id]
  {
    if id in Held(h, f, xs, pool[0]) {
      SecretsDisjoint(h, f, xs, c.at, pool[0].at, c.model, pool[0].model, id);
    } else {
      assert c in pool[1..];
      PoolingHidesNothing(h, f, xs, pool[1..], c, id);
    }
  }
}
