/**
 One model's API keys: a Secret (client ID to API key) and a metadata ConfigMap (client ID to who
 minted it, or the tombstone of a revoked key), each changed only by its own compare-and-swap on the
 object's resource version.

 Every createKeyOnce and revokeKeyOnce attempt is a sequence of separate steps (read, read, write,
 write). A run is any list of actions: any number of attempts interleave freely, each may abort between
 any two steps, and a retry after a conflict is simply another attempt.
 */
module KeyStore {
  import opened Common
  import opened ClientIds

  datatype Owner = Owner(username: string, subject: string, groups: seq<string>)

  const NOBODY := Owner("", "", [])

  /** Times in metadata are whole seconds; revokedAt is set on tombstones only. */
  datatype KeyInfo = KeyInfo(clientId: string, owner: Owner, description: string, createdAt: int,
                             model: string, namespace: string, revokedAt: Option<int>)

  const NO_INFO := KeyInfo("", NOBODY, "", 0, "", "", None)

  /** A ConfigMap value: KeyInfo JSON, or text that does not parse, with what parsing left behind. */
  datatype Entry = Readable(info: KeyInfo) | Unreadable(partial: KeyInfo)

  function InfoOf(e: Entry): KeyInfo {
    match e case Readable(info) => info case Unreadable(partial) => partial
  }

  function OwnerOf(e: Entry): Owner { InfoOf(e).owner }

  predicate IsTombstone(e: Entry) { e.Readable? && e.info.revokedAt.Some? }

  /** liveKeys over parseConfigMapEntries: what key listings show. */
  predicate IsLive(e: Entry) { e.Readable? && e.info.revokedAt.None? }

  datatype Versioned<T> = Versioned(version: nat, data: map<string, T>)

  datatype Attempt =
    | CreateStarted(creator: Owner, description: string)
    | CreateReadSecret(creator: Owner, description: string, secret: Versioned<string>)
    | CreateReadMeta(creator: Owner, description: string, secret: Versioned<string>, meta: Versioned<Entry>)
    | CreateDrawn(creator: Owner, description: string, secret: Versioned<string>, meta: Versioned<Entry>, id: string,
                  key: string)
    | CreateWroteSecret(creator: Owner, description: string, meta: Versioned<Entry>, id: string, key: string)
    | Created(id: string, key: string)
    | RevokeStarted(id: string)
    | RevokeReadSecret(id: string, secret: Versioned<string>)
    | RevokeReadMeta(id: string, secret: Versioned<string>, meta: Versioned<Entry>)
    | RevokeWroteSecret(id: string, meta: Versioned<Entry>)
    | RevokeStamped(id: string, meta: Versioned<Entry>, at: int)
    | Revoked(id: string)
    | Failed

  datatype Action =
    | Tick(d: nat)
    | StartCreate(a: nat, creator: Owner, description: string)
    | StartRevoke(a: nat, id: string)
    | ReadSecret(a: nat)
    | ReadMeta(a: nat)
    | Draw(a: nat, suffix: string, key: string)
    | WriteSecret(a: nat)
    | Stamp(a: nat)
    | WriteMeta(a: nat)
    | Abort(a: nat)

  /**
   The two objects, the clock (in nanoseconds) and the attempts. The last six fields are history that
   no step reads: users who asked for a key, suffixes drawn, IDs revoked from the Secret, IDs ever
   tombstoned, IDs returned to a caller, and the exact time each present tombstone was stamped.
   */
  datatype State = State(
    model: string, namespace: string, now: int,
    secret: Versioned<string>, meta: Versioned<Entry>,
    attempts: map<nat, Attempt>,
    users: set<string>, suffixes: set<string>, removed: set<string>, tombed: set<string>,
    returned: set<string>, stampedAt: map<string, int>)

  const RETENTION_SECONDS := 90 * 24 * 3600

  /** time.Now().UTC().Truncate(time.Second), as seconds. */
  function Seconds(ns: int): int { ns / SECOND }

  predicate Expired(e: Entry, nowSeconds: int) {
    IsTombstone(e) && nowSeconds - e.info.revokedAt.value > RETENTION_SECONDS
  }

  function Tombstone(id: string, info: KeyInfo, nowSeconds: int): Entry {
    Readable(KeyInfo(id, info.owner, "", info.createdAt, info.model, info.namespace, Some(nowSeconds)))
  }

  /** The ConfigMap data a revoke writes: expired tombstones dropped, then this key's tombstone put in. */
  function RevokedData(data: map<string, Entry>, id: string, nowSeconds: int): map<string, Entry> {
    var info := if id in data then InfoOf(data[id]) else NO_INFO;
    (map x | x in data && !Expired(data[x], nowSeconds) :: data[x])[id := Tombstone(id, info, nowSeconds)]
  }

  function Put(s: State, a: nat, t: Attempt): State { s.(attempts := s.attempts[a := t]) }

  function DoReadSecret(s: State, a: nat): State
    requires a in s.attempts
  {
    match s.attempts[a]
    case CreateStarted(c, d) => Put(s, a, CreateReadSecret(c, d, s.secret))
    case RevokeStarted(id) => Put(s, a, RevokeReadSecret(id, s.secret))
    case _ => s
  }

  function DoReadMeta(s: State, a: nat): State
    requires a in s.attempts
  {
    match s.attempts[a]
    case CreateReadSecret(c, d, sec) => Put(s, a, CreateReadMeta(c, d, sec, s.meta))
    case RevokeReadSecret(id, sec) => Put(s, a, RevokeReadMeta(id, sec, s.meta))
    case _ => s
  }

  /** One turn of the draw-again loop: a suffix naming a key in either read object is refused. */
  function DoDraw(h: Digest, s: State, a: nat, suffix: string, key: string): State
    requires a in s.attempts
  {
    match s.attempts[a]
    case CreateReadMeta(c, d, sec, cm) =>
      if !IsSuffix(suffix) then s else
      var id := ClientId(h, c.username, s.model, suffix);
      var drawn := s.(suffixes := s.suffixes + {suffix});
      if id in sec.data || id in cm.data then drawn
      else Put(drawn, a, CreateDrawn(c, d, sec, cm, id, key))
    case _ => s
  }

  function DoWriteSecret(s: State, a: nat): State
    requires a in s.attempts
  {
    match s.attempts[a]
    case CreateDrawn(c, d, sec, cm, id, key) =>
      if sec.version != s.secret.version then Put(s, a, Failed)
      else Put(s.(secret := Versioned(sec.version + 1, sec.data[id := key])), a, CreateWroteSecret(c, d, cm, id, key))
    case RevokeReadMeta(id, sec, cm) =>
      if id !in sec.data || sec.version != s.secret.version then Put(s, a, Failed)
      else Put(s.(secret := Versioned(sec.version + 1, sec.data - {id}), removed := s.removed + {id}), a,
               RevokeWroteSecret(id, cm))
    case _ => s
  }

  function DoStamp(s: State, a: nat): State
    requires a in s.attempts
  {
    match s.attempts[a]
    case RevokeWroteSecret(id, cm) => Put(s, a, RevokeStamped(id, cm, s.now))
    case _ => s
  }

  function DoWriteMeta(s: State, a: nat): State
    requires a in s.attempts
  {
    match s.attempts[a]
    case CreateWroteSecret(c, d, cm, id, key) =>
      if cm.version != s.meta.version then Put(s, a, Failed)
      else
        var info := KeyInfo(id, c, d, Seconds(s.now), s.model, s.namespace, None);
        Put(s.(meta := Versioned(cm.version + 1, cm.data[id := Readable(info)]), returned := s.returned + {id}), a,
            Created(id, key))
    case RevokeStamped(id, cm, at) =>
      if cm.version != s.meta.version then Put(s, a, Failed)
      else
        var data := RevokedData(cm.data, id, Seconds(at));
        Put(s.(meta := Versioned(cm.version + 1, data), tombed := s.tombed + {id},
               stampedAt := (map x | x in s.stampedAt && x in data :: s.stampedAt[x])[id := at]), a, Revoked(id))
    case _ => s
  }

  /** One step. An action that does not apply to its attempt changes nothing. */
  function Apply(h: Digest, s: State, act: Action): State {
    match act
    case Tick(d) => s.(now := s.now + d)
    case StartCreate(a, c, d) =>
      if a in s.attempts then s
      else if c.username == "" then Put(s, a, Failed)
      else Put(s.(users := s.users + {c.username}), a, CreateStarted(c, d))
    case StartRevoke(a, id) => if a in s.attempts then s else Put(s, a, RevokeStarted(id))
    case ReadSecret(a) => if a in s.attempts then DoReadSecret(s, a) else s
    case ReadMeta(a) => if a in s.attempts then DoReadMeta(s, a) else s
    case Draw(a, suffix, key) => if a in s.attempts then DoDraw(h, s, a, suffix, key) else s
    case WriteSecret(a) => if a in s.attempts then DoWriteSecret(s, a) else s
    case Stamp(a) => if a in s.attempts then DoStamp(s, a) else s
    case WriteMeta(a) => if a in s.attempts then DoWriteMeta(s, a) else s
    case Abort(a) => if a in s.attempts then Put(s, a, Failed) else s
  }

  function Run(h: Digest, s: State, acts: seq<Action>): State {
    if acts == [] then s else Apply(h, Run(h, s, acts[..|acts| - 1]), acts[|acts| - 1])
  }

  /** The state after the first n actions. */
  function At(h: Digest, s: State, acts: seq<Action>, n: nat): State
    requires n <= |acts|
  {
    Run(h, s, acts[..n])
  }

  lemma AtNext(h: Digest, s: State, acts: seq<Action>, n: nat)
    requires n < |acts|
    ensures At(h, s, acts, n + 1) == Apply(h, At(h, s, acts, n), acts[n])
  {
    assert acts[..n + 1][..n] == acts[..n];
  }

  // ---- Invariant that holds whatever suffixes are drawn ----

  ghost predicate Snapshot<T(!new)>(taken: Versioned<T>, current: Versioned<T>) {
    taken.version <= current.version && (taken.version == current.version ==> taken.data == current.data)
  }

  ghost predicate AttemptOk(s: State, t: Attempt) {
    match t
    case CreateReadSecret(_, _, sec) => Snapshot(sec, s.secret)
    case CreateReadMeta(_, _, sec, cm) => Snapshot(sec, s.secret) && Snapshot(cm, s.meta)
    case CreateDrawn(_, _, sec, cm, id, _) =>
      Snapshot(sec, s.secret) && Snapshot(cm, s.meta) && id !in sec.data && id !in cm.data
    case CreateWroteSecret(_, _, cm, id, _) => Snapshot(cm, s.meta) && id !in cm.data
    case RevokeReadSecret(_, sec) => Snapshot(sec, s.secret)
    case RevokeReadMeta(_, sec, cm) => Snapshot(sec, s.secret) && Snapshot(cm, s.meta)
    case RevokeWroteSecret(_, cm) => Snapshot(cm, s.meta)
    case RevokeStamped(_, cm, at) => Snapshot(cm, s.meta) && at <= s.now
    case _ => true
  }

  ghost predicate StampsOk(s: State) {
    forall id :: id in s.stampedAt ==>
      && id in s.meta.data && IsTombstone(s.meta.data[id])
      && s.meta.data[id].info.revokedAt == Some(Seconds(s.stampedAt[id])) && s.stampedAt[id] <= s.now
  }

  ghost predicate Inv(s: State) {
    (forall a :: a in s.attempts ==> AttemptOk(s, s.attempts[a])) && StampsOk(s)
  }

  /** Any contents may be there before the first action; no attempt is under way. */
  ghost predicate Init(s: State) {
    s.attempts == map[] && s.stampedAt == map[] && s.returned == {}
  }

  /** The objects move only forward: an object that changes gets a later version. */
  ghost predicate Advances(s: State, t: State) {
    && (t.secret == s.secret || t.secret.version > s.secret.version)
    && (t.meta == s.meta || t.meta.version > s.meta.version)
    && s.now <= t.now
  }

  lemma AttemptStaysOk(s: State, t: State, u: Attempt)
    requires AttemptOk(s, u) && Advances(s, t)
    ensures AttemptOk(t, u)
  {
  }

  lemma InvPut(s: State, t: State, a: nat)
    requires Inv(s) && Advances(s, t) && StampsOk(t)
    requires a in t.attempts && t.attempts == s.attempts[a := t.attempts[a]] && AttemptOk(t, t.attempts[a])
    ensures Inv(t)
  {
    forall b | b in t.attempts ensures AttemptOk(t, t.attempts[b]) {
      if b != a { AttemptStaysOk(s, t, s.attempts[b]); }
    }
  }

  lemma InvWriteMeta(s: State, a: nat)
    requires Inv(s) && a in s.attempts
    ensures Inv(DoWriteMeta(s, a))
  {
    var t := DoWriteMeta(s, a);
    assert AttemptOk(s, s.attempts[a]);
    if t != s {
      assert StampsOk(t);
      InvPut(s, t, a);
    }
  }

  lemma InvWriteSecret(s: State, a: nat)
    requires Inv(s) && a in s.attempts
    ensures Inv(DoWriteSecret(s, a))
  {
    var t := DoWriteSecret(s, a);
    assert AttemptOk(s, s.attempts[a]);
    if t != s { InvPut(s, t, a); }
  }

  lemma InvDraw(h: Digest, s: State, a: nat, suffix: string, key: string)
    requires Inv(s) && a in s.attempts
    ensures Inv(DoDraw(h, s, a, suffix, key))
  {
    var t := DoDraw(h, s, a, suffix, key);
    assert AttemptOk(s, s.attempts[a]);
    if t.attempts != s.attempts { InvPut(s, t, a); }
  }

  lemma InvRead(s: State, a: nat)
    requires Inv(s) && a in s.attempts
    ensures Inv(DoReadSecret(s, a)) && Inv(DoReadMeta(s, a)) && Inv(DoStamp(s, a))
  {
    assert AttemptOk(s, s.attempts[a]);
    if DoReadSecret(s, a) != s { InvPut(s, DoReadSecret(s, a), a); }
    if DoReadMeta(s, a) != s { InvPut(s, DoReadMeta(s, a), a); }
    if DoStamp(s, a) != s { InvPut(s, DoStamp(s, a), a); }
  }

  lemma InvStep(h: Digest, s: State, act: Action)
    requires Inv(s)
    ensures Inv(Apply(h, s, act))
  {
    var t := Apply(h, s, act);
    match act
    case Tick(_) =>
      forall b | b in t.attempts ensures AttemptOk(t, t.attempts[b]) { AttemptStaysOk(s, t, s.attempts[b]); }
    case StartCreate(a, _, _) => if a !in s.attempts { InvPut(s, t, a); }
    case StartRevoke(a, _) => if a !in s.attempts { InvPut(s, t, a); }
    case ReadSecret(a) => if a in s.attempts { InvRead(s, a); }
    case ReadMeta(a) => if a in s.attempts { InvRead(s, a); }
    case Draw(a, suffix, key) => if a in s.attempts { InvDraw(h, s, a, suffix, key); }
    case WriteSecret(a) => if a in s.attempts { InvWriteSecret(s, a); }
    case Stamp(a) => if a in s.attempts { InvRead(s, a); }
    case WriteMeta(a) => if a in s.attempts { InvWriteMeta(s, a); }
    case Abort(a) => if a in s.attempts { InvPut(s, t, a); }
  }

  lemma {:induction false} InvRun(h: Digest, s: State, acts: seq<Action>)
    requires Init(s)
    ensures Inv(Run(h, s, acts))
  {
    if acts != [] {
      InvRun(h, s, acts[..|acts| - 1]);
      InvStep(h, Run(h, s, acts[..|acts| - 1]), acts[|acts| - 1]);
    }
  }

  // ---- What one step can do to the two objects ----

  /**
   A step leaves the Secret alone, adds one credential under an ID it did not hold, or removes one.
   No credential is ever replaced.
   */
  ghost predicate SecretChange(before: map<string, string>, after: map<string, string>) {
    || after == before
    || (exists id :: id in after && id !in before && after == before[id := after[id]])
    || (exists id :: id in before && after == before - {id})
  }

  lemma SecretStep(h: Digest, s: State, act: Action)
    requires Inv(s)
    ensures SecretChange(s.secret.data, Apply(h, s, act).secret.data)
  {
    if act.WriteSecret? && act.a in s.attempts {
      assert AttemptOk(s, s.attempts[act.a]);
    }
  }

  /** An entry that stays keeps its owner; it only ever turns from live (or unreadable) into a tombstone. */
  lemma MetaStepKeepsOwner(h: Digest, s: State, act: Action, id: string)
    requires Inv(s) && id in s.meta.data && id in Apply(h, s, act).meta.data
    ensures var before, after := s.meta.data[id], Apply(h, s, act).meta.data[id];
            OwnerOf(after) == OwnerOf(before) && (after == before || IsTombstone(after))
  {
    if act.WriteMeta? && act.a in s.attempts {
      assert AttemptOk(s, s.attempts[act.a]);
    }
  }

  /** An entry leaves only as an expired tombstone, by its own whole-second timestamp. */
  lemma MetaStepDropsExpired(h: Digest, s: State, act: Action, id: string)
    requires Inv(s) && id in s.meta.data && id !in Apply(h, s, act).meta.data
    ensures Expired(s.meta.data[id], Seconds(s.now))
  {
    assert act.WriteMeta? && act.a in s.attempts;
    assert AttemptOk(s, s.attempts[act.a]);
    var at := s.attempts[act.a].at;
    assert Expired(s.meta.data[id], Seconds(at));
    assert Seconds(at) <= Seconds(s.now);
  }

  // ---- Over whole runs ----

  /** While a credential stays in the Secret its value never changes. */
  lemma {:induction false} CredentialNeverReplaced(h: Digest, s: State, acts: seq<Action>, i: nat, j: nat, id: string)
    requires Init(s) && i <= j <= |acts|
    requires forall n {:trigger At(h, s, acts, n)} :: i <= n <= j ==> id in At(h, s, acts, n).secret.data
    ensures id in At(h, s, acts, i).secret.data && id in At(h, s, acts, j).secret.data
    ensures At(h, s, acts, j).secret.data[id] == At(h, s, acts, i).secret.data[id]
  {
    if i < j {
      CredentialNeverReplaced(h, s, acts, i, j - 1, id);
      InvRun(h, s, acts[..j - 1]);
      AtNext(h, s, acts, j - 1);
      SecretStep(h, At(h, s, acts, j - 1), acts[j - 1]);
      assert id in At(h, s, acts, j).secret.data;
    }
  }

  /** While an entry is retained its recorded owner never changes, even if suffixes repeat. */
  lemma {:induction false} OwnerNeverChanges(h: Digest, s: State, acts: seq<Action>, i: nat, j: nat, id: string)
    requires Init(s) && i <= j <= |acts|
    requires forall n {:trigger At(h, s, acts, n)} :: i <= n <= j ==> id in At(h, s, acts, n).meta.data
    ensures id in At(h, s, acts, i).meta.data && id in At(h, s, acts, j).meta.data
    ensures OwnerOf(At(h, s, acts, j).meta.data[id]) == OwnerOf(At(h, s, acts, i).meta.data[id])
  {
    if i < j {
      OwnerNeverChanges(h, s, acts, i, j - 1, id);
      InvRun(h, s, acts[..j - 1]);
      AtNext(h, s, acts, j - 1);
      assert id in At(h, s, acts, j).meta.data;
      MetaStepKeepsOwner(h, At(h, s, acts, j - 1), acts[j - 1], id);
    }
  }

  /**
   A tombstone written in this run is dropped only when more than 90 days of real time have passed
   since it was stamped, although both times are truncated to seconds before they are compared.
   */
  lemma TombstoneKeptNinetyDays(h: Digest, s: State, acts: seq<Action>, n: nat, id: string)
    requires Init(s) && n < |acts|
    requires id in At(h, s, acts, n).meta.data && id !in At(h, s, acts, n + 1).meta.data
    ensures IsTombstone(At(h, s, acts, n).meta.data[id])
    ensures id in At(h, s, acts, n).stampedAt ==>
              At(h, s, acts, n).now - At(h, s, acts, n).stampedAt[id] > RETENTION_SECONDS * SECOND
  {
    InvRun(h, s, acts[..n]);
    AtNext(h, s, acts, n);
    MetaStepDropsExpired(h, At(h, s, acts, n), acts[n], id);
  }

  // ---- When no random suffix repeats ----

  /** Every valid suffix drawn in the run is one not drawn before and not the tail of an ID already there. */
  ghost predicate FreshDraws(h: Digest, s: State, acts: seq<Action>) {
    forall n {:trigger acts[n]} :: 0 <= n < |acts| && acts[n].Draw? ==> acts[n].suffix !in At(h, s, acts, n).suffixes
  }

  predicate PastDraw(t: Attempt) { t.CreateDrawn? || t.CreateWroteSecret? }

  ghost predicate AttemptFresh(s: State, t: Attempt) {
    match t
    case CreateDrawn(_, _, _, _, id, _) =>
      SuffixOf(id) in s.suffixes && id !in s.secret.data && id !in s.meta.data && id !in s.removed && id !in s.returned
    case CreateWroteSecret(_, _, cm, id, _) =>
      SuffixOf(id) in s.suffixes && id !in s.returned && (id in s.tombed ==> cm.version < s.meta.version)
    case RevokeWroteSecret(id, _) => id in s.removed && id !in s.tombed
    case RevokeStamped(id, _, _) => id in s.removed && id !in s.tombed
    case _ => true
  }

  predicate PastRevoke(t: Attempt) { t.RevokeWroteSecret? || t.RevokeStamped? }

  /** No two attempts mint the same ID, and no two have removed the same one. */
  ghost predicate Exclusive(s: State) {
    forall a, b :: a in s.attempts && b in s.attempts && a != b ==> Apart(s.attempts[a], s.attempts[b])
  }

  predicate Apart(t: Attempt, u: Attempt) {
    (PastDraw(t) && PastDraw(u)) || (PastRevoke(t) && PastRevoke(u)) ==> t.id != u.id
  }

  ghost predicate IdsOk(s: State) {
    && (forall id :: id in s.secret.data || id in s.meta.data || id in s.removed || id in s.returned ==>
          SuffixOf(id) in s.suffixes)
    && s.removed !! s.secret.data.Keys
    && s.tombed <= s.removed
    && (forall id :: id in s.meta.data && IsTombstone(s.meta.data[id]) ==> id in s.tombed)
    && (forall id :: id in s.tombed && id in s.meta.data ==> IsTombstone(s.meta.data[id]))
    && (forall id :: id in s.returned && id in s.secret.data ==> id in s.meta.data)
  }

  ghost predicate FreshInv(s: State) {
    && Inv(s) && IdsOk(s) && Exclusive(s)
    && (forall a :: a in s.attempts ==> AttemptFresh(s, s.attempts[a]))
  }

  /** History starts from what is there: tombstones already present count as revoked, and none is in the Secret. */
  ghost predicate FreshInit(s: State) {
    && Init(s)
    && s.tombed == s.removed == (set id | id in s.meta.data && IsTombstone(s.meta.data[id]))
    && s.removed !! s.secret.data.Keys
    && (forall id :: id in s.secret.data || id in s.meta.data ==> SuffixOf(id) in s.suffixes)
  }

  /** Only attempt a changed, and neither object did. */
  lemma FreshPut(s: State, t: State, a: nat)
    requires FreshInv(s) && Inv(t) && s.suffixes <= t.suffixes
    requires t == s.(now := t.now, users := t.users, suffixes := t.suffixes, attempts := t.attempts)
    requires a in t.attempts && t.attempts == s.attempts[a := t.attempts[a]] && AttemptFresh(t, t.attempts[a])
    requires forall b :: b in s.attempts && b != a ==> Apart(t.attempts[a], s.attempts[b])
    ensures FreshInv(t)
  {
    forall b | b in t.attempts && b != a ensures AttemptFresh(t, t.attempts[b]) {
      assert AttemptFresh(s, s.attempts[b]);
    }
    forall b, c | b in t.attempts && c in t.attempts && b != c ensures Apart(t.attempts[b], t.attempts[c]) {
      if b != a && c != a { assert Apart(s.attempts[b], s.attempts[c]); }
    }
  }

  lemma FreshDraw(h: Digest, s: State, a: nat, suffix: string, key: string)
    requires FreshInv(s) && a in s.attempts && suffix !in s.suffixes
    ensures FreshInv(DoDraw(h, s, a, suffix, key))
  {
    var t := DoDraw(h, s, a, suffix, key);
    InvDraw(h, s, a, suffix, key);
    if s.attempts[a].CreateReadMeta? && IsSuffix(suffix) {
      var id := ClientId(h, s.attempts[a].creator.username, s.model, suffix);
      SuffixOfClientId(h, s.attempts[a].creator.username, s.model, suffix);
      forall b | b in s.attempts && b != a ensures Apart(t.attempts[a], s.attempts[b]) {
        assert AttemptFresh(s, s.attempts[b]);
      }
      assert AttemptFresh(s, s.attempts[a]);
      FreshPut(s, t, a);
    }
  }

  lemma FreshCreateWritesSecret(s: State, a: nat)
    requires FreshInv(s) && a in s.attempts && s.attempts[a].CreateDrawn?
             && s.attempts[a].secret.version == s.secret.version
    ensures FreshInv(DoWriteSecret(s, a))
  {
    var t := DoWriteSecret(s, a);
    InvWriteSecret(s, a);
    assert AttemptFresh(s, s.attempts[a]) && AttemptOk(s, s.attempts[a]);
    assert t.secret.data == s.secret.data[s.attempts[a].id := s.attempts[a].key];
    forall b | b in t.attempts ensures AttemptFresh(t, t.attempts[b]) {
      assert AttemptFresh(s, s.attempts[b]);
      if b != a { assert Apart(s.attempts[a], s.attempts[b]); }
    }
    forall b, c | b in t.attempts && c in t.attempts && b != c ensures Apart(t.attempts[b], t.attempts[c]) {
      assert Apart(s.attempts[b], s.attempts[c]);
    }
  }

  /** Removing an ID from the Secret: it was in it, so no attempt has removed it before. */
  lemma FreshWithout(s: State, t: State, a: nat, id: string)
    requires FreshInv(s) && Inv(t) && a in s.attempts && s.attempts[a].RevokeReadMeta? && id in s.secret.data
    requires a in t.attempts && t.attempts[a].RevokeWroteSecret? && t.attempts[a].id == id
    requires t == s.(secret := t.secret, removed := s.removed + {id}, attempts := s.attempts[a := t.attempts[a]])
    requires t.secret.data == s.secret.data - {id}
    ensures FreshInv(t)
  {
    hide Inv;
    forall b | b in t.attempts ensures AttemptFresh(t, t.attempts[b]) {
      assert AttemptFresh(s, s.attempts[b]);
    }
    forall b, c | b in t.attempts && c in t.attempts && b != c ensures Apart(t.attempts[b], t.attempts[c]) {
      assert Apart(s.attempts[b], s.attempts[c]);
      assert AttemptFresh(s, s.attempts[b]) && AttemptFresh(s, s.attempts[c]);
    }
  }

  lemma FreshRevokeWritesSecret(s: State, a: nat)
    requires FreshInv(s) && a in s.attempts && s.attempts[a].RevokeReadMeta?
    requires s.attempts[a].secret.version == s.secret.version && s.attempts[a].id in s.attempts[a].secret.data
    ensures FreshInv(DoWriteSecret(s, a))
  {
    InvWriteSecret(s, a);
    assert AttemptOk(s, s.attempts[a]);
    hide IdsOk, Exclusive, AttemptFresh;
    FreshWithout(s, DoWriteSecret(s, a), a, s.attempts[a].id);
  }

  lemma FreshCreateWritesMeta(s: State, a: nat)
    requires FreshInv(s) && a in s.attempts && s.attempts[a].CreateWroteSecret?
             && s.attempts[a].meta.version == s.meta.version
    ensures FreshInv(DoWriteMeta(s, a))
  {
    var t := DoWriteMeta(s, a);
    InvWriteMeta(s, a);
    assert AttemptFresh(s, s.attempts[a]) && AttemptOk(s, s.attempts[a]);
    var id := s.attempts[a].id;
    assert id !in s.tombed && t.meta.data == s.meta.data[id := t.meta.data[id]];
    forall b | b in t.attempts ensures AttemptFresh(t, t.attempts[b]) {
      assert AttemptFresh(s, s.attempts[b]);
      if b != a { assert Apart(s.attempts[a], s.attempts[b]); }
    }
    forall b, c | b in t.attempts && c in t.attempts && b != c ensures Apart(t.attempts[b], t.attempts[c]) {
      assert Apart(s.attempts[b], s.attempts[c]);
    }
  }

  lemma RevokeMetaKeepsIds(s: State, a: nat)
    requires FreshInv(s) && a in s.attempts && s.attempts[a].RevokeStamped?
             && s.attempts[a].meta.version == s.meta.version
    ensures IdsOk(DoWriteMeta(s, a))
  {
    var t := DoWriteMeta(s, a);
    assert AttemptFresh(s, s.attempts[a]) && AttemptOk(s, s.attempts[a]);
    var id := s.attempts[a].id;
    assert t.meta.data == RevokedData(s.meta.data, id, Seconds(s.attempts[a].at));
    assert forall x :: x in t.meta.data && x != id ==> x in s.meta.data && t.meta.data[x] == s.meta.data[x];
    assert forall x :: x in s.meta.data && x !in t.meta.data ==> x in s.tombed;
    assert t.secret == s.secret && t.removed == s.removed && t.tombed == s.tombed + {id} && t.returned == s.returned;
    assert t.suffixes == s.suffixes && id in t.meta.data && IsTombstone(t.meta.data[id]);
    hide Inv, Exclusive, DoWriteMeta, RevokedData, AttemptFresh, AttemptOk;
  }

  lemma AttemptsAre(s: State, b: nat)
    requires FreshInv(s) && b in s.attempts
    ensures AttemptFresh(s, s.attempts[b]) && AttemptOk(s, s.attempts[b])
  {
  }

  lemma FreshRevokeWritesMeta(s: State, a: nat)
    requires FreshInv(s) && a in s.attempts && s.attempts[a].RevokeStamped?
             && s.attempts[a].meta.version == s.meta.version
    ensures FreshInv(DoWriteMeta(s, a))
  {
    var t := DoWriteMeta(s, a);
    InvWriteMeta(s, a);
    RevokeMetaKeepsIds(s, a);
    assert AttemptFresh(s, s.attempts[a]) && AttemptOk(s, s.attempts[a]);
    hide IdsOk, RevokedData, Inv;
    forall b | b in t.attempts ensures AttemptFresh(t, t.attempts[b]) {
      assert AttemptFresh(s, s.attempts[b]) && AttemptOk(s, s.attempts[b]) by { AttemptsAre(s, b); }
      if b != a { assert Apart(s.attempts[a], s.attempts[b]); }
    }
    forall b, c | b in t.attempts && c in t.attempts && b != c ensures Apart(t.attempts[b], t.attempts[c]) {
      assert Apart(s.attempts[b], s.attempts[c]);
    }
  }

  lemma FreshFail(s: State, a: nat)
    requires FreshInv(s) && a in s.attempts
    ensures FreshInv(Put(s, a, Failed))
  {
    InvPut(s, Put(s, a, Failed), a);
    FreshPut(s, Put(s, a, Failed), a);
  }

  lemma FreshWrite(s: State, a: nat)
    requires FreshInv(s) && a in s.attempts
    ensures FreshInv(DoWriteSecret(s, a)) && FreshInv(DoWriteMeta(s, a))
  {
    FreshFail(s, a);
    match s.attempts[a]
    case CreateDrawn(_, _, sec, _, _, _) => if sec.version == s.secret.version { FreshCreateWritesSecret(s, a); }
    case RevokeReadMeta(id, sec, _) =>
      if sec.version == s.secret.version && id in sec.data { FreshRevokeWritesSecret(s, a); }
    case CreateWroteSecret(_, _, cm, _, _) => if cm.version == s.meta.version { FreshCreateWritesMeta(s, a); }
    case RevokeStamped(_, cm, _) => if cm.version == s.meta.version { FreshRevokeWritesMeta(s, a); }
    case _ =>
  }

  lemma FreshRead(s: State, a: nat)
    requires FreshInv(s) && a in s.attempts
    ensures FreshInv(DoReadSecret(s, a)) && FreshInv(DoReadMeta(s, a)) && FreshInv(DoStamp(s, a))
  {
    InvRead(s, a);
    assert AttemptFresh(s, s.attempts[a]);
    assert forall b :: b in s.attempts && b != a ==> Apart(s.attempts[a], s.attempts[b]);
    hide Inv, IdsOk, Exclusive;
    if DoReadSecret(s, a) != s { FreshPut(s, DoReadSecret(s, a), a); }
    if DoReadMeta(s, a) != s { FreshPut(s, DoReadMeta(s, a), a); }
    if DoStamp(s, a) != s { FreshPut(s, DoStamp(s, a), a); }
  }

  lemma FreshTick(s: State, t: State)
    requires FreshInv(s) && t == s.(now := t.now) && Inv(t)
    ensures FreshInv(t)
  {
    forall b | b in t.attempts ensures AttemptFresh(t, t.attempts[b]) { assert AttemptFresh(s, s.attempts[b]); }
    forall b, c | b in t.attempts && c in t.attempts && b != c ensures Apart(t.attempts[b], t.attempts[c]) {
      assert Apart(s.attempts[b], s.attempts[c]);
    }
  }

  lemma FreshStep(h: Digest, s: State, act: Action)
    requires FreshInv(s) && (act.Draw? ==> act.suffix !in s.suffixes)
    ensures FreshInv(Apply(h, s, act))
  {
    InvStep(h, s, act);
    hide DoReadSecret, DoReadMeta, DoStamp, DoDraw, DoWriteSecret, DoWriteMeta, Inv;
    var t := Apply(h, s, act);
    match act
    case Tick(_) => FreshTick(s, t);
    case StartCreate(a, _, _) => if a !in s.attempts { FreshPut(s, t, a); }
    case StartRevoke(a, _) => if a !in s.attempts { FreshPut(s, t, a); }
    case ReadSecret(a) => if a in s.attempts { FreshRead(s, a); }
    case ReadMeta(a) => if a in s.attempts { FreshRead(s, a); }
    case Draw(a, suffix, key) => if a in s.attempts { FreshDraw(h, s, a, suffix, key); }
    case WriteSecret(a) => if a in s.attempts { FreshWrite(s, a); }
    case Stamp(a) => if a in s.attempts { FreshRead(s, a); }
    case WriteMeta(a) => if a in s.attempts { FreshWrite(s, a); }
    case Abort(a) => if a in s.attempts { FreshFail(s, a); }
  }

  lemma {:induction false} FreshRun(h: Digest, s: State, acts: seq<Action>, n: nat)
    requires FreshInit(s) && FreshDraws(h, s, acts) && n <= |acts|
    ensures FreshInv(At(h, s, acts, n))
  {
    if n > 0 {
      FreshRun(h, s, acts, n - 1);
      AtNext(h, s, acts, n - 1);
      FreshStep(h, At(h, s, acts, n - 1), acts[n - 1]);
    }
  }

  lemma HistoryStep(h: Digest, s: State, act: Action)
    ensures s.tombed <= Apply(h, s, act).tombed && s.removed <= Apply(h, s, act).removed
            && s.returned <= Apply(h, s, act).returned
  {
  }

  lemma {:induction false} HistoryGrows(h: Digest, s: State, acts: seq<Action>, i: nat, j: nat)
    requires i <= j <= |acts|
    ensures At(h, s, acts, i).tombed <= At(h, s, acts, j).tombed
    ensures At(h, s, acts, i).removed <= At(h, s, acts, j).removed
    ensures At(h, s, acts, i).returned <= At(h, s, acts, j).returned
  {
    if i < j {
      HistoryGrows(h, s, acts, i, j - 1);
      AtNext(h, s, acts, j - 1);
      HistoryStep(h, At(h, s, acts, j - 1), acts[j - 1]);
      hide Apply;
    }
  }

  /**
   Revocation is final over every run: once an ID is tombstoned, no later state has it in the Secret
   or lists it live, whatever attempts were under way at the time.
   */
  lemma RevocationIsFinal(h: Digest, s: State, acts: seq<Action>, i: nat, j: nat, id: string)
    requires FreshInit(s) && FreshDraws(h, s, acts) && i <= j <= |acts|
    requires id in At(h, s, acts, i).meta.data && IsTombstone(At(h, s, acts, i).meta.data[id])
    ensures id !in At(h, s, acts, j).secret.data
    ensures id in At(h, s, acts, j).meta.data ==> !IsLive(At(h, s, acts, j).meta.data[id])
  {
    FreshRun(h, s, acts, i);
    FreshRun(h, s, acts, j);
    HistoryGrows(h, s, acts, i, j);
  }

  /** A Secret entry without metadata is a key no caller was ever given. */
  lemma OrphanWasNeverReturned(h: Digest, s: State, acts: seq<Action>, n: nat, id: string)
    requires FreshInit(s) && FreshDraws(h, s, acts) && n <= |acts|
    requires id in At(h, s, acts, n).secret.data && id !in At(h, s, acts, n).meta.data
    ensures id !in At(h, s, acts, n).returned
  {
    FreshRun(h, s, acts, n);
  }

  /** How one step may change an ID's standing in the ConfigMap: recorded, or dropped after revocation, for good. */
  ghost predicate Recorded(s: State, id: string, owner: Owner) {
    if id in s.meta.data then OwnerOf(s.meta.data[id]) == owner else id in s.tombed
  }

  lemma RecordedStep(h: Digest, s: State, act: Action, id: string, owner: Owner)
    requires FreshInv(s) && Recorded(s, id, owner)
    ensures Recorded(Apply(h, s, act), id, owner)
  {
    var t := Apply(h, s, act);
    TombedStep(h, s, act);
    if id !in s.meta.data {
      NeverReentered(h, s, act, id);
    } else if id in t.meta.data {
      MetaStepKeepsOwner(h, s, act, id);
    } else {
      MetaStepDropsExpired(h, s, act, id);
    }
  }

  lemma TombedStep(h: Digest, s: State, act: Action)
    ensures s.tombed <= Apply(h, s, act).tombed
  {
  }

  lemma NeverReentered(h: Digest, s: State, act: Action, id: string)
    requires FreshInv(s) && id in s.tombed && id !in s.meta.data
    ensures id !in Apply(h, s, act).meta.data
  {
    if act.WriteMeta? && act.a in s.attempts {
      assert AttemptFresh(s, s.attempts[act.a]) && AttemptOk(s, s.attempts[act.a]);
    }
  }

  lemma {:induction false} RecordedRun(h: Digest, s: State, acts: seq<Action>, i: nat, j: nat, id: string)
    requires FreshInit(s) && FreshDraws(h, s, acts) && i <= j <= |acts|
    requires id in At(h, s, acts, i).meta.data
    ensures Recorded(At(h, s, acts, j), id, OwnerOf(At(h, s, acts, i).meta.data[id]))
  {
    if i < j {
      RecordedRun(h, s, acts, i, j - 1, id);
      FreshRun(h, s, acts, j - 1);
      RecordedStep(h, At(h, s, acts, j - 1), acts[j - 1], id, OwnerOf(At(h, s, acts, i).meta.data[id]));
      AtNext(h, s, acts, j - 1);
    }
  }

  /** A recorded owner is for good: an ID seen in the ConfigMap twice has the same owner, even if dropped between. */
  lemma OwnerIsForever(h: Digest, s: State, acts: seq<Action>, i: nat, j: nat, id: string)
    requires FreshInit(s) && FreshDraws(h, s, acts) && i <= j <= |acts|
    requires id in At(h, s, acts, i).meta.data && id in At(h, s, acts, j).meta.data
    ensures OwnerOf(At(h, s, acts, j).meta.data[id]) == OwnerOf(At(h, s, acts, i).meta.data[id])
  {
    RecordedRun(h, s, acts, i, j, id);
  }
}
