/**
 What a request is answered, over every run: from the first look at the keys, or from a second look once the
 refresh it waited for has ended.
 */
module JwksAnswers {
  import opened Common
  import opened JwksValidator

  // ---- The keys of a set ----

  predicate SigningKey(k: Jwk, kid: string) { k.kty == "RSA" && k.kid == kid && k.key.Some? }

  /** A set holds a key for an ID exactly if some RSA entry with that ID decodes, and it is the last such entry's. */
  lemma {:induction false} KeysAreTheLast(jwks: seq<Jwk>, kid: string)
    ensures kid in KeysOf(jwks) <==> exists i :: 0 <= i < |jwks| && SigningKey(jwks[i], kid)
    ensures kid in KeysOf(jwks) ==>
              exists i :: 0 <= i < |jwks| && SigningKey(jwks[i], kid) && jwks[i].key == Some(KeysOf(jwks)[kid])
                          && forall j :: i < j < |jwks| ==> !SigningKey(jwks[j], kid)
  {
    if jwks != [] {
      var n := |jwks| - 1;
      KeysAreTheLast(jwks[..n], kid);
      assert forall i :: 0 <= i < n ==> jwks[..n][i] == jwks[i];
      if SigningKey(jwks[n], kid) {
        assert KeysOf(jwks)[kid] == jwks[n].key.value;
      } else if kid in KeysOf(jwks[..n]) {
        var i :| 0 <= i < n && SigningKey(jwks[..n][i], kid) && jwks[..n][i].key == Some(KeysOf(jwks[..n])[kid])
                 && forall j :: i < j < n ==> !SigningKey(jwks[..n][j], kid);
        forall j | i < j < |jwks| ensures !SigningKey(jwks[j], kid) { if j < n { assert jwks[..n][j] == jwks[j]; } }
        assert SigningKey(jwks[i], kid);
      }
    }
  }

  // ---- The background and the shared call ----

  /**
   Five active attempts, each unless stopped, then the slow poll; a fetch swaps in the keys it brought and then stores
   its mark; a good one makes the validator ready. A wait ends by Stop.
   */
  lemma BackgroundGoesOn(s: State, r: Response, n: nat, err: bool)
    ensures s.bg == Attempting(n) ==> Apply(s, BeginFetch) == s.(bg := if s.stopped then Ended else Fetching(n))
    ensures s.bg == SlowWaiting ==> Apply(s, BeginFetch) == s.(bg := Fetching(5))
    ensures s.bg == Fetching(n) ==>
              Apply(s, Swap(r)) == s.(keys := if Succeeds(r) then KeysOf(r.value) else s.keys,
                                      bg := Swapped(n, !Succeeds(r)))
    ensures s.bg == Swapped(n, err) ==>
              Apply(s, Mark) == s.(fetchFailed := err,
                                   bg := if !err then Fetched else if n < 5 then Attempting(n + 1) else SlowWaiting)
    ensures s.bg == Fetched ==> Apply(s, SetReady) == s.(ready := true, bg := Refreshing)
    ensures Apply(s, ObserveStop) ==
              if s.stopped && (s.bg == SlowWaiting || s.bg == Refreshing) then s.(bg := Ended) else s
    ensures s.bg == Refreshing ==>
              Apply(s, RefreshTick) ==
                s.(bg := AwaitingRefresh, shared := if s.shared == Idle then Called(false) else s.shared)
    ensures Apply(s, AbandonRefresh) == if s.stopped && s.bg == AwaitingRefresh then s.(bg := Refreshing) else s
  {
  }

  /**
   A call made for an unknown key is refused within thirty seconds of the last such fetch's start; any other call
   fetches, swaps, stores its mark, and at its end releases all who joined it and the hourly tick.
   */
  lemma SharedGoesOn(s: State, r: Response, err: bool)
    ensures s.shared == Called(false) ==> Apply(s, Callback) == s.(shared := InFlight)
    ensures s.shared == Called(true) ==>
              Apply(s, Callback) ==
                if s.lastKid != 0 && s.now < s.lastKid + 30_000_000_000 then s.(shared := Ending)
                else s.(shared := InFlight, lastKid := s.now, kidStarts := s.kidStarts + [s.now])
    ensures s.shared == InFlight ==>
              Apply(s, SwapShared(r)) == s.(keys := if Succeeds(r) then KeysOf(r.value) else s.keys,
                                            shared := Marking(!Succeeds(r)))
    ensures s.shared == Marking(err) ==> Apply(s, MarkShared) == s.(fetchFailed := err, shared := Ending)
    ensures var t := Apply(s, EndShared);
            if s.shared != Ending then t == s
            else && t == s.(shared := Idle, bg := if s.bg == AwaitingRefresh then Refreshing else s.bg,
                            callers := t.callers)
                 && t.callers.Keys == s.callers.Keys
                 && forall c :: c in s.callers ==>
                      t.callers[c] ==
                        if s.callers[c].Joined? then Rechecking(s.callers[c].kid) else s.callers[c]
  {
  }

  // ---- One request ----

  /** What the first look gives: the key if it is there, or the wait for a refresh. */
  function First(ready: bool, keys: map<string, int>, kid: string): Caller {
    if !ready then Answered(NotReady) else if kid in keys then Answered(Found(keys[kid])) else Missed(kid)
  }

  /** A request begins with its first look. */
  lemma RequestBegins(s: State, act: Action, c: nat)
    requires c in Apply(s, act).callers && c !in s.callers
    ensures act.Ask? && act.c == c && Apply(s, act).callers[c] == First(s.ready, s.keys, act.kid)
  {
  }

  /** A step of request c itself. */
  predicate Own(act: Action, c: nat) {
    (act.Ask? || act.Join? || act.GiveUp? || act.Look? || act.LoadFlag?) && act.c == c
  }

  lemma OthersKeepRequest(s: State, act: Action, c: nat)
    requires !Own(act, c) && !act.EndShared? && c in s.callers
    ensures c in Apply(s, act).callers && Apply(s, act).callers[c] == s.callers[c]
  {
  }

  /** Every way a request that has begun can move on, with these keys and this failure mark. */
  predicate Moves(keys: map<string, int>, failed: bool, act: Action, c: nat, r: Caller, t: Caller) {
    || t == r
    || (act == Join(c) && r.Missed? && t == Joined(r.kid))
    || ((act.EndShared? || act == GiveUp(c)) && r.Joined? && t == Rechecking(r.kid))
    || (act == Look(c) && r.Rechecking? && r.kid in keys && t == Answered(Found(keys[r.kid])))
    || (act == Look(c) && r.Rechecking? && r.kid !in keys && t == Absent(r.kid))
    || (act == LoadFlag(c) && r.Absent? && t == Answered(if failed then KeysUnavailable else UnknownKid))
  }

  lemma RequestMoves(s: State, act: Action, c: nat)
    requires c in Apply(s, act).callers && c in s.callers
    ensures Moves(s.keys, s.fetchFailed, act, c, s.callers[c], Apply(s, act).callers[c])
  {
    if !act.EndShared? && !Own(act, c) {
      OthersKeepRequest(s, act, c);
      hide Apply;
    }
  }

  /** And no request waits for good: each of its own steps, and the end of the call it joined, takes it on. */
  lemma RequestGoesOn(s: State, c: nat)
    requires c in s.callers
    ensures var r := s.callers[c];
            && (r.Missed? ==> Apply(s, Join(c)).callers[c] == Joined(r.kid) && !Apply(s, Join(c)).shared.Idle?)
            && (r.Joined? && s.shared.Ending? ==> Apply(s, EndShared).callers[c] == Rechecking(r.kid))
            && (r.Joined? ==> Apply(s, GiveUp(c)).callers[c] == Rechecking(r.kid))
            && (r.Rechecking? ==> var t := Apply(s, Look(c)).callers[c]; t.Absent? || t.Answered?)
            && (r.Absent? ==> Apply(s, LoadFlag(c)).callers[c].Answered?)
  {
  }

  /** In the n-th step request c begins, asking for kid. */
  ghost predicate AskedAt(s: State, acts: seq<Action>, c: nat, kid: string, n: nat) {
    n < |acts| && acts[n] == Ask(c, kid) && c !in At(s, acts, n).callers
  }

  /** In the n-th step request c looks again for kid. */
  ghost predicate LooksAt(s: State, acts: seq<Action>, c: nat, kid: string, n: nat) {
    && n < |acts| && acts[n] == Look(c) && c in At(s, acts, n).callers
    && At(s, acts, n).callers[c] == Rechecking(kid)
  }

  /** How a request that began in step n, looked again in step look and loaded the mark in step load got where it is. */
  ghost predicate Explains(s: State, acts: seq<Action>, c: nat, kid: string, n: nat, look: nat, load: nat, t: Caller) {
    && AskedAt(s, acts, c, kid, n)
    && var first := At(s, acts, n);
       match t
       case Missed(k) => k == kid && first.ready && kid !in first.keys
       case Joined(k) => k == kid && first.ready && kid !in first.keys
       case Rechecking(k) => k == kid && first.ready && kid !in first.keys
       case Absent(k) =>
         k == kid && first.ready && kid !in first.keys
         && n < look && LooksAt(s, acts, c, kid, look) && kid !in At(s, acts, look).keys
       case Answered(NotReady) => !first.ready
       case Answered(Found(key)) =>
         first.ready && (if kid in first.keys then key == first.keys[kid]
                         else n < look && LooksAt(s, acts, c, kid, look) && kid in At(s, acts, look).keys
                              && key == At(s, acts, look).keys[kid])
       case Answered(o) =>
         first.ready && kid !in first.keys
         && n < look && LooksAt(s, acts, c, kid, look) && kid !in At(s, acts, look).keys
         && look < load < |acts| && acts[load] == LoadFlag(c)
         && (o == KeysUnavailable <==> At(s, acts, load).fetchFailed)
  }

  lemma ExplainedFirst(s: State, acts: seq<Action>, c: nat, m: nat)
    requires m < |acts| && c !in At(s, acts, m).callers && c in Apply(At(s, acts, m), acts[m]).callers
    ensures acts[m].Ask?
    ensures Explains(s, acts, c, acts[m].kid, m, 0, 0, Apply(At(s, acts, m), acts[m]).callers[c])
    ensures !Apply(At(s, acts, m), acts[m]).callers[c].Absent?
  {
    RequestBegins(At(s, acts, m), acts[m], c);
    hide Apply, At;
  }

  lemma {:induction false} RequestIsExplained(s: State, acts: seq<Action>, c: nat, m: nat)
    returns (kid: string, n: nat, look: nat, load: nat)
    requires Init(s) && m <= |acts| && c in At(s, acts, m).callers
    ensures n < m && Explains(s, acts, c, kid, n, look, load, At(s, acts, m).callers[c])
    ensures At(s, acts, m).callers[c].Absent? ==> look < m
  {
    hide *;
    StartHasNoCallers(s, acts);
    assert m > 0;
    AtNext(s, acts, m - 1);
    if c !in At(s, acts, m - 1).callers {
      ExplainedFirst(s, acts, c, m - 1);
      kid, n, look, load := acts[m - 1].kid, m - 1, 0, 0;
    } else {
      RequestMoves(At(s, acts, m - 1), acts[m - 1], c);
      kid, n, look, load := RequestIsExplained(s, acts, c, m - 1);
      look, load := ExplainedNext(s, acts, c, kid, n, look, load, m - 1, At(s, acts, m).callers[c]);
    }
  }

  lemma ExplainedNext(s: State, acts: seq<Action>, c: nat, kid: string, n: nat, look: nat, load: nat, m: nat, t: Caller)
    returns (look': nat, load': nat)
    requires n < m < |acts| && c in At(s, acts, m).callers
    requires Explains(s, acts, c, kid, n, look, load, At(s, acts, m).callers[c])
    requires At(s, acts, m).callers[c].Absent? ==> look < m
    requires Moves(At(s, acts, m).keys, At(s, acts, m).fetchFailed, acts[m], c, At(s, acts, m).callers[c], t)
    ensures Explains(s, acts, c, kid, n, look', load', t) && (t.Absent? ==> look' < m + 1)
  {
    hide At;
    look', load' := look, load;
    if acts[m] == Look(c) && At(s, acts, m).callers[c].Rechecking? { look' := m; }
    if acts[m] == LoadFlag(c) && At(s, acts, m).callers[c].Absent? { load' := m; }
  }

  /**
   Every answer in every run, and what it says. The keys' not being ready is answered exactly to a request that began
   before they were; a key is the one the set held at the first look or, if that missed, at the second;
   and the two refusals come from two looks that missed and the failure mark as it was loaded then.
   */
  lemma AnswerIsExplained(s: State, acts: seq<Action>, c: nat, outcome: Outcome)
    returns (kid: string, n: nat, look: nat, load: nat)
    requires Init(s) && c in Run(s, acts).callers && Run(s, acts).callers[c] == Answered(outcome)
    ensures AskedAt(s, acts, c, kid, n)
    ensures outcome == NotReady <==> !At(s, acts, n).ready
    ensures At(s, acts, n).ready && kid in At(s, acts, n).keys ==> outcome == Found(At(s, acts, n).keys[kid])
    ensures At(s, acts, n).ready && kid !in At(s, acts, n).keys ==>
              && n < look && LooksAt(s, acts, c, kid, look)
              && (kid in At(s, acts, look).keys ==> outcome == Found(At(s, acts, look).keys[kid]))
              && (kid !in At(s, acts, look).keys ==>
                    && look < load < |acts| && acts[load] == LoadFlag(c)
                    && outcome == if At(s, acts, load).fetchFailed then KeysUnavailable else UnknownKid)
  {
    assert acts[..|acts|] == acts;
    kid, n, look, load := RequestIsExplained(s, acts, c, |acts|);
    hide Run;
  }

  lemma AnswerStays(s: State, act: Action, c: nat)
    requires c in s.callers && s.callers[c].Answered?
    ensures c in Apply(s, act).callers && Apply(s, act).callers[c] == s.callers[c]
  {
  }

  /** A request for a key that is there is answered with it at once and for good; before there are keys, NotReady. */
  lemma {:induction false} KnownKeyIsFound(s: State, acts: seq<Action>, c: nat, kid: string, n: nat, m: nat)
    requires AskedAt(s, acts, c, kid, n) && n < m <= |acts|
    requires !At(s, acts, n).ready || kid in At(s, acts, n).keys
    ensures c in At(s, acts, m).callers
    ensures At(s, acts, m).callers[c] ==
              Answered(if At(s, acts, n).ready then Found(At(s, acts, n).keys[kid]) else NotReady)
  {
    AtNext(s, acts, m - 1);
    if n < m - 1 {
      KnownKeyIsFound(s, acts, c, kid, n, m - 1);
      AnswerStays(At(s, acts, m - 1), acts[m - 1], c);
      hide Apply, At;
    }
  }
}
