/**
 The hourly refresh of the signing keys: it goes through the same shared call as the fetches for unknown keys,
 and so may wait for a call that fetches nothing.
 */
module JwksRefresh {
  import opened Common
  import opened JwksValidator

  /** A step of the shared call: its fetch ends, or the cooldown refuses it one. */
  predicate EndsFetch(s: State, act: Action) { act == MarkShared && s.shared.Marking? }
  predicate Refuses(s: State, act: Action) { act == Callback && s.shared == Called(true) && Suppressed(s) }

  /** The hourly tick of the n-th step waits for a shared call until the m-th step ends it. */
  ghost predicate RefreshWaits(s: State, acts: seq<Action>, n: nat, m: nat) {
    && n < m < |acts| && acts[n] == RefreshTick && At(s, acts, n).bg.Refreshing?
    && (forall k :: n < k <= m ==> At(s, acts, k).bg.AwaitingRefresh?)
    && acts[m] == EndShared && At(s, acts, m).shared.Ending?
  }

  ghost predicate FetchEnded(s: State, acts: seq<Action>, n: nat, m: nat)
    requires m <= |acts|
  {
    exists k :: n <= k < m && EndsFetch(At(s, acts, k), acts[k])
  }

  /** The tick found the call over but for its end, or the cooldown refused the call. */
  ghost predicate CallRefused(s: State, acts: seq<Action>, n: nat, m: nat)
    requires n < m <= |acts|
  {
    At(s, acts, n).shared.Ending? || exists k :: n <= k < m && Refuses(At(s, acts, k), acts[k])
  }

  /** Until a call ends it has had its fetch or its refusal exactly if it is about to end, and never both. */
  predicate CallStands(shared: Shared, fetched: bool, refused: bool) {
    match shared
    case Idle => false
    case Ending => fetched == !refused
    case _ => !fetched && !refused
  }

  lemma TickFindsCall(s: State)
    requires s.bg.Refreshing?
    ensures var t := Apply(s, RefreshTick);
            CallStands(t.shared, false, s.shared.Ending?) && (t.shared == Called(true) ==> s.shared == Called(true))
  {
  }

  lemma CallStandsStep(s: State, act: Action, fetched: bool, refused: bool)
    requires s.bg.AwaitingRefresh? && Apply(s, act).bg.AwaitingRefresh? && CallStands(s.shared, fetched, refused)
    ensures CallStands(Apply(s, act).shared, fetched || EndsFetch(s, act), refused || Refuses(s, act))
    ensures Apply(s, act).shared == Called(true) ==> s.shared == Called(true)
  {
  }

  lemma {:induction false} CallStandsRun(s: State, acts: seq<Action>, n: nat, m: nat)
    requires n < m <= |acts| && acts[n] == RefreshTick && At(s, acts, n).bg.Refreshing?
    requires forall k :: n < k <= m ==> At(s, acts, k).bg.AwaitingRefresh?
    ensures CallStands(At(s, acts, m).shared, FetchEnded(s, acts, n, m), CallRefused(s, acts, n, m))
    ensures At(s, acts, m).shared == Called(true) ==> At(s, acts, n).shared == Called(true)
  {
    hide *;
    AtNext(s, acts, m - 1);
    if n == m - 1 {
      TickFindsCall(At(s, acts, n));
      TickNeitherEndsNorRefuses(s, acts, n);
    } else {
      CallStandsRun(s, acts, n, m - 1);
      CallStandsStep(At(s, acts, m - 1), acts[m - 1], FetchEnded(s, acts, n, m - 1), CallRefused(s, acts, n, m - 1));
      OneStepMore(s, acts, n, m - 1);
    }
  }

  lemma TickNeitherEndsNorRefuses(s: State, acts: seq<Action>, n: nat)
    requires n < |acts| && acts[n] == RefreshTick
    ensures !FetchEnded(s, acts, n, n + 1) && (CallRefused(s, acts, n, n + 1) <==> At(s, acts, n).shared.Ending?)
  {
    hide At;
  }

  lemma OneStepMore(s: State, acts: seq<Action>, n: nat, m: nat)
    requires n < m < |acts|
    ensures FetchEnded(s, acts, n, m + 1) <==> FetchEnded(s, acts, n, m) || EndsFetch(At(s, acts, m), acts[m])
    ensures CallRefused(s, acts, n, m + 1) <==> CallRefused(s, acts, n, m) || Refuses(At(s, acts, m), acts[m])
  {
    hide At, EndsFetch, Refuses;
  }

  /**
   Exactly when an hourly refresh goes without a fetch, in any run: no fetch ends while it waits if and only
   if the call it joined was about to end or is then refused by the cooldown. That never befalls a call
   the tick makes itself, nor one with its fetch under way.
   */
  lemma RefreshIsLostExactly(s: State, acts: seq<Action>, n: nat, m: nat)
    requires RefreshWaits(s, acts, n, m)
    ensures !FetchEnded(s, acts, n, m) <==> CallRefused(s, acts, n, m)
    ensures CallRefused(s, acts, n, m) ==> At(s, acts, n).shared.Ending? || At(s, acts, n).shared == Called(true)
  {
    CallStandsRun(s, acts, n, m);
    if CallRefused(s, acts, n, m) && !At(s, acts, n).shared.Ending? {
      var k :| n <= k < m && Refuses(At(s, acts, k), acts[k]);
      assert k > n;
      CallStandsRun(s, acts, n, k);
    }
    hide At, Apply;
  }

  /** Such a run: the cooldown refuses a call for B, the hourly tick joins it before it ends, and no fetch is made. */
  lemma RefreshIsLost() returns (s: State, acts: seq<Action>, n: nat)
    ensures Init(s) && RefreshWaits(s, acts, n, n + 1) && !FetchEnded(s, acts, n, n + 1)
    ensures var t := Run(s, acts); t.bg.Refreshing? && t.keys == At(s, acts, n).keys
  {
    var before;
    s, before := TurnedAway();
    n := |before|;
    acts := before + [RefreshTick] + [EndShared];
    RunNext(s, before, RefreshTick);
    RunNext(s, before + [RefreshTick], EndShared);
    assert acts[..n] == before && acts[..n + 1] == before + [RefreshTick];
    TickJoins(Run(s, before));
    hide Run, Apply;
  }

  lemma TickJoins(s: State)
    requires s.bg.Refreshing? && s.shared.Ending?
    ensures Apply(s, RefreshTick) == s.(bg := AwaitingRefresh)
    ensures var u := Apply(Apply(s, RefreshTick), EndShared); u.bg.Refreshing? && u.keys == s.keys
  {
  }
}
