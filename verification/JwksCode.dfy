/**
 The validator's methods over its fields, each proved to take exactly JwksValidator's steps, with other
 goroutines' steps arriving between any two of its own.
 */
module JwksCode {
  import opened Common
  import opened JwksValidator

  /** Steps of the background goroutine. */
  predicate OfBackground(act: Action) {
    act.ObserveStop? || act.BeginFetch? || act.Swap? || act.Mark? || act.SetReady? || act.RefreshTick?
    || act.AbandonRefresh?
  }

  /** Until the validator is ready nobody else touches the keys, the failure mark or the background. */
  lemma QuietBeforeReady(s: State, act: Action)
    requires Inv(s) && BeforeReady(s.bg) && !OfBackground(act)
    ensures var t := Apply(s, act);
            t.keys == s.keys && t.fetchFailed == s.fetchFailed && t.bg == s.bg && t.ready == s.ready
    ensures Apply(s, act).stopped == (s.stopped || act.Stop?)
  {
    hide InvClock, InvCallers;
  }

  /** A request's own steps. */
  predicate OfCaller(act: Action, c: nat) {
    (act.Ask? || act.Join? || act.GiveUp? || act.Look? || act.LoadFlag?) && act.c == c
  }

  lemma CallerWaits(s: State, act: Action, c: nat)
    requires !OfCaller(act, c) && c in s.callers && !s.callers[c].Joined?
    ensures c in Apply(s, act).callers && Apply(s, act).callers[c] == s.callers[c]
  {
  }

  /** fetchPublicKeys' decoding loop: the new set is built aside; it is an error if it holds no key. */
  method DecodeKeys(keySet: seq<Jwk>) returns (keys: map<string, int>, err: bool)
    ensures keys == KeysOf(keySet)
    ensures !err <==> Succeeds(Some(keySet))
  {
    keys := map[];
    for i := 0 to |keySet|
      invariant keys == KeysOf(keySet[..i])
    {
      assert keySet[..i + 1][..i] == keySet[..i];
      if keySet[i].kty == "RSA" && keySet[i].key.Some? {
        keys := keys[keySet[i].kid := keySet[i].key.value];
      }
    }
    assert keySet[..|keySet|] == keySet;
    err := |keys| == 0;
  }

  /** What initialFetch's i-th fetch starts from: five active attempts, then the slow poll. */
  function Attempt(i: nat): Background { if i < MAX_ATTEMPTS then Attempting(i + 1) else SlowWaiting }

  class Validator {
    ghost const start: State
    var now: int
    var publicKeys: map<string, int>
    var ready: bool
    var fetchFailed: bool
    var lastKid: int
    var shared: Shared
    var bg: Background
    var stopped: bool
    var callers: map<nat, Caller>
    var kidStarts: seq<int>
    ghost var trace: seq<Action>

    function View(): State
      reads this
    {
      State(now, publicKeys, ready, fetchFailed, lastKid, shared, bg, stopped, callers, kidStarts)
    }

    ghost predicate Valid()
      reads this
    {
      Init(start) && View() == Run(start, trace)
    }

    constructor (now: int)
      requires now > 0
      ensures Valid() && trace == [] && bg == Attempting(1) && !ready && !stopped
    {
      start := State(now, map[], false, false, 0, Idle, Attempting(1), false, map[], []);
      this.now := now;
      publicKeys, ready, fetchFailed, lastKid, shared := map[], false, false, 0, Idle;
      bg, stopped, callers, kidStarts, trace := Attempting(1), false, map[], [], [];
    }

    ghost method Took(act: Action)
      requires Init(start) && View() == Apply(Run(start, trace), act)
      modifies this`trace
      ensures Valid() && trace == old(trace) + [act]
    {
      RunNext(start, trace, act);
      trace := trace + [act];
    }

    /** Another goroutine's step. */
    method Other(act: Action)
      requires Valid()
      modifies this
      ensures Valid() && View() == Apply(old(View()), act) && trace == old(trace) + [act]
    {
      hide Run, Apply;
      var t := Apply(View(), act);
      now, publicKeys, ready, fetchFailed, lastKid := t.now, t.keys, t.ready, t.fetchFailed, t.lastKid;
      shared, bg, stopped, callers, kidStarts := t.shared, t.bg, t.stopped, t.callers, t.kidStarts;
      Took(act);
    }

    /** Others' steps while the background works towards being ready; Stop may be among them. */
    method Others(acts: seq<Action>)
      requires Valid() && BeforeReady(bg) && forall act :: act in acts ==> !OfBackground(act)
      modifies this
      ensures Valid() && trace == old(trace) + acts
      ensures publicKeys == old(publicKeys) && fetchFailed == old(fetchFailed) && bg == old(bg) && ready == old(ready)
      ensures stopped == (old(stopped) || Stop in acts)
    {
      hide Run, Apply, Inv;
      for i := 0 to |acts|
        invariant Valid() && trace == old(trace) + acts[..i]
        invariant publicKeys == old(publicKeys) && fetchFailed == old(fetchFailed) && bg == old(bg)
                  && ready == old(ready)
        invariant stopped == (old(stopped) || Stop in acts[..i])
      {
        InvRun(start, trace);
        QuietBeforeReady(View(), acts[i]);
        Other(acts[i]);
        assert acts[..i + 1] == acts[..i] + [acts[i]];
      }
      assert acts[..|acts|] == acts;
    }

    /**
     One fetch of the background goroutine: begun, answered, the keys swapped if it brought any, the mark
     stored; others step before the answer and before the mark.
     */
    method Fetch(response: Response, early: seq<Action>, late: seq<Action>) returns (ok: bool)
      requires Valid() && (bg.SlowWaiting? || (bg.Attempting? && bg.n <= MAX_ATTEMPTS && !stopped))
      requires forall act :: act in early + late ==> !OfBackground(act)
      modifies this
      ensures Valid() && trace == old(trace) + [BeginFetch] + early + [Swap(response)] + late + [Mark]
      ensures ready == old(ready) && (ok <==> Succeeds(response)) && fetchFailed == !ok
      ensures publicKeys == if ok then KeysOf(response.value) else old(publicKeys)
      ensures bg == AfterFetch(if old(bg).Attempting? then old(bg).n else MAX_ATTEMPTS, !ok)
      ensures stopped == (old(stopped) || Stop in early || Stop in late)
    {
      hide Run, OfBackground;
      var n := if bg.Attempting? then bg.n else MAX_ATTEMPTS;
      bg := Fetching(n);
      Took(BeginFetch);
      hide Apply;
      Others(early);
      ok := Answered(n, response);
      Others(late);
      Store(n, !ok);
    }

    /** The answer is decoded and, if it holds a key, swapped in. */
    method Answered(n: nat, response: Response) returns (ok: bool)
      requires Valid() && bg == Fetching(n)
      modifies this`publicKeys, this`bg, this`trace
      ensures Valid() && trace == old(trace) + [Swap(response)] && bg == Swapped(n, !ok) && (ok <==> Succeeds(response))
      ensures publicKeys == if ok then KeysOf(response.value) else old(publicKeys)
    {
      hide Run;
      var keys, err := map[], true;
      if response.Some? { keys, err := DecodeKeys(response.value); }
      ok := !err;
      if ok { publicKeys := keys; }
      bg := Swapped(n, err);
      Took(Swap(response));
    }

    /** The deferred store of the failure mark. */
    method Store(n: nat, err: bool)
      requires Valid() && bg == Swapped(n, err)
      modifies this`fetchFailed, this`bg, this`trace
      ensures Valid() && trace == old(trace) + [Mark] && fetchFailed == err && bg == AfterFetch(n, err)
    {
      hide Run;
      fetchFailed := err;
      bg := AfterFetch(n, err);
      Took(Mark);
    }

    /**
     initialFetch against the provider's answers, one per fetch, with others' steps (Stop among them)
     around every fetch. begun is the phase each fetch began in. It ends online after the first fetch that
     ends well, or on Stop, which it sees before an active attempt and may see while waiting for a slow
     poll; or the answers run out and it is still at it.
     */
    method InitialFetch(responses: seq<Response>, others: seq<seq<Action>>)
      returns (ok: bool, used: nat, ghost begun: seq<Background>)
      requires Valid() && !ready && bg == Attempting(1) && |others| >= 3 * |responses|
      requires forall i, act :: 0 <= i < |others| && act in others[i] ==> !OfBackground(act)
      modifies this
      ensures Valid() && ready == ok && used <= |responses| && |begun| == used
      ensures forall i :: 0 <= i < used ==> begun[i] == Attempt(i)
      ensures forall i :: 0 <= i < used ==> begun[i] == if i < 5 then Attempting(i + 1) else SlowWaiting
      ensures forall i :: 0 <= i < used - 1 ==> !Succeeds(responses[i])
      ensures ok ==> used > 0 && Succeeds(responses[used - 1]) && publicKeys == KeysOf(responses[used - 1].value)
      ensures ok ==> bg == Refreshing
      ensures !ok ==> publicKeys == old(publicKeys) && forall i :: 0 <= i < used ==> !Succeeds(responses[i])
      ensures !ok ==> (bg.Ended? && stopped) || (bg == Attempt(used) && used == |responses|)
    {
      hide Run, Apply, OfBackground;
      used, ok, begun := 0, false, [];
      while used < |responses| && !ok
        invariant Valid() && !ready && used <= |responses| && |begun| == used
        invariant forall i :: 0 <= i < used ==> begun[i] == Attempt(i)
        invariant forall i :: 0 <= i < used - 1 ==> !Succeeds(responses[i])
        invariant !ok ==> publicKeys == old(publicKeys) && forall i :: 0 <= i < used ==> !Succeeds(responses[i])
        invariant !ok ==> bg == Attempt(used)
        invariant ok ==> used > 0 && Succeeds(responses[used - 1]) && publicKeys == KeysOf(responses[used - 1].value)
        invariant ok ==> bg == Fetched
      {
        Others(others[3 * used]);
        var timer: bool := *;
        if stopped && (used < MAX_ATTEMPTS || !timer) {
          GoAway();
          return;
        }
        begun := begun + [bg];
        ok := Fetch(responses[used], others[3 * used + 1], others[3 * used + 2]);
        used := used + 1;
      }
      if ok { MarkReady(); }
    }

    /** Stop is seen. */
    method GoAway()
      requires Valid() && stopped && (bg.Attempting? || bg.SlowWaiting?)
      modifies this`bg, this`trace
      ensures Valid() && bg.Ended?
    {
      hide Run;
      ghost var act := if bg.Attempting? then BeginFetch else ObserveStop;
      bg := Ended;
      Took(act);
    }

    method MarkReady()
      requires Valid() && bg.Fetched?
      modifies this`ready, this`bg, this`trace
      ensures Valid() && trace == old(trace) + [SetReady] && ready && bg == Refreshing
    {
      hide Run;
      ready := true;
      bg := Refreshing;
      Took(SetReady);
    }

    /** ValidateToken's first look: the outcome, if that settles it. */
    method FirstLook(c: nat, kid: string) returns (outcome: Option<Outcome>)
      requires Valid() && c !in callers
      modifies this`callers, this`trace
      ensures Valid() && trace == old(trace) + [Ask(c, kid)]
      ensures outcome == if !ready then Some(NotReady)
                         else if kid in publicKeys then Some(Found(publicKeys[kid])) else None
      ensures c in callers && callers == old(callers)[c := callers[c]]
      ensures callers[c] == if outcome.Some? then JwksValidator.Caller.Answered(outcome.value) else Missed(kid)
    {
      hide Run;
      outcome := None;
      if !ready {
        outcome := Some(NotReady);
      } else if kid in publicKeys {
        outcome := Some(Found(publicKeys[kid]));
      }
      callers := callers[c := if outcome.Some? then JwksValidator.Caller.Answered(outcome.value) else Missed(kid)];
      Took(Ask(c, kid));
    }

    /** refreshForUnknownKID for a request that missed: it joins the call there is, or makes one. */
    method JoinRefresh(c: nat) returns (mine: bool)
      requires Valid() && c in callers && callers[c].Missed?
      modifies this`callers, this`shared, this`trace
      ensures Valid() && trace == old(trace) + [Join(c)] && mine == old(shared).Idle?
      ensures shared == (if mine then Called(true) else old(shared))
      ensures callers == old(callers)[c := Joined(old(callers)[c].kid)]
    {
      hide Run;
      mine := shared.Idle?;
      if mine { shared := Called(true); }
      callers := callers[c := Joined(callers[c].kid)];
      Took(Join(c));
    }

    /** The callback: true when it goes on to fetch. A refused one still holds the call until it ends. */
    method RunCallback() returns (fetches: bool)
      requires Valid() && shared.Called?
      modifies this`shared, this`lastKid, this`kidStarts, this`trace
      ensures Valid() && trace == old(trace) + [Callback]
      ensures shared == (if fetches then InFlight else Ending)
      ensures fetches
              <==> !old(shared).forKid || old(kidStarts) == [] || now - old(kidStarts)[|old(kidStarts)| - 1] >= COOLDOWN
      ensures kidStarts == if old(shared).forKid && fetches then old(kidStarts) + [now] else old(kidStarts)
    {
      InvRun(start, trace);
      hide Run;
      fetches := true;
      if shared.forKid {
        if lastKid != 0 && now - lastKid < COOLDOWN {
          fetches := false;
        } else {
          lastKid := now;
          kidStarts := kidStarts + [now];
        }
      }
      shared := if fetches then InFlight else Ending;
      Took(Callback);
    }

    /** The second look and, if the key is not there, the load of the failure mark; others step in between. */
    method CheckAgain(c: nat, others: seq<Action>) returns (outcome: Outcome)
      requires Valid() && c in callers && callers[c].Rechecking? && forall act :: act in others ==> !OfCaller(act, c)
      modifies this
      ensures Valid() && trace == old(trace) + [Look(c)] + others + [LoadFlag(c)]
      ensures c in callers && callers[c] == JwksValidator.Caller.Answered(outcome)
      ensures var kid := old(callers)[c].kid;
              outcome == if kid in old(publicKeys) then Found(old(publicKeys)[kid])
                         else if fetchFailed then KeysUnavailable else UnknownKid
    {
      hide Run;
      var kid := callers[c].kid;
      var found := if kid in publicKeys then Some(publicKeys[kid]) else None;
      ghost var looked := if found.Some? then JwksValidator.Caller.Answered(Found(found.value)) else Absent(kid);
      Other(Look(c));
      hide Apply, OfCaller;
      for i := 0 to |others|
        invariant Valid() && trace == old(trace) + [Look(c)] + others[..i]
        invariant c in callers && callers[c] == looked
      {
        CallerWaits(View(), others[i], c);
        Other(others[i]);
        assert others[..i + 1] == others[..i] + [others[i]];
      }
      assert others[..|others|] == others;
      outcome := if found.Some? then Found(found.value) else if fetchFailed then KeysUnavailable else UnknownKid;
      Loads(View(), c);
      Other(LoadFlag(c));
    }
  }

  lemma Loads(s: State, c: nat)
    requires c in s.callers && (s.callers[c].Absent? || s.callers[c].Answered?)
    ensures var t := Apply(s, LoadFlag(c));
            && t.fetchFailed == s.fetchFailed && c in t.callers
            && t.callers[c] == if s.callers[c].Answered? then s.callers[c]
                               else JwksValidator.Caller.Answered(if s.fetchFailed then KeysUnavailable else UnknownKid)
  {
  }
}
