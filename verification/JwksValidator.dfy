/**
 The OIDC validator's signing keys: an initial fetch with retries and a slow poll, an hourly refresh,
 and a refresh when a token names an unknown key, the last two sharing one call. Requests, the background
 goroutine and the shared call interleave freely on a clock that never goes back. A fetch swaps the keys
 and stores its failure mark in two steps, and a request reads the two in two steps.
 */
module JwksValidator {
  import opened Common

  const COOLDOWN := 30_000_000_000
  const MAX_ATTEMPTS := 5

  /** One JSON Web Key: key is None when its modulus or exponent does not decode. */
  datatype Jwk = Jwk(kty: string, kid: string, key: Option<int>)

  predicate Usable(k: Jwk) { k.kty == "RSA" && k.key.Some? }

  /** The keys of a set by ID; a later key replaces an earlier one with its ID. */
  function KeysOf(set_: seq<Jwk>): map<string, int> {
    if set_ == [] then map[]
    else
      var k := set_[|set_| - 1];
      var before := KeysOf(set_[..|set_| - 1]);
      if Usable(k) then before[k.kid := k.key.value] else before
  }

  /** A fetch answers with a key set, or not at all. */
  type Response = Option<seq<Jwk>>

  predicate Succeeds(r: Response) { r.Some? && KeysOf(r.value) != map[] }

  datatype Background =
    | Attempting(n: nat)
    | Fetching(n: nat)
    | Swapped(n: nat, err: bool)
    | Fetched
    | SlowWaiting
    | Refreshing
    | AwaitingRefresh
    | Ended

  /** The singleflight call: its callback may still have to run, fetch, be refused, or be about to end. */
  datatype Shared = Idle | Called(forKid: bool) | InFlight | Marking(err: bool) | Ending

  datatype Outcome = NotReady | Found(key: int) | KeysUnavailable | UnknownKid

  /** A request past its first look at the keys: Absent has looked again and not found the key. */
  datatype Caller =
    | Missed(kid: string)
    | Joined(kid: string)
    | Rechecking(kid: string)
    | Absent(kid: string)
    | Answered(outcome: Outcome)

  /** lastKid is 0 until an unknown key first triggers a fetch; kidStarts is history: when each such fetch started. */
  datatype State = State(
    now: int, keys: map<string, int>, ready: bool, fetchFailed: bool, lastKid: int,
    shared: Shared, bg: Background, stopped: bool, callers: map<nat, Caller>, kidStarts: seq<int>)

  datatype Action =
    | Tick(d: nat)
    | Stop
    | ObserveStop
    | BeginFetch
    | Swap(response: Response)
    | Mark
    | SetReady
    | RefreshTick
    | AbandonRefresh
    | Ask(c: nat, kid: string)
    | Join(c: nat)
    | Callback
    | SwapShared(response: Response)
    | MarkShared
    | EndShared
    | GiveUp(c: nat)
    | Look(c: nat)
    | LoadFlag(c: nat)

  ghost predicate Init(s: State) {
    s == State(s.now, map[], false, false, 0, Idle, Attempting(1), false, map[], []) && s.now > 0
  }

  /** A wait may end by Stop; when its timer is due too, either can win. */
  function DoObserveStop(s: State): State {
    if s.stopped && (s.bg.SlowWaiting? || s.bg.Refreshing?) then s.(bg := Ended) else s
  }

  /** The background's next fetch: an active attempt, unless stopped, or a slow poll. */
  function DoBeginFetch(s: State): State {
    match s.bg
    case Attempting(n) => s.(bg := if s.stopped then Ended else Fetching(n))
    case SlowWaiting => s.(bg := Fetching(MAX_ATTEMPTS))
    case _ => s
  }

  function Swapping(s: State, r: Response): State { if Succeeds(r) then s.(keys := KeysOf(r.value)) else s }

  function DoSwap(s: State, r: Response): State {
    match s.bg
    case Fetching(n) => Swapping(s, r).(bg := Swapped(n, !Succeeds(r)))
    case _ => s
  }

  function AfterFetch(n: nat, err: bool): Background {
    if !err then Fetched else if n < MAX_ATTEMPTS then Attempting(n + 1) else SlowWaiting
  }

  function DoMark(s: State): State {
    match s.bg
    case Swapped(n, err) => s.(fetchFailed := err, bg := AfterFetch(n, err))
    case _ => s
  }

  /** refreshLoop's tick: joins the shared call, or makes one that does not ask the cooldown. */
  function DoRefreshTick(s: State): State {
    match s.bg
    case Refreshing => s.(bg := AwaitingRefresh, shared := if s.shared.Idle? then Called(false) else s.shared)
    case _ => s
  }

  function DoAbandonRefresh(s: State): State {
    if s.bg.AwaitingRefresh? && s.stopped then s.(bg := Refreshing) else s
  }

  function DoAsk(s: State, c: nat, kid: string): State {
    if c in s.callers then s
    else if !s.ready then s.(callers := s.callers[c := Answered(NotReady)])
    else if kid in s.keys then s.(callers := s.callers[c := Answered(Found(s.keys[kid]))])
    else s.(callers := s.callers[c := Missed(kid)])
  }

  predicate Suppressed(s: State) { s.lastKid != 0 && s.now - s.lastKid < COOLDOWN }

  /** refreshForUnknownKID joins the call there is, whatever it is for, or makes one that asks the cooldown. */
  function DoJoin(s: State, c: nat): State {
    if c in s.callers && s.callers[c].Missed?
    then s.(callers := s.callers[c := Joined(s.callers[c].kid)],
            shared := if s.shared.Idle? then Called(true) else s.shared)
    else s
  }

  function DoCallback(s: State): State {
    match s.shared
    case Called(forKid) =>
      if !forKid then s.(shared := InFlight)
      else if Suppressed(s) then s.(shared := Ending)
      else s.(shared := InFlight, lastKid := s.now, kidStarts := s.kidStarts + [s.now])
    case _ => s
  }

  function DoSwapShared(s: State, r: Response): State {
    if s.shared.InFlight? then Swapping(s, r).(shared := Marking(!Succeeds(r))) else s
  }

  function DoMarkShared(s: State): State {
    match s.shared
    case Marking(err) => s.(fetchFailed := err, shared := Ending)
    case _ => s
  }

  function Released(t: Caller): Caller {
    match t case Joined(kid) => Rechecking(kid) case _ => t
  }

  /** Everyone who joined goes on, whatever the call was for and however it ended. */
  function DoEndShared(s: State): State {
    if !s.shared.Ending? then s
    else
      s.(shared := Idle, bg := if s.bg.AwaitingRefresh? then Refreshing else s.bg,
         callers := map c | c in s.callers :: Released(s.callers[c]))
  }

  function To(s: State, c: nat, t: Caller): State { s.(callers := s.callers[c := t]) }

  function DoGiveUp(s: State, c: nat): State {
    if c in s.callers && s.callers[c].Joined? then To(s, c, Rechecking(s.callers[c].kid)) else s
  }

  function DoLook(s: State, c: nat): State {
    if c in s.callers && s.callers[c].Rechecking?
    then
      var kid := s.callers[c].kid;
      To(s, c, if kid in s.keys then Answered(Found(s.keys[kid])) else Absent(kid))
    else s
  }

  function DoLoadFlag(s: State, c: nat): State {
    if c in s.callers && s.callers[c].Absent?
    then To(s, c, Answered(if s.fetchFailed then KeysUnavailable else UnknownKid)) else s
  }

  function Apply(s: State, act: Action): State {
    match act
    case Tick(d) => s.(now := s.now + d)
    case Stop => s.(stopped := true)
    case ObserveStop => DoObserveStop(s)
    case BeginFetch => DoBeginFetch(s)
    case Swap(r) => DoSwap(s, r)
    case Mark => DoMark(s)
    case SetReady => if s.bg.Fetched? then s.(ready := true, bg := Refreshing) else s
    case RefreshTick => DoRefreshTick(s)
    case AbandonRefresh => DoAbandonRefresh(s)
    case Ask(c, kid) => DoAsk(s, c, kid)
    case Join(c) => DoJoin(s, c)
    case Callback => DoCallback(s)
    case SwapShared(r) => DoSwapShared(s, r)
    case MarkShared => DoMarkShared(s)
    case EndShared => DoEndShared(s)
    case GiveUp(c) => DoGiveUp(s, c)
    case Look(c) => DoLook(s, c)
    case LoadFlag(c) => DoLoadFlag(s, c)
  }

  function Run(s: State, acts: seq<Action>): State {
    if acts == [] then s else Apply(Run(s, acts[..|acts| - 1]), acts[|acts| - 1])
  }

  /** The state after the first n actions. */
  function At(s: State, acts: seq<Action>, n: nat): State
    requires n <= |acts|
  {
    Run(s, acts[..n])
  }

  lemma AtNext(s: State, acts: seq<Action>, n: nat)
    requires n < |acts|
    ensures At(s, acts, n + 1) == Apply(At(s, acts, n), acts[n])
  {
    assert acts[..n + 1][..n] == acts[..n];
  }

  lemma RunNext(s: State, acts: seq<Action>, act: Action)
    ensures Run(s, acts + [act]) == Apply(Run(s, acts), act)
  {
    assert (acts + [act])[..|acts|] == acts;
  }

  // ---- Invariant ----

  predicate BeforeReady(b: Background) {
    b.Attempting? || b.Fetching? || b.Swapped? || b.Fetched? || b.SlowWaiting?
  }

  /** How many key fetches are under way. */
  function FetchesInFlight(s: State): nat {
    (if s.bg.Fetching? || s.bg.Swapped? then 1 else 0) + (if s.shared.InFlight? || s.shared.Marking? then 1 else 0)
  }

  ghost predicate Spaced(starts: seq<int>) {
    forall i, j :: 0 <= i < j < |starts| && j == i + 1 ==> starts[j] - starts[i] >= COOLDOWN
  }

  ghost predicate InvBg(s: State) {
    && (s.ready ==> !BeforeReady(s.bg) && s.keys != map[])
    && (s.bg.Fetched? || (s.bg.Swapped? && !s.bg.err) ==> s.keys != map[])
    && (s.bg.Fetching? || s.bg.Attempting? || s.bg.Swapped? ==> s.bg.n <= MAX_ATTEMPTS)
    && (s.bg.Refreshing? || s.bg.AwaitingRefresh? ==> s.ready)
    && (s.bg.AwaitingRefresh? ==> !s.shared.Idle?)
    && (!s.shared.Idle? ==> s.ready)
  }

  ghost predicate InvCallers(s: State) {
    forall c :: c in s.callers ==>
      && (!s.callers[c].Answered? ==> s.ready)
      && (s.callers[c].Joined? ==> !s.shared.Idle?)
  }

  ghost predicate InvClock(s: State) {
    && s.now > 0
    && (s.lastKid == if s.kidStarts == [] then 0 else s.kidStarts[|s.kidStarts| - 1])
    && (s.kidStarts != [] ==> 0 < s.lastKid <= s.now)
    && Spaced(s.kidStarts)
  }

  ghost predicate Inv(s: State) { InvBg(s) && InvCallers(s) && InvClock(s) }

  lemma BgStep(s: State, act: Action)
    requires Inv(s)
    ensures InvBg(Apply(s, act))
  {
    hide InvClock;
  }

  lemma CallersStep(s: State, act: Action)
    requires Inv(s)
    ensures InvCallers(Apply(s, act))
  {
    hide InvClock;
    var t := Apply(s, act);
    forall c | c in t.callers
      ensures (!t.callers[c].Answered? ==> t.ready) && (t.callers[c].Joined? ==> !t.shared.Idle?)
    {
      if c in s.callers { assert !s.callers[c].Answered? ==> s.ready; }
    }
  }

  lemma CallbackClock(s: State)
    requires InvClock(s)
    ensures InvClock(DoCallback(s))
  {
  }

  lemma OtherSteps(s: State, act: Action)
    requires !act.Callback?
    ensures var t := Apply(s, act); t.kidStarts == s.kidStarts && t.lastKid == s.lastKid && t.now >= s.now
  {
  }

  lemma ClockStep(s: State, act: Action)
    requires Inv(s)
    ensures InvClock(Apply(s, act))
  {
    if act.Callback? {
      CallbackClock(s);
    } else {
      OtherSteps(s, act);
      hide Apply;
    }
  }

  lemma InvStep(s: State, act: Action)
    requires Inv(s)
    ensures Inv(Apply(s, act))
  {
    BgStep(s, act);
    CallersStep(s, act);
    ClockStep(s, act);
    hide *;
  }

  lemma {:induction false} InvRun(s: State, acts: seq<Action>)
    requires Init(s)
    ensures Inv(Run(s, acts))
  {
    hide Apply;
    if acts != [] {
      InvRun(s, acts[..|acts| - 1]);
      InvStep(Run(s, acts[..|acts| - 1]), acts[|acts| - 1]);
    }
  }

  /** In every reachable state at most one fetch is under way, and a ready validator has keys. */
  lemma OneFetchAndReadyHasKeys(s: State, acts: seq<Action>)
    requires Init(s)
    ensures FetchesInFlight(Run(s, acts)) <= 1
    ensures Run(s, acts).ready ==> Run(s, acts).keys != map[]
  {
    InvRun(s, acts);
  }

  /**
   The key set changes only in the swap of a fetch that ends well, to exactly what was answered; a failed
   fetch leaves it alone, the failure mark is not touched in the same step, and ready is never taken back.
   */
  lemma KeysChangeOnlyOnSuccess(s: State, act: Action)
    ensures var t := Apply(s, act);
            && (t.keys != s.keys ==>
                  (act.Swap? || act.SwapShared?) && Succeeds(act.response) && t.keys == KeysOf(act.response.value))
            && (t.keys != s.keys ==> t.fetchFailed == s.fetchFailed)
            && (s.ready ==> t.ready)
  {
  }

  /** What the step stores in the failure mark, if it stores anything: whether the fetch it ends failed. */
  function MarkOf(s: State, act: Action): Option<bool> {
    if act.Mark? && s.bg.Swapped? then Some(s.bg.err)
    else if act.MarkShared? && s.shared.Marking? then Some(s.shared.err)
    else None
  }

  // ---- How often unknown keys can cause a fetch ----

  function Within(starts: seq<int>, from: int, to: int): nat {
    if starts == [] then 0
    else
      var x := starts[|starts| - 1];
      Within(starts[..|starts| - 1], from, to) + if from <= x <= to then 1 else 0
  }

  lemma {:induction false} WithinSpan(starts: seq<int>, from: int, to: int)
    requires Spaced(starts) && from <= to && Within(starts, from, to) > 0
    ensures (Within(starts, from, to) - 1) * COOLDOWN <= to - from
    ensures (Within(starts, from, to) - 1) * COOLDOWN <= starts[|starts| - 1] - from
  {
    var n := |starts| - 1;
    var rest := starts[..n];
    if Within(rest, from, to) > 0 {
      WithinSpan(rest, from, to);
      assert starts[n] - starts[n - 1] >= COOLDOWN;
    }
  }

  /**
   However many tokens name unknown keys, fetches on their account start at least 30 seconds apart, so
   any span of length len sees at most len / 30 s + 1 of them.
   */
  lemma UnknownKeysCannotStormFetches(s: State, acts: seq<Action>, from: int, len: nat)
    requires Init(s)
    ensures Spaced(Run(s, acts).kidStarts)
    ensures Within(Run(s, acts).kidStarts, from, from + len) <= len / COOLDOWN + 1
  {
    InvRun(s, acts);
    var starts := Run(s, acts).kidStarts;
    var n := Within(starts, from, from + len);
    if n > 0 {
      WithinSpan(starts, from, from + len);
    }
  }

  // ---- When a token is refused for good ----

  lemma FlagStep(s: State, act: Action)
    ensures Apply(s, act).fetchFailed == (if MarkOf(s, act).Some? then MarkOf(s, act).value else s.fetchFailed)
  {
  }

  /** The last mark stored from the n-th state to the m-th: whether the last fetch to end there failed. */
  function LastMark(s: State, acts: seq<Action>, n: nat, m: nat): Option<bool>
    requires n <= m <= |acts|
    decreases m
  {
    if n == m then None
    else
      var mark := MarkOf(At(s, acts, m - 1), acts[m - 1]);
      if mark.Some? then mark else LastMark(s, acts, n, m - 1)
  }

  /** The last fetch to end before the m-th state ended well: one since the n-th, or else the mark read false there. */
  predicate EndedWell(s: State, acts: seq<Action>, n: nat, m: nat)
    requires n <= m <= |acts|
  {
    match LastMark(s, acts, n, m)
    case Some(failed) => !failed
    case None => !At(s, acts, n).fetchFailed
  }

  lemma {:induction false} FlagIsLastMark(s: State, acts: seq<Action>, n: nat, m: nat)
    requires n <= m <= |acts|
    ensures !At(s, acts, m).fetchFailed <==> EndedWell(s, acts, n, m)
  {
    if n < m {
      FlagIsLastMark(s, acts, n, m - 1);
      AtNext(s, acts, m - 1);
      FlagStep(At(s, acts, m - 1), acts[m - 1]);
      hide Apply, At, MarkOf;
    }
  }

  /** How one step can bring a request to have looked in vain. */
  lemma AbsentStep(s: State, act: Action, c: nat)
    requires c in Apply(s, act).callers && Apply(s, act).callers[c].Absent?
    ensures var t := Apply(s, act).callers[c];
            && c in s.callers
            && ((s.callers[c] == t && act != LoadFlag(c))
                || (act == Look(c) && s.callers[c] == Rechecking(t.kid) && t.kid !in s.keys))
  {
  }

  /** How one step can bring a request to be refused. */
  lemma RefusedStep(s: State, act: Action, c: nat)
    requires c in Apply(s, act).callers && Apply(s, act).callers[c] == Answered(UnknownKid)
    ensures c in s.callers
    ensures s.callers[c] == Answered(UnknownKid) || (act == LoadFlag(c) && s.callers[c].Absent? && !s.fetchFailed)
  {
  }

  lemma StaysAbsent(s: State, act: Action, c: nat)
    requires c in s.callers && act != LoadFlag(c)
    requires s.callers[c].Absent? || s.callers[c].Answered?
    ensures c in Apply(s, act).callers && Apply(s, act).callers[c] == s.callers[c]
  {
  }

  /** The n-th step is request c's second look at the keys for kid, the m-th its next load of the failure mark. */
  ghost predicate LooksThenLoads(s: State, acts: seq<Action>, c: nat, kid: string, n: nat, m: nat) {
    && n < m < |acts| && acts[n] == Look(c) && acts[m] == LoadFlag(c)
    && c in At(s, acts, n).callers && At(s, acts, n).callers[c] == Rechecking(kid)
    && forall k :: n < k < m ==> acts[k] != LoadFlag(c)
  }

  lemma {:induction false} StatusUntilLoad(s: State, acts: seq<Action>, c: nat, kid: string, n: nat, m: nat)
    requires n < m <= |acts| && acts[n] == Look(c)
    requires c in At(s, acts, n).callers && At(s, acts, n).callers[c] == Rechecking(kid)
    requires forall k :: n < k < m ==> acts[k] != LoadFlag(c)
    ensures c in At(s, acts, m).callers
    ensures At(s, acts, m).callers[c] ==
              if kid in At(s, acts, n).keys then Answered(Found(At(s, acts, n).keys[kid])) else Absent(kid)
  {
    AtNext(s, acts, m - 1);
    if n < m - 1 {
      StatusUntilLoad(s, acts, c, kid, n, m - 1);
      StaysAbsent(At(s, acts, m - 1), acts[m - 1], c);
      hide Apply, At;
    }
  }

  /**
   Exactly how a second look ends, whatever happens between its two steps: found if the key was there at
   the look; else refused for good if and only if the last fetch to end before the mark was loaded ended
   well, be it before the look or after it.
   */
  lemma UnknownKidExactly(s: State, acts: seq<Action>, c: nat, kid: string, n: nat, m: nat)
    requires LooksThenLoads(s, acts, c, kid, n, m)
    ensures c in At(s, acts, m + 1).callers && At(s, acts, m + 1).callers[c].Answered?
    ensures At(s, acts, m + 1).callers[c].outcome.Found? <==> kid in At(s, acts, n).keys
    ensures kid in At(s, acts, n).keys ==> At(s, acts, m + 1).callers[c].outcome == Found(At(s, acts, n).keys[kid])
    ensures At(s, acts, m + 1).callers[c].outcome == UnknownKid <==>
              kid !in At(s, acts, n).keys && EndedWell(s, acts, n, m)
    ensures At(s, acts, m + 1).callers[c].outcome == KeysUnavailable <==>
              kid !in At(s, acts, n).keys && !EndedWell(s, acts, n, m)
  {
    StatusUntilLoad(s, acts, c, kid, n, m);
    FlagIsLastMark(s, acts, n, m);
    AtNext(s, acts, m);
    hide At, EndedWell;
  }

  lemma {:induction false} AbsentHasLooked(s: State, acts: seq<Action>, c: nat, m: nat) returns (n: nat)
    requires Init(s) && m <= |acts| && c in At(s, acts, m).callers && At(s, acts, m).callers[c].Absent?
    ensures n < m && acts[n] == Look(c) && c in At(s, acts, n).callers
    ensures At(s, acts, n).callers[c] == Rechecking(At(s, acts, m).callers[c].kid)
    ensures forall k :: n < k < m ==> acts[k] != LoadFlag(c)
  {
    assert acts[..0] == [];
    assert m > 0;
    AtNext(s, acts, m - 1);
    AbsentStep(At(s, acts, m - 1), acts[m - 1], c);
    hide Apply, At;
    if acts[m - 1] == Look(c) && At(s, acts, m - 1).callers[c].Rechecking? {
      n := m - 1;
    } else {
      n := AbsentHasLooked(s, acts, c, m - 1);
    }
  }

  lemma StartHasNoCallers(s: State, acts: seq<Action>)
    requires Init(s)
    ensures At(s, acts, 0).callers == map[]
  {
    assert acts[..0] == [];
  }

  lemma {:induction false} RefusedHasLoaded(s: State, acts: seq<Action>, c: nat, k: nat) returns (m: nat)
    requires Init(s) && k <= |acts| && c in At(s, acts, k).callers && At(s, acts, k).callers[c] == Answered(UnknownKid)
    ensures m < k && acts[m] == LoadFlag(c) && c in At(s, acts, m).callers && At(s, acts, m).callers[c].Absent?
    ensures c in At(s, acts, m + 1).callers && At(s, acts, m + 1).callers[c] == Answered(UnknownKid)
  {
    StartHasNoCallers(s, acts);
    assert k > 0;
    AtNext(s, acts, k - 1);
    RefusedStep(At(s, acts, k - 1), acts[k - 1], c);
    hide Apply, At, Init;
    if At(s, acts, k - 1).callers[c].Absent? {
      m := k - 1;
    } else {
      m := RefusedHasLoaded(s, acts, c, k - 1);
    }
  }

  /** Nobody is refused for good in any other way: every refusal in every run had such a look and such a load. */
  lemma RefusalMeansAbsent(s: State, acts: seq<Action>, c: nat) returns (kid: string, n: nat, m: nat)
    requires Init(s) && c in Run(s, acts).callers && Run(s, acts).callers[c] == Answered(UnknownKid)
    ensures LooksThenLoads(s, acts, c, kid, n, m)
    ensures kid !in At(s, acts, n).keys && EndedWell(s, acts, n, m)
  {
    assert At(s, acts, |acts|) == Run(s, acts) by { assert acts[..|acts|] == acts; }
    hide Run, Apply, At, Init, EndedWell;
    m := RefusedHasLoaded(s, acts, c, |acts|);
    kid := At(s, acts, m).callers[c].kid;
    n := AbsentHasLooked(s, acts, c, m);
    UnknownKidExactly(s, acts, c, kid, n, m);
  }

  lemma Go(s: State, acts: seq<Action>, t: State, act: Action) returns (more: seq<Action>)
    requires Run(s, acts) == t
    ensures more == acts + [act] && Run(s, more) == Apply(t, act)
  {
    more := acts + [act];
    RunNext(s, acts, act);
  }

  /** Two keys of a rotation: A is known from the start, B is new. */
  const OLD_KEYS := [Jwk("RSA", "A", Some(1))]
  const NEW_KEYS := OLD_KEYS + [Jwk("RSA", "B", Some(2))]

  lemma Rotation()
    ensures KeysOf(OLD_KEYS) == map["A" := 1] && KeysOf(NEW_KEYS) == map["A" := 1, "B" := 2]
    ensures KeysOf(OLD_KEYS) != map[] && KeysOf(NEW_KEYS) != map[] && "B" !in KeysOf(OLD_KEYS)
  {
    assert NEW_KEYS[..1] == OLD_KEYS && OLD_KEYS[..0] == [];
    assert KeysOf([]) == map[];
    assert "A" in KeysOf(OLD_KEYS) && "B" in KeysOf(NEW_KEYS);
  }

  lemma EmptyRun(s: State)
    ensures Run(s, []) == s
  {
  }

  /** Ready with the old keys. */
  lemma GetsReady() returns (s: State, acts: seq<Action>)
    ensures Init(s) && Run(s, acts) == State(1, map["A" := 1], true, false, 0, Idle, Refreshing, false, map[], [])
  {
    Rotation();
    hide Run, KeysOf;
    s := State(1, map[], false, false, 0, Idle, Attempting(1), false, map[], []);
    EmptyRun(s);
    acts := Go(s, [], s, BeginFetch);
    acts := Go(s, acts, s.(bg := Fetching(1)), Swap(Some(OLD_KEYS)));
    acts := Go(s, acts, s.(keys := map["A" := 1], bg := Swapped(1, false)), Mark);
    acts := Go(s, acts, s.(keys := map["A" := 1], bg := Fetched), SetReady);
  }

  lemma AsksAndJoins(s: State, c: nat, kid: string)
    requires s.ready && c !in s.callers && kid !in s.keys && s.shared.Idle?
    ensures Apply(Apply(s, Ask(c, kid)), Join(c)) == s.(callers := s.callers[c := Joined(kid)], shared := Called(true))
  {
    assert s.callers[c := Missed(kid)][c := Joined(kid)] == s.callers[c := Joined(kid)];
  }

  lemma FetchesInVain(s: State)
    requires s.shared == Called(true) && !Suppressed(s)
    ensures Apply(Apply(Apply(s, Callback), SwapShared(None)), MarkShared)
            == s.(shared := Ending, fetchFailed := true, lastKid := s.now, kidStarts := s.kidStarts + [s.now])
  {
  }

  lemma IsTurnedAway(s: State)
    requires s.shared == Called(true) && Suppressed(s)
    ensures Apply(s, Callback) == s.(shared := Ending)
  {
  }

  lemma RunTwo(s: State, acts: seq<Action>, a: Action, b: Action) returns (more: seq<Action>)
    ensures more == acts + [a] + [b] && Run(s, more) == Apply(Apply(Run(s, acts), a), b)
  {
    RunNext(s, acts, a);
    RunNext(s, acts + [a], b);
    more := acts + [a] + [b];
  }

  /** A request names B, and the fetch on its account fails. */
  lemma FetchFails() returns (s: State, acts: seq<Action>)
    ensures Init(s) && Run(s, acts) ==
              State(1, map["A" := 1], true, true, 1, Ending, Refreshing, false, map[1 := Joined("B")], [1])
  {
    s, acts := GetsReady();
    hide Run, Apply, KeysOf;
    var t := State(1, map["A" := 1], true, false, 0, Idle, Refreshing, false, map[], []);
    AsksAndJoins(t, 1, "B");
    acts := RunTwo(s, acts, Ask(1, "B"), Join(1));
    var u := Run(s, acts);
    assert u == t.(callers := map[1 := Joined("B")], shared := Called(true));
    FetchesInVain(u);
    acts := RunTwo(s, acts, Callback, SwapShared(None));
    RunNext(s, acts, MarkShared);
    acts := acts + [MarkShared];
  }

  /** The call over, the cooldown turns another request for B away. */
  lemma TurnedAway() returns (s: State, acts: seq<Action>)
    ensures Init(s) && Run(s, acts) ==
              State(1, map["A" := 1], true, true, 1, Ending, Refreshing, false,
                    map[1 := Rechecking("B"), 2 := Joined("B")], [1])
  {
    s, acts := FetchFails();
    var t := Run(s, acts);
    RunNext(s, acts, EndShared);
    acts := acts + [EndShared];
    assert Apply(t, EndShared) == t.(shared := Idle, callers := map[1 := Rechecking("B")]);
    t := Run(s, acts);
    hide Run, Apply, KeysOf;
    AsksAndJoins(t, 2, "B");
    acts := RunTwo(s, acts, Ask(2, "B"), Join(2));
    IsTurnedAway(Run(s, acts));
    RunNext(s, acts, Callback);
    acts := acts + [Callback];
    assert Run(s, acts).callers == map[1 := Rechecking("B"), 2 := Joined("B")];
  }

  lemma EndsAndLooks(s: State, c: nat, kid: string)
    requires s.shared.Ending? && s.bg.Refreshing? && c in s.callers && s.callers[c] == Joined(kid) && kid !in s.keys
    ensures var t := Apply(s, EndShared);
            t.bg.Refreshing? && t.shared.Idle? && t.fetchFailed == s.fetchFailed
            && c in t.callers && t.callers[c] == Rechecking(kid) && Apply(t, Look(c)) == To(t, c, Absent(kid))
  {
  }

  lemma LooksInVain() returns (s: State, acts: seq<Action>, n: nat)
    ensures Init(s) && n + 1 == |acts| && acts[n] == Look(2)
    ensures 2 in At(s, acts, n).callers && At(s, acts, n).callers[2] == Rechecking("B") && At(s, acts, n).fetchFailed
    ensures var t := Run(s, acts); t.bg.Refreshing? && t.shared.Idle? && 2 in t.callers && t.callers[2] == Absent("B")
  {
    s, acts := TurnedAway();
    hide Run, Apply, KeysOf;
    EndsAndLooks(Run(s, acts), 2, "B");
    n := |acts| + 1;
    var before := acts + [EndShared];
    RunNext(s, acts, EndShared);
    acts := RunTwo(s, acts, EndShared, Look(2));
    assert acts[..n] == before;
  }

  lemma RefreshStarts(s: State)
    requires s.bg.Refreshing? && s.shared.Idle?
    ensures Apply(Apply(s, RefreshTick), Callback) == s.(bg := AwaitingRefresh, shared := InFlight)
  {
  }

  lemma RefreshBrings(s: State, keys: seq<Jwk>)
    requires s.shared.InFlight? && Succeeds(Some(keys))
    ensures Apply(Apply(s, SwapShared(Some(keys))), MarkShared)
            == s.(shared := Ending, keys := KeysOf(keys), fetchFailed := false)
  {
    hide KeysOf;
  }

  /** It has looked for B in vain; then the hourly refresh brings B. */
  lemma KeyArrives() returns (s: State, acts: seq<Action>, n: nat)
    ensures Init(s) && n < |acts| && acts[n] == Look(2) && forall k :: n < k < |acts| ==> acts[k] != LoadFlag(2)
    ensures 2 in At(s, acts, n).callers && At(s, acts, n).callers[2] == Rechecking("B") && At(s, acts, n).fetchFailed
    ensures var t := Run(s, acts); 2 in t.callers && t.callers[2] == Absent("B") && "B" in t.keys && !t.fetchFailed
  {
    Rotation();
    s, acts, n := LooksInVain();
    hide Run, Apply, KeysOf;
    var before, t := acts, Run(s, acts);
    RefreshStarts(t);
    acts := RunTwo(s, acts, RefreshTick, Callback);
    RefreshBrings(Run(s, acts), NEW_KEYS);
    acts := RunTwo(s, acts, SwapShared(Some(NEW_KEYS)), MarkShared);
    assert acts == before + [RefreshTick, Callback, SwapShared(Some(NEW_KEYS)), MarkShared];
    assert acts[..n] == before[..n];
  }

  /**
   A token can be refused for good although its key is there by then: the request looks while the latest
   fetch had failed, the hourly fetch brings the key, and the mark the request loads is that fetch's.
   */
  lemma RefusedThoughPresent() returns (s: State, acts: seq<Action>, n: nat, m: nat)
    ensures Init(s) && LooksThenLoads(s, acts, 2, "B", n, m) && At(s, acts, n).fetchFailed
    ensures var t := At(s, acts, m + 1);
            2 in t.callers && t.callers[2] == Answered(UnknownKid) && "B" in t.keys
  {
    s, acts, n := KeyArrives();
    hide Run, KeysOf;
    m := |acts|;
    var before := acts;
    acts := Go(s, acts, Run(s, acts), LoadFlag(2));
    assert acts[..n] == before[..n] && acts[..m] == before && acts[..m + 1] == acts;
    assert At(s, acts, n) == At(s, before, n);
  }

  // ---- A burst of requests with a freshly rotated key ----

  /** A fetch that ends well brings kid. */
  predicate Brings(act: Action, kid: string) {
    (act.Swap? || act.SwapShared?) && Succeeds(act.response) ==> kid in KeysOf(act.response.value)
  }

  predicate Served(t: Caller, kid: string) {
    t == Joined(kid) || t == Rechecking(kid) || (t.Answered? && t.outcome.Found?)
  }

  lemma ServedStep(s: State, act: Action, c: nat, kid: string)
    requires c in s.callers && Served(s.callers[c], kid) && kid in s.keys && Brings(act, kid)
    ensures var t := Apply(s, act); kid in t.keys && c in t.callers && Served(t.callers[c], kid)
  {
    hide KeysOf;
  }

  /**
   Every request that joined the call when its fetch brings their key is served, never refused: whatever
   happens from then on, as long as no later key set lacks the key.
   */
  lemma {:induction false} BurstIsServed(s: State, response: Response, acts: seq<Action>, c: nat, kid: string)
    requires s.shared.InFlight? && c in s.callers && s.callers[c] == Joined(kid)
    requires Succeeds(response) && kid in KeysOf(response.value) && forall act :: act in acts ==> Brings(act, kid)
    ensures var t := Run(Apply(s, SwapShared(response)), acts);
            kid in t.keys && c in t.callers && Served(t.callers[c], kid)
  {
    var from := Apply(s, SwapShared(response));
    if acts == [] {
      EmptyRun(from);
    } else {
      BurstIsServed(s, response, acts[..|acts| - 1], c, kid);
      assert acts[|acts| - 1] in acts;
      ServedStep(Run(from, acts[..|acts| - 1]), acts[|acts| - 1], c, kid);
      hide Apply, Brings, Served, KeysOf;
    }
  }
}
