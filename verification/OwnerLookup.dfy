/**
 The key-owner lookup: answers from a cache that is never emptied, and reads the whole key store when a
 client ID is not in it. Lookups, the clock and the key store step freely; one mutex covers the pause
 before a read and the read itself.
 */
module OwnerLookup {
  import opened Common
  import KeyStore

  type Owner = KeyStore.Owner

  datatype Reply = FoundOwner(owner: Owner) | NotKnown | ReadFailed | Cancelled

  /** waits: the interval was not over when it took the lock. present is history: what was recorded when it arrived. */
  datatype Lookup =
    | Missed(id: string)
    | Queued(id: string, arrived: int, present: Option<Owner>)
    | Pausing(id: string, arrived: int, present: Option<Owner>, waits: bool)
    | Reading(id: string, arrived: int, present: Option<Owner>)
    | Listed(id: string, arrived: int, present: Option<Owner>, keys: map<string, Owner>)
    | Replied(id: string, present: Option<Owner>, reply: Reply)

  /**
   store is what the key store lists now. known (every owner it ever recorded) and starts (when reads
   started) are history.
   */
  datatype LState = LState(
    now: int, minInterval: nat, store: map<string, Owner>, owners: map<string, Owner>, lastRefresh: Option<int>,
    holder: Option<nat>, lookups: map<nat, Lookup>, known: map<string, Owner>, starts: seq<int>)

  datatype LAction =
    | Pass(d: nat)
    | Record(id: string, owner: Owner)
    | Forget(id: string)
    | Arrive(l: nat, id: string)
    | Clock(l: nat)
    | Lock(l: nat)
    | Cancel(l: nat)
    | StartRead(l: nat)
    | List(l: nat)
    | FailRead(l: nat)
    | EndRead(l: nat)

  function Cached(s: LState, id: string): Reply {
    if id in s.owners then FoundOwner(s.owners[id]) else NotKnown
  }

  function Present(s: LState, id: string): Option<Owner> {
    if id in s.store then Some(s.store[id]) else None
  }

  function With(s: LState, l: nat, x: Lookup): LState { s.(lookups := s.lookups[l := x]) }

  /** The mutex once it is free: a read that started after this lookup arrived answers it, else it may have to read. */
  function DoLock(s: LState, l: nat): LState
    requires l in s.lookups
  {
    match s.lookups[l]
    case Queued(id, arrived, present) =>
      if s.holder.Some? then s
      else if s.lastRefresh.Some? && s.lastRefresh.value > arrived then With(s, l, Replied(id, present, Cached(s, id)))
      else With(s.(holder := Some(l)), l, Pausing(id, arrived, present, MustWait(s)))
    case _ => s
  }

  predicate MustWait(s: LState) { s.lastRefresh.Some? && s.lastRefresh.value + s.minInterval > s.now }

  /** A caller may give up once its lookup had to wait, also when the wait is just over. */
  function DoCancel(s: LState, l: nat): LState
    requires l in s.lookups
  {
    match s.lookups[l]
    case Pausing(id, _, present, waits) =>
      if waits then With(s.(holder := None), l, Replied(id, present, Cancelled)) else s
    case _ => s
  }

  function DoStartRead(s: LState, l: nat): LState
    requires l in s.lookups
  {
    match s.lookups[l]
    case Pausing(id, arrived, present, _) =>
      if MustWait(s) then s
      else With(s.(lastRefresh := Some(s.now), starts := s.starts + [s.now]), l, Reading(id, arrived, present))
    case _ => s
  }

  function DoList(s: LState, l: nat): LState
    requires l in s.lookups
  {
    match s.lookups[l]
    case Reading(id, arrived, present) => With(s, l, Listed(id, arrived, present, s.store))
    case _ => s
  }

  function DoFailRead(s: LState, l: nat): LState
    requires l in s.lookups
  {
    match s.lookups[l]
    case Reading(id, _, present) => With(s.(holder := None), l, Replied(id, present, ReadFailed))
    case _ => s
  }

  function DoEndRead(s: LState, l: nat): LState
    requires l in s.lookups
  {
    match s.lookups[l]
    case Listed(id, _, present, keys) =>
      var t := s.(owners := s.owners + keys, holder := None);
      With(t, l, Replied(id, present, Cached(t, id)))
    case _ => s
  }

  function DoArrive(s: LState, l: nat, id: string): LState {
    if l in s.lookups then s
    else if id in s.owners then With(s, l, Replied(id, Present(s, id), Cached(s, id)))
    else With(s, l, Missed(id))
  }

  function DoClock(s: LState, l: nat): LState
    requires l in s.lookups
  {
    match s.lookups[l]
    case Missed(id) => With(s, l, Queued(id, s.now, Present(s, id)))
    case _ => s
  }

  /** The key store records an owner, always the same one for an ID (KeyStore.OwnerIsForever), or drops an entry. */
  function Apply(s: LState, act: LAction): LState {
    match act
    case Pass(d) => s.(now := s.now + d)
    case Record(id, owner) =>
      if id in s.known && s.known[id] != owner then s
      else s.(store := s.store[id := owner], known := s.known[id := owner])
    case Forget(id) => s.(store := s.store - {id})
    case Arrive(l, id) => DoArrive(s, l, id)
    case Clock(l) => if l in s.lookups then DoClock(s, l) else s
    case Lock(l) => if l in s.lookups then DoLock(s, l) else s
    case Cancel(l) => if l in s.lookups then DoCancel(s, l) else s
    case StartRead(l) => if l in s.lookups then DoStartRead(s, l) else s
    case List(l) => if l in s.lookups then DoList(s, l) else s
    case FailRead(l) => if l in s.lookups then DoFailRead(s, l) else s
    case EndRead(l) => if l in s.lookups then DoEndRead(s, l) else s
  }

  function Run(s: LState, acts: seq<LAction>): LState {
    if acts == [] then s else Apply(Run(s, acts[..|acts| - 1]), acts[|acts| - 1])
  }

  /** A handler just started over a key store with any contents. */
  ghost predicate Init(s: LState) {
    s == LState(s.now, s.minInterval, s.store, map[], None, None, map[], s.store, [])
  }

  // ---- For every run ----

  ghost predicate SubMap(a: map<string, Owner>, b: map<string, Owner>) {
    forall id :: id in a ==> id in b && b[id] == a[id]
  }

  predicate HoldsLock(x: Lookup) { x.Pausing? || x.Reading? || x.Listed? }

  ghost predicate Spaced(starts: seq<int>, gap: nat) {
    forall i, j :: 0 <= i < j < |starts| && j == i + 1 ==> starts[j] - starts[i] >= gap
  }

  ghost predicate Truthful(s: LState, x: Lookup) {
    && (x.Listed? ==> SubMap(x.keys, s.known))
    && (x.Replied? && x.reply.FoundOwner? ==> x.id in s.known && s.known[x.id] == x.reply.owner)
    && (!x.Missed? && x.present.Some? ==> x.id in s.known && s.known[x.id] == x.present.value)
  }

  ghost predicate Inv(s: LState) {
    && SubMap(s.store, s.known) && SubMap(s.owners, s.known)
    && (forall l :: l in s.lookups ==> Truthful(s, s.lookups[l]))
    && (forall l :: l in s.lookups && HoldsLock(s.lookups[l]) ==> s.holder == Some(l))
    && s.lastRefresh == (if s.starts == [] then None else Some(s.starts[|s.starts| - 1]))
    && (s.starts != [] ==> s.starts[|s.starts| - 1] <= s.now)
    && Spaced(s.starts, s.minInterval)
  }

  lemma TruthfulLater(s: LState, t: LState, x: Lookup)
    requires Truthful(s, x) && SubMap(s.known, t.known)
    ensures Truthful(t, x)
  {
  }

  /** Only lookup l changed, and the key store did not. */
  lemma InvWith(s: LState, t: LState, l: nat)
    requires Inv(s) && t.known == s.known && t.store == s.store && t.now == s.now && t.minInterval == s.minInterval
    requires l in t.lookups && t.lookups == s.lookups[l := t.lookups[l]] && Truthful(t, t.lookups[l])
    requires SubMap(t.owners, t.known)
    requires (t.starts == s.starts && t.lastRefresh == s.lastRefresh)
             || (t.starts == s.starts + [s.now] && t.lastRefresh == Some(s.now) && !MustWait(s))
    requires HoldsLock(t.lookups[l]) ==> t.holder == Some(l)
    requires t.holder != s.holder ==> s.holder == None || s.holder == Some(l)
    ensures Inv(t)
  {
    forall k | k in t.lookups ensures Truthful(t, t.lookups[k]) {
      if k != l { TruthfulLater(s, t, s.lookups[k]); }
    }
  }

  lemma InvLookups(s: LState, l: nat)
    requires Inv(s) && l in s.lookups
    ensures Inv(DoClock(s, l)) && Inv(DoCancel(s, l)) && Inv(DoList(s, l)) && Inv(DoFailRead(s, l))
  {
    hide Inv;
    InvFacts(s, l);
    if DoClock(s, l) != s { InvWith(s, DoClock(s, l), l); }
    if DoCancel(s, l) != s { InvWith(s, DoCancel(s, l), l); }
    if DoList(s, l) != s { InvWith(s, DoList(s, l), l); }
    if DoFailRead(s, l) != s { InvWith(s, DoFailRead(s, l), l); }
  }

  lemma InvLock(s: LState, l: nat)
    requires Inv(s) && l in s.lookups
    ensures Inv(DoLock(s, l))
  {
    hide Inv;
    InvFacts(s, l);
    if DoLock(s, l) != s { InvWith(s, DoLock(s, l), l); }
  }

  lemma InvReads(s: LState, l: nat)
    requires Inv(s) && l in s.lookups
    ensures Inv(DoStartRead(s, l)) && Inv(DoEndRead(s, l))
  {
    hide Inv;
    InvFacts(s, l);
    if DoStartRead(s, l) != s { InvWith(s, DoStartRead(s, l), l); }
    if DoEndRead(s, l) != s { InvWith(s, DoEndRead(s, l), l); }
  }

  lemma InvFacts(s: LState, l: nat)
    requires Inv(s) && l in s.lookups
    ensures Truthful(s, s.lookups[l]) && SubMap(s.store, s.known) && SubMap(s.owners, s.known)
    ensures HoldsLock(s.lookups[l]) ==> s.holder == Some(l)
  {
  }

  lemma InvArrive(s: LState, l: nat, id: string)
    requires Inv(s)
    ensures Inv(DoArrive(s, l, id))
  {
    if l !in s.lookups { InvWith(s, DoArrive(s, l, id), l); }
  }

  lemma InvStore(s: LState, act: LAction)
    requires Inv(s) && (act.Record? || act.Forget? || act.Pass?)
    ensures Inv(Apply(s, act))
  {
    var t := Apply(s, act);
    forall k | k in t.lookups ensures Truthful(t, t.lookups[k]) { TruthfulLater(s, t, s.lookups[k]); }
  }

  lemma InvStep(s: LState, act: LAction)
    requires Inv(s)
    ensures Inv(Apply(s, act))
  {
    hide Inv, DoClock, DoLock, DoCancel, DoStartRead, DoList, DoFailRead, DoEndRead, DoArrive;
    match act
    case Arrive(l, id) => InvArrive(s, l, id);
    case Clock(l) => if l in s.lookups { InvLookups(s, l); }
    case Lock(l) => if l in s.lookups { InvLock(s, l); }
    case Cancel(l) => if l in s.lookups { InvLookups(s, l); }
    case List(l) => if l in s.lookups { InvLookups(s, l); }
    case FailRead(l) => if l in s.lookups { InvLookups(s, l); }
    case StartRead(l) => if l in s.lookups { InvReads(s, l); }
    case EndRead(l) => if l in s.lookups { InvReads(s, l); }
    case _ => InvStore(s, act);
  }

  lemma {:induction false} InvRun(s: LState, acts: seq<LAction>)
    requires Init(s)
    ensures Inv(Run(s, acts))
  {
    hide Apply;
    if acts != [] {
      InvRun(s, acts[..|acts| - 1]);
      InvStep(Run(s, acts[..|acts| - 1]), acts[|acts| - 1]);
    }
  }

  lemma {:induction false} SpacedFar(starts: seq<int>, gap: nat, i: nat, j: nat)
    requires Spaced(starts, gap) && i <= j < |starts|
    ensures starts[j] - starts[i] >= (j - i) * gap
  {
    if i < j {
      SpacedFar(starts, gap, i, j - 1);
      assert (j - i) * gap == (j - 1 - i) * gap + gap;
    }
  }

  /** However many unknown IDs are looked up, the i-th and j-th reads of the key store start (j - i) intervals apart. */
  lemma ReadsAreSpaced(s: LState, acts: seq<LAction>, i: nat, j: nat)
    requires Init(s) && i <= j < |Run(s, acts).starts|
    ensures Run(s, acts).starts[j] - Run(s, acts).starts[i] >= (j - i) * Run(s, acts).minInterval
  {
    InvRun(s, acts);
    SpacedFar(Run(s, acts).starts, Run(s, acts).minInterval, i, j);
  }

  lemma {:induction false} KnownGrows(s: LState, acts: seq<LAction>, n: nat)
    requires n <= |acts|
    ensures SubMap(Run(s, acts[..n]).known, Run(s, acts).known)
  {
    if n == |acts| {
      assert acts[..n] == acts;
    } else {
      assert acts[..|acts| - 1][..n] == acts[..n];
      KnownGrows(s, acts[..|acts| - 1], n);
      KnownStep(Run(s, acts[..|acts| - 1]), acts[|acts| - 1]);
    }
  }

  lemma KnownStep(s: LState, act: LAction)
    ensures SubMap(s.known, Apply(s, act).known)
  {
  }

  /** An owner once given for an ID is the one given ever after, revoked, dropped or not. */
  lemma AnswersNeverChange(s: LState, acts: seq<LAction>, n: nat, l: nat, k: nat)
    requires Init(s) && n <= |acts|
    requires l in Run(s, acts[..n]).lookups && k in Run(s, acts).lookups
    requires var x, y := Run(s, acts[..n]).lookups[l], Run(s, acts).lookups[k];
             x.Replied? && y.Replied? && x.id == y.id && x.reply.FoundOwner? && y.reply.FoundOwner?
    ensures Run(s, acts[..n]).lookups[l].reply == Run(s, acts).lookups[k].reply
  {
    hide Run, Apply;
    InvRun(s, acts[..n]);
    InvRun(s, acts);
    KnownGrows(s, acts, n);
    InvFacts(Run(s, acts[..n]), l);
    InvFacts(Run(s, acts), k);
  }

  // ---- What a lookup for a recorded key is told ----

  /** The state after the first n actions. */
  function At(s: LState, acts: seq<LAction>, n: nat): LState
    requires n <= |acts|
  {
    Run(s, acts[..n])
  }

  lemma AtNext(s: LState, acts: seq<LAction>, n: nat)
    requires n < |acts|
    ensures At(s, acts, n + 1) == Apply(At(s, acts, n), acts[n])
  {
    assert acts[..n + 1][..n] == acts[..n];
  }

  lemma RunNext(s: LState, acts: seq<LAction>, act: LAction)
    ensures Run(s, acts + [act]) == Apply(Run(s, acts), act)
  {
    assert (acts + [act])[..|acts|] == acts;
  }

  predicate Starts(s: LState, act: LAction) {
    act.StartRead? && act.l in s.lookups && s.lookups[act.l].Pausing? && !MustWait(s)
  }

  predicate Fails(s: LState, act: LAction) {
    act.FailRead? && act.l in s.lookups && s.lookups[act.l].Reading?
  }

  predicate Ends(s: LState, act: LAction) {
    act.EndRead? && act.l in s.lookups && s.lookups[act.l].Listed?
  }

  /** The latest read of the key store, if there was one: when it started and how it went. */
  datatype Latest = NoRead | Underway(start: int) | Succeeded(start: int) | Failed(start: int)

  function NextLatest(s: LState, act: LAction, r: Latest): Latest {
    if Starts(s, act) then Underway(s.now)
    else if r.NoRead? then r
    else if Fails(s, act) then Failed(r.start)
    else if Ends(s, act) then Succeeded(r.start)
    else r
  }

  /** The latest read among the first m steps. */
  function LatestRead(s: LState, acts: seq<LAction>, m: nat): Latest
    requires m <= |acts|
  {
    if m == 0 then NoRead else NextLatest(At(s, acts, m - 1), acts[m - 1], LatestRead(s, acts, m - 1))
  }

  predicate Fetching(x: Lookup) { x.Reading? || x.Listed? }

  ghost predicate ReadMatches(s: LState, r: Latest) {
    && (s.lastRefresh == if r.NoRead? then None else Some(r.start))
    && (r.Underway? <==> s.holder.Some? && s.holder.value in s.lookups && Fetching(s.lookups[s.holder.value]))
  }

  lemma ReadMatchesStep(s: LState, act: LAction, r: Latest)
    requires Inv(s) && ReadMatches(s, r)
    ensures ReadMatches(Apply(s, act), NextLatest(s, act, r))
  {
    if !act.Pass? && !act.Record? && !act.Forget? && act.l in s.lookups {
      InvFacts(s, act.l);
    }
    hide Inv;
  }

  lemma {:induction false} ReadMatchesRun(s: LState, acts: seq<LAction>, m: nat)
    requires Init(s) && m <= |acts|
    ensures Inv(At(s, acts, m)) && ReadMatches(At(s, acts, m), LatestRead(s, acts, m))
  {
    InvRun(s, acts[..m]);
    if m > 0 {
      ReadMatchesRun(s, acts, m - 1);
      AtNext(s, acts, m - 1);
      ReadMatchesStep(At(s, acts, m - 1), acts[m - 1], LatestRead(s, acts, m - 1));
      hide Apply, At, Inv, ReadMatches;
    } else {
      assert acts[..0] == [];
    }
  }

  /** Some read that ended among the first m steps listed id. */
  ghost predicate Brought(s: LState, acts: seq<LAction>, m: nat, id: string)
    requires m <= |acts|
  {
    exists k :: 0 <= k < m && Brings(At(s, acts, k), acts[k], id)
  }

  predicate Brings(s: LState, act: LAction, id: string) { Ends(s, act) && id in s.lookups[act.l].keys }

  lemma OwnersStep(s: LState, act: LAction, id: string)
    ensures id in Apply(s, act).owners <==> id in s.owners || Brings(s, act, id)
  {
  }

  /** The cache holds exactly what ended reads listed. */
  lemma {:induction false} CacheIsWhatWasBrought(s: LState, acts: seq<LAction>, m: nat, id: string)
    requires Init(s) && m <= |acts|
    ensures id in At(s, acts, m).owners <==> Brought(s, acts, m, id)
  {
    if m > 0 {
      CacheIsWhatWasBrought(s, acts, m - 1, id);
      AtNext(s, acts, m - 1);
      OwnersStep(At(s, acts, m - 1), acts[m - 1], id);
      hide Apply, At, Brings;
      if Brought(s, acts, m - 1, id) {
        var k :| 0 <= k < m - 1 && Brings(At(s, acts, k), acts[k], id);
        assert k < m;
      }
    } else {
      assert acts[..0] == [];
    }
  }

  /** In the n-th step lookup l, which missed id in the cache, reads the clock; the key store then has id. */
  ghost predicate ArrivesAt(s: LState, acts: seq<LAction>, n: nat, l: nat, id: string) {
    && n < |acts| && acts[n] == Clock(l)
    && l in At(s, acts, n).lookups && At(s, acts, n).lookups[l] == Missed(id) && id in At(s, acts, n).store
  }

  /** In the m-th step lookup l is answered. */
  ghost predicate AnsweredAt(s: LState, acts: seq<LAction>, m: nat, l: nat) {
    && m < |acts| && l in At(s, acts, m).lookups && !At(s, acts, m).lookups[l].Replied?
    && l in At(s, acts, m + 1).lookups && At(s, acts, m + 1).lookups[l].Replied?
  }

  /** A lookup under way for id since it read the clock. */
  predicate Since(x: Lookup, id: string, arrived: int, present: Option<Owner>) {
    (x.Queued? || x.Pausing? || x.Reading? || x.Listed?) && x.id == id && x.arrived == arrived && x.present == present
  }

  /** What holds from then on while the lookup is not answered and nothing drops the key. */
  ghost predicate Waiting(s: LState, r: Latest, l: nat, id: string, arrived: int, present: Option<Owner>) {
    && l in s.lookups && Since(s.lookups[l], id, arrived, present)
    && id in s.store && arrived <= s.now
    && (s.lookups[l].Pausing? ==> r.NoRead? || r.start <= arrived)
    && WillBring(s, r, id, arrived) && (s.lookups[l].Listed? ==> id in s.lookups[l].keys)
  }

  /** A read started after the arrival is to list the key or has listed it, has brought it, or has failed. */
  ghost predicate WillBring(s: LState, r: Latest, id: string, arrived: int) {
    && (r.Succeeded? && r.start > arrived ==> id in s.owners)
    && (r.Underway? && r.start > arrived && s.holder.Some? && s.holder.value in s.lookups ==>
          s.lookups[s.holder.value].Listed? ==> id in s.lookups[s.holder.value].keys)
  }

  lemma WillBringStep(s: LState, act: LAction, r: Latest, id: string, arrived: int)
    requires Inv(s) && ReadMatches(s, r) && WillBring(s, r, id, arrived) && id in s.store
    ensures WillBring(Apply(s, act), NextLatest(s, act, r), id, arrived)
  {
    if !act.Pass? && !act.Record? && !act.Forget? && act.l in s.lookups {
      InvFacts(s, act.l);
    }
    hide Inv;
  }

  /** A step of lookup l itself. */
  predicate Own(act: LAction, l: nat) { !act.Pass? && !act.Record? && !act.Forget? && act.l == l }

  lemma OthersLeaveLookup(s: LState, act: LAction, l: nat)
    requires !Own(act, l)
    ensures l in Apply(s, act).lookups <==> l in s.lookups
    ensures l in s.lookups ==> Apply(s, act).lookups[l] == s.lookups[l]
  {
  }

  lemma StoreKeeps(s: LState, act: LAction, id: string)
    requires id in s.store && act != Forget(id)
    ensures id in Apply(s, act).store && s.now <= Apply(s, act).now
  {
  }

  lemma OwnSince(s: LState, act: LAction, l: nat, id: string, arrived: int, present: Option<Owner>)
    requires Own(act, l) && l in s.lookups && Since(s.lookups[l], id, arrived, present) && id in s.store
    requires s.lookups[l].Listed? ==> id in s.lookups[l].keys
    ensures var t := Apply(s, act);
            && l in t.lookups && (t.lookups[l].Replied? || Since(t.lookups[l], id, arrived, present))
            && (t.lookups[l].Listed? ==> id in t.lookups[l].keys)
  {
  }

  lemma SinceStep(s: LState, act: LAction, r: Latest, l: nat, id: string, arrived: int, present: Option<Owner>)
    requires Waiting(s, r, l, id, arrived, present) && act != Forget(id)
    ensures var t := Apply(s, act);
            && l in t.lookups && (t.lookups[l].Replied? || Since(t.lookups[l], id, arrived, present))
            && id in t.store && arrived <= t.now
            && (t.lookups[l].Listed? ==> id in t.lookups[l].keys)
  {
    StoreKeeps(s, act, id);
    if Own(act, l) { OwnSince(s, act, l, id, arrived, present); } else { OthersLeaveLookup(s, act, l); }
    hide WillBring, Apply, Own;
  }

  lemma WhoPauses(s: LState, act: LAction, l: nat)
    requires l in Apply(s, act).lookups && Apply(s, act).lookups[l].Pausing?
    ensures l in s.lookups
    ensures (s.lookups[l] == Apply(s, act).lookups[l] && !(act == StartRead(l) && !MustWait(s)))
            || (act == Lock(l) && s.lookups[l].Queued?
                && (s.lastRefresh.Some? ==> s.lastRefresh.value <= s.lookups[l].arrived))
  {
    if !Own(act, l) {
      OthersLeaveLookup(s, act, l);
      hide Apply;
    }
  }

  lemma PausingStep(s: LState, act: LAction, r: Latest, l: nat, id: string, arrived: int, present: Option<Owner>)
    requires Inv(s) && ReadMatches(s, r) && Waiting(s, r, l, id, arrived, present)
    requires l in Apply(s, act).lookups && Apply(s, act).lookups[l].Pausing?
    ensures NextLatest(s, act, r).NoRead? || NextLatest(s, act, r).start <= arrived
  {
    InvFacts(s, l);
    if act.StartRead? && act.l in s.lookups { InvFacts(s, act.l); }
    WhoPauses(s, act, l);
    hide Inv, WillBring, Apply;
  }

  lemma ClockStarts(s: LState, r: Latest, l: nat, id: string)
    requires Inv(s) && ReadMatches(s, r) && l in s.lookups && s.lookups[l] == Missed(id) && id in s.store
    ensures Waiting(Apply(s, Clock(l)), NextLatest(s, Clock(l), r), l, id, s.now, Some(s.store[id]))
  {
    RefreshIsPast(s);
    hide Inv;
  }

  lemma RefreshIsPast(s: LState)
    requires Inv(s)
    ensures s.lastRefresh.Some? ==> s.lastRefresh.value <= s.now
  {
  }

  lemma {:induction false} WaitsUntilAnswered(s: LState, acts: seq<LAction>, n: nat, m: nat, l: nat, id: string)
    requires Init(s) && ArrivesAt(s, acts, n, l, id) && n < m <= |acts|
    requires forall k :: n < k < m ==> acts[k] != Forget(id)
    ensures l in At(s, acts, m).lookups
    ensures At(s, acts, m).lookups[l].Replied?
            || Waiting(At(s, acts, m), LatestRead(s, acts, m), l, id, At(s, acts, n).now,
                       Some(At(s, acts, n).store[id]))
  {
    AtNext(s, acts, m - 1);
    ReadMatchesRun(s, acts, m - 1);
    var t, r := At(s, acts, m - 1), LatestRead(s, acts, m - 1);
    if n == m - 1 {
      ClockStarts(t, r, l, id);
    } else {
      WaitsUntilAnswered(s, acts, n, m - 1, l, id);
      if t.lookups[l].Replied? {
        RepliedStays(t, acts[m - 1], l);
      } else {
        var arrived, present := At(s, acts, n).now, Some(At(s, acts, n).store[id]);
        SinceStep(t, acts[m - 1], r, l, id, arrived, present);
        if Apply(t, acts[m - 1]).lookups[l].Pausing? { PausingStep(t, acts[m - 1], r, l, id, arrived, present); }
        WillBringStep(t, acts[m - 1], r, id, arrived);
      }
    }
    hide *;
  }

  lemma RepliedStays(s: LState, act: LAction, l: nat)
    requires l in s.lookups && s.lookups[l].Replied?
    ensures l in Apply(s, act).lookups && Apply(s, act).lookups[l] == s.lookups[l]
  {
  }

  /** How a lookup under way can be answered. */
  lemma WhoAnswers(s: LState, act: LAction, l: nat)
    requires l in s.lookups && (s.lookups[l].Queued? || s.lookups[l].Pausing? || Fetching(s.lookups[l]))
    requires l in Apply(s, act).lookups && Apply(s, act).lookups[l].Replied?
    ensures var x, reply := s.lookups[l], Apply(s, act).lookups[l].reply;
            || (act == Cancel(l) && reply == Cancelled) || (act == FailRead(l) && reply == ReadFailed)
            || (act == Lock(l) && x.Queued? && s.holder.None? && s.lastRefresh.Some?
                && s.lastRefresh.value > x.arrived && reply == Cached(s, x.id))
            || (act == EndRead(l) && x.Listed? && reply == Cached(s.(owners := s.owners + x.keys), x.id))
  {
    if !Own(act, l) {
      OthersLeaveLookup(s, act, l);
      hide Apply;
    }
  }

  lemma AnswerStep(s: LState, act: LAction, r: Latest, l: nat, id: string, arrived: int, present: Option<Owner>)
    requires Inv(s) && ReadMatches(s, r) && Waiting(s, r, l, id, arrived, present)
    requires l in Apply(s, act).lookups && Apply(s, act).lookups[l].Replied?
    ensures var reply := Apply(s, act).lookups[l].reply;
            && (reply == NotKnown <==> r.Failed? && r.start > arrived && id !in s.owners)
            && (reply == ReadFailed <==> act == FailRead(l)) && (reply == Cancelled <==> act == Cancel(l))
  {
    InvFacts(s, l);
    WhoAnswers(s, act, l);
    hide Inv, Apply;
  }

  /**
   The answer to a lookup for a key recorded when it arrived and not dropped since, over every run: the
   key is called unknown if and only if the latest read started after the arrival and failed, and no read
   so far brought the key. Otherwise the answer is the key's owner, unless this lookup's own read failed
   or its caller gave up.
   */
  lemma RecordedKeyIsAnswered(s: LState, acts: seq<LAction>, n: nat, m: nat, l: nat, id: string)
    requires Init(s) && ArrivesAt(s, acts, n, l, id) && n < m && AnsweredAt(s, acts, m, l)
    requires forall k :: n < k < m ==> acts[k] != Forget(id)
    ensures var reply, r := At(s, acts, m + 1).lookups[l].reply, LatestRead(s, acts, m);
            && (reply == NotKnown <==> r.Failed? && r.start > At(s, acts, n).now && !Brought(s, acts, m, id))
            && (reply == ReadFailed <==> acts[m] == FailRead(l)) && (reply == Cancelled <==> acts[m] == Cancel(l))
            && (reply.FoundOwner? ==> reply.owner == At(s, acts, n).store[id])
  {
    WaitsUntilAnswered(s, acts, n, m, l, id);
    ReadMatchesRun(s, acts, m);
    CacheIsWhatWasBrought(s, acts, m, id);
    AtNext(s, acts, m);
    var t, arrived, present := At(s, acts, m), At(s, acts, n).now, Some(At(s, acts, n).store[id]);
    AnswerStep(t, acts[m], LatestRead(s, acts, m), l, id, arrived, present);
    AnswerKeepsPresent(t, acts[m], l, id, arrived, present);
    InvRun(s, acts[..m + 1]);
    InvFacts(At(s, acts, m + 1), l);
    hide Apply, Inv, At, Brought, Waiting, ReadMatches;
  }

  lemma AnswerKeepsPresent(s: LState, act: LAction, l: nat, id: string, arrived: int, present: Option<Owner>)
    requires l in s.lookups && Since(s.lookups[l], id, arrived, present)
    requires l in Apply(s, act).lookups && Apply(s, act).lookups[l].Replied?
    ensures Apply(s, act).lookups[l].id == id && Apply(s, act).lookups[l].present == present
  {
  }

  lemma {:induction false} NoFailNoFailed(s: LState, acts: seq<LAction>, n: nat, m: nat)
    requires Init(s) && n <= m <= |acts|
    requires forall k :: n <= k < m ==> !Fails(At(s, acts, k), acts[k])
    ensures LatestRead(s, acts, m).Failed? ==> LatestRead(s, acts, m).start <= At(s, acts, n).now
  {
    if n < m {
      NoFailNoFailed(s, acts, n, m - 1);
    } else {
      ReadMatchesRun(s, acts, n);
      RefreshIsPast(At(s, acts, n));
    }
    hide At, Fails, Starts, Ends;
  }

  /**
   Whatever happened before, if since the lookup arrived no read failed and nothing dropped its key, a
   lookup for a recorded key is answered with the key's owner (unless its caller gave up).
   */
  lemma RecordedKeyIsFound(s: LState, acts: seq<LAction>, n: nat, m: nat, l: nat, id: string)
    requires Init(s) && ArrivesAt(s, acts, n, l, id) && n < m && AnsweredAt(s, acts, m, l)
    requires forall k :: n < k <= m ==> acts[k] != Forget(id) && !Fails(At(s, acts, k), acts[k])
    ensures var reply := At(s, acts, m + 1).lookups[l].reply;
            reply == FoundOwner(At(s, acts, n).store[id]) || (reply == Cancelled && acts[m] == Cancel(l))
  {
    RecordedKeyIsAnswered(s, acts, n, m, l, id);
    NoFailNoFailed(s, acts, n, m);
    AtNext(s, acts, m);
    if acts[m] == FailRead(l) { OwnReadFailed(At(s, acts, m), acts[m], l); }
    hide At, Apply, LatestRead, Brought, AnsweredAt;
  }

  lemma OwnReadFailed(s: LState, act: LAction, l: nat)
    requires l in s.lookups && !s.lookups[l].Replied? && act == FailRead(l)
    requires l in Apply(s, act).lookups && Apply(s, act).lookups[l].Replied?
    ensures Fails(s, act)
  {
  }

  // The states of a run in which a shared read fails.

  function Recorded(owner: Owner): LState {
    LState(0, 1, map["k" := owner], map[], None, None, map[], map["k" := owner], [])
  }

  function BothMissed(owner: Owner): LState { Recorded(owner).(lookups := map[1 := Missed("k"), 2 := Missed("k")]) }

  function BothQueued(owner: Owner): LState {
    Recorded(owner).(lookups := map[1 := Queued("k", 0, Some(owner)), 2 := Queued("k", 0, Some(owner))])
  }

  function OnePauses(owner: Owner): LState {
    BothQueued(owner).(now := 1, holder := Some(1),
                       lookups := map[1 := Pausing("k", 0, Some(owner), false), 2 := Queued("k", 0, Some(owner))])
  }

  function OneFailed(owner: Owner): LState {
    BothQueued(owner).(now := 1, lastRefresh := Some(1), starts := [1],
                       lookups := map[1 := Replied("k", Some(owner), ReadFailed), 2 := Queued("k", 0, Some(owner))])
  }

  lemma BothArrive(owner: Owner)
    ensures Apply(Apply(Recorded(owner), Arrive(1, "k")), Arrive(2, "k")) == BothMissed(owner)
  {
  }

  lemma BothQueue(owner: Owner)
    ensures Apply(Apply(BothMissed(owner), Clock(1)), Clock(2)) == BothQueued(owner)
  {
  }

  lemma OneTakesLock(owner: Owner)
    ensures Apply(Apply(BothQueued(owner), Pass(1)), Lock(1)) == OnePauses(owner)
  {
  }

  lemma OneFails(owner: Owner)
    ensures Apply(Apply(OnePauses(owner), StartRead(1)), FailRead(1)) == OneFailed(owner)
  {
    assert !MustWait(OnePauses(owner));
  }

  lemma RunTwo(s: LState, acts: seq<LAction>, a: LAction, b: LAction) returns (more: seq<LAction>)
    ensures more == acts + [a, b] && Run(s, more) == Apply(Apply(Run(s, acts), a), b)
  {
    hide *;
    RunNext(s, acts, a);
    RunNext(s, acts + [a], b);
    more := acts + [a] + [b];
    assert more == acts + [a, b];
  }

  lemma FailsFirst(owner: Owner) returns (two: seq<LAction>, acts: seq<LAction>)
    ensures two == [Arrive(1, "k"), Arrive(2, "k")] && Run(Recorded(owner), two) == BothMissed(owner)
    ensures acts == two + [Clock(1), Clock(2)] + [Pass(1), Lock(1)] + [StartRead(1), FailRead(1)]
    ensures Run(Recorded(owner), acts) == OneFailed(owner)
  {
    BothArrive(owner);
    BothQueue(owner);
    OneTakesLock(owner);
    OneFails(owner);
    var s := Recorded(owner);
    assert Run(s, []) == s;
    hide *;
    two := RunTwo(s, [], Arrive(1, "k"), Arrive(2, "k"));
    acts := RunTwo(s, two, Clock(1), Clock(2));
    acts := RunTwo(s, acts, Pass(1), Lock(1));
    acts := RunTwo(s, acts, StartRead(1), FailRead(1));
  }

  /**
   A run in which a recorded key is called unknown: two lookups for it arrive before one read, which fails;
   the first gets the error, and the second sees that a read started after it arrived.
   */
  lemma FailedReadHidesKey(owner: Owner) returns (s: LState, acts: seq<LAction>)
    ensures Init(s) && s.store == map["k" := owner]
    ensures ArrivesAt(s, acts, 3, 2, "k") && AnsweredAt(s, acts, 8, 2) && |acts| == 9
    ensures forall k :: 3 < k < 9 ==> !acts[k].Forget?
    ensures At(s, acts, 9).lookups[2].reply == NotKnown
  {
    var two, eight := FailsFirst(owner);
    s, acts := Recorded(owner), eight + [Lock(2)];
    RunNext(s, two, Clock(1));
    RunNext(s, eight, Lock(2));
    assert acts[..3] == two + [Clock(1)] && acts[..8] == eight && acts[..9] == acts;
    hide Run;
  }
}
