/**
 The live-stream hub: one poller reads for every open stream. The hub's mutex covers subscribe,
 unsubscribe and the whole publishing loop; a stream's handler takes batches and drop counts from its
 own subscriber at any time, also in the middle of that loop. A poller that was stopped may still be
 waiting on a read when its successor starts.
 */
module StreamHub {
  import opened Common
  import opened Receipts

  const STREAM_BUFFER := 16

  datatype Change = Change(id: string, data: string, fields: Fields)

  function ChangeId(c: Change): string { c.id }

  function Matching(f: ReceiptFilter, changes: seq<Change>): seq<Change> {
    Filter((c: Change) => Match(f, c.fields), changes)
  }

  /**
   queue is the buffered channel; closes counts how often the ready channel was closed. The last three
   are history: batches the handler took, drops it reported, and for each matching batch published to
   this stream since the baseline whether it got into the channel.
   */
  datatype Subscriber = Subscriber(filter: ReceiptFilter, queue: seq<seq<Change>>, closes: nat, dropped: nat,
                                   received: seq<seq<Change>>, reported: nat, kept: seq<bool>)

  datatype Phase = Reading | HasRead(changes: seq<Change>, missed: nat) | Publishing | Waiting | Exited

  datatype Poller = Poller(cancelled: bool, phase: Phase)

  /** The mutex: free, or held by a publishing poller with the streams it has still to serve. */
  datatype Lock = Free | Held(poller: nat, changes: seq<Change>, missed: nat, todo: set<nat>, current: Option<nat>)

  /** History: one publishing, to every stream subscribed at the time. */
  datatype Publication = Publication(changes: seq<Change>, missed: nat, live: bool, to: set<nat>)

  datatype State = State(subs: map<nat, Subscriber>, stop: Option<nat>, baselined: bool,
                         pollers: map<nat, Poller>, lock: Lock, seen: set<nat>, log: seq<Publication>)

  datatype Action =
    | Subscribe(sub: nat, filter: ReceiptFilter, poller: nat)
    | Unsubscribe(sub: nat)
    | ReadOk(poller: nat, changes: seq<Change>, missed: nat)
    | ReadErr(poller: nat)
    | Acquire(poller: nat)
    | AddMissed(sub: nat)
    | Deliver
    | Release
    | Tick(poller: nat)
    | Exit(poller: nat)
    | Receive(sub: nat)
    | TakeDropped(sub: nat)

  function Init(): State { State(map[], None, false, map[], Free, {}, []) }

  function SetPhase(s: State, p: nat, phase: Phase): State
    requires p in s.pollers
  {
    s.(pollers := s.pollers[p := s.pollers[p].(phase := phase)])
  }

  function DoSubscribe(s: State, sub: nat, filter: ReceiptFilter, p: nat): State {
    if !s.lock.Free? || sub in s.seen || (s.stop.None? && p in s.pollers) then s else
    var added := s.(subs := s.subs[sub := Subscriber(filter, [], if s.baselined then 1 else 0, 0, [], 0, [])],
                    seen := s.seen + {sub});
    if s.stop.Some? then added
    else added.(stop := Some(p), pollers := s.pollers[p := Poller(false, Reading)])
  }

  function DoUnsubscribe(s: State, sub: nat): State {
    if !s.lock.Free? then s else
    var rest := s.(subs := s.subs - {sub});
    if rest.subs == map[] && s.stop.Some? && s.stop.value in s.pollers then
      rest.(stop := None, baselined := false,
            pollers := s.pollers[s.stop.value := s.pollers[s.stop.value].(cancelled := true)])
    else rest
  }

  /** After a read, before the lock: a stopped poller leaves. */
  function DoRead(s: State, p: nat, next: Phase): State
    requires p in s.pollers
  {
    if !s.pollers[p].phase.Reading? then s
    else SetPhase(s, p, if s.pollers[p].cancelled then Exited else next)
  }

  function DoAcquire(s: State, p: nat): State
    requires p in s.pollers
  {
    match s.pollers[p].phase
    case HasRead(changes, missed) =>
      if !s.lock.Free? then s
      else if s.pollers[p].cancelled then SetPhase(s, p, Exited)
      else SetPhase(s, p, Publishing).(
             lock := Held(p, changes, missed, s.subs.Keys, None),
             log := s.log + [Publication(changes, missed, s.baselined, s.subs.Keys)])
    case _ => s
  }

  function DoAddMissed(s: State, sub: nat): State {
    if !s.lock.Held? || s.lock.current.Some? || sub !in s.lock.todo || sub !in s.subs then s else
    var x := s.subs[sub];
    var counted := if s.lock.missed > 0 && s.baselined then x.(dropped := x.dropped + s.lock.missed) else x;
    s.(subs := s.subs[sub := counted], lock := s.lock.(todo := s.lock.todo - {sub}, current := Some(sub)))
  }

  /** One subscriber's turn in the publishing loop, after its missed count. */
  function Served(x: Subscriber, baselined: bool, changes: seq<Change>): Subscriber {
    if !baselined then (if x.closes > 0 then x else x.(closes := x.closes + 1))
    else
      var batch := Matching(x.filter, changes);
      if batch == [] then x
      else if |x.queue| < STREAM_BUFFER then x.(queue := x.queue + [batch], kept := x.kept + [true])
      else x.(dropped := x.dropped + |batch|, kept := x.kept + [false])
  }

  function DoDeliver(s: State): State {
    if !s.lock.Held? || s.lock.current.None? || s.lock.current.value !in s.subs then s else
    var sub := s.lock.current.value;
    s.(subs := s.subs[sub := Served(s.subs[sub], s.baselined, s.lock.changes)], lock := s.lock.(current := None))
  }

  function DoRelease(s: State): State {
    if !s.lock.Held? || s.lock.current.Some? || s.lock.todo != {} || s.lock.poller !in s.pollers then s
    else SetPhase(s, s.lock.poller, Waiting).(baselined := true, lock := Free)
  }

  /** The handler waits for ready before it takes anything. */
  function DoReceive(s: State, sub: nat): State
    requires sub in s.subs
  {
    var x := s.subs[sub];
    if x.closes == 0 || x.queue == [] then s
    else s.(subs := s.subs[sub := x.(queue := x.queue[1..], received := x.received + [x.queue[0]])])
  }

  function DoTakeDropped(s: State, sub: nat): State
    requires sub in s.subs
  {
    var x := s.subs[sub];
    if x.closes == 0 then s
    else s.(subs := s.subs[sub := x.(dropped := 0, reported := x.reported + x.dropped)])
  }

  function Apply(s: State, act: Action): State {
    match act
    case Subscribe(sub, filter, p) => DoSubscribe(s, sub, filter, p)
    case Unsubscribe(sub) => DoUnsubscribe(s, sub)
    case ReadOk(p, changes, missed) => if p in s.pollers then DoRead(s, p, HasRead(changes, missed)) else s
    case ReadErr(p) => if p in s.pollers then DoRead(s, p, Waiting) else s
    case Acquire(p) => if p in s.pollers then DoAcquire(s, p) else s
    case AddMissed(sub) => DoAddMissed(s, sub)
    case Deliver => DoDeliver(s)
    case Release => DoRelease(s)
    case Tick(p) => if p in s.pollers && s.pollers[p].phase.Waiting? then SetPhase(s, p, Reading) else s
    case Exit(p) =>
      if p in s.pollers && s.pollers[p].phase.Waiting? && s.pollers[p].cancelled then SetPhase(s, p, Exited) else s
    case Receive(sub) => if sub in s.subs then DoReceive(s, sub) else s
    case TakeDropped(sub) => if sub in s.subs then DoTakeDropped(s, sub) else s
  }

  function Run(acts: seq<Action>): State {
    if acts == [] then Init() else Apply(Run(acts[..|acts| - 1]), acts[|acts| - 1])
  }

  // ---- Pollers, the mutex and the ready channels ----

  predicate Active(s: State, p: nat) { p in s.pollers && !s.pollers[p].cancelled }

  /** How often a stream's ready channel should have been closed by now. */
  function ExpectedCloses(s: State, sub: nat): nat {
    if s.baselined then 1
    else if s.lock.Held? && sub !in s.lock.todo && s.lock.current != Some(sub) then 1
    else 0
  }

  ghost predicate PollersOk(s: State) {
    && (s.stop.Some? <==> s.subs != map[])
    && (s.baselined ==> s.stop.Some?)
    && (forall p :: p in s.pollers && !s.pollers[p].cancelled ==> s.stop == Some(p) && !s.pollers[p].phase.Exited?)
    && (s.stop.Some? ==> Active(s, s.stop.value))
    && (s.lock.Held? ==> Active(s, s.lock.poller))
    && (forall p :: p in s.pollers && s.pollers[p].phase.Publishing? ==> s.lock.Held? && s.lock.poller == p)
    && (s.lock.Held? ==>
          s.lock.todo <= s.subs.Keys && (s.lock.current.Some? ==> s.lock.current.value in s.subs.Keys - s.lock.todo))
  }

  ghost predicate SubsOk(s: State) {
    forall sub :: sub in s.subs ==>
      sub in s.seen && s.subs[sub].closes == ExpectedCloses(s, sub) && |s.subs[sub].queue| <= STREAM_BUFFER
  }

  ghost predicate Inv(s: State) { PollersOk(s) && SubsOk(s) }

  lemma InvSubscribe(s: State, sub: nat, filter: ReceiptFilter, p: nat)
    requires Inv(s)
    ensures Inv(DoSubscribe(s, sub, filter, p))
  {
  }

  lemma InvUnsubscribe(s: State, sub: nat)
    requires Inv(s)
    ensures Inv(DoUnsubscribe(s, sub))
  {
  }

  lemma InvPoller(s: State, p: nat, next: Phase)
    requires Inv(s) && p in s.pollers && (next.HasRead? || next.Waiting?)
    ensures Inv(DoRead(s, p, next)) && Inv(DoAcquire(s, p)) && Inv(DoRelease(s))
  {
  }

  lemma InvServe(s: State, sub: nat)
    requires Inv(s)
    ensures Inv(DoAddMissed(s, sub)) && Inv(DoDeliver(s))
  {
  }

  lemma InvHandler(s: State, sub: nat)
    requires Inv(s) && sub in s.subs
    ensures Inv(DoReceive(s, sub)) && Inv(DoTakeDropped(s, sub))
  {
  }

  lemma InvStep(s: State, act: Action)
    requires Inv(s)
    ensures Inv(Apply(s, act))
  {
    match act
    case Subscribe(sub, filter, p) => InvSubscribe(s, sub, filter, p);
    case Unsubscribe(sub) => InvUnsubscribe(s, sub);
    case ReadOk(p, changes, missed) => if p in s.pollers { InvPoller(s, p, HasRead(changes, missed)); }
    case ReadErr(p) => if p in s.pollers { InvPoller(s, p, Waiting); }
    case Acquire(p) => if p in s.pollers { InvPoller(s, p, Waiting); }
    case AddMissed(sub) => InvServe(s, sub);
    case Deliver => InvServe(s, 0);
    case Release => if s.lock.Held? { InvPoller(s, s.lock.poller, Waiting); }
    case Tick(p) =>
    case Exit(p) =>
    case Receive(sub) => if sub in s.subs { InvHandler(s, sub); }
    case TakeDropped(sub) => if sub in s.subs { InvHandler(s, sub); }
  }

  lemma {:induction false} InvRun(acts: seq<Action>)
    ensures Inv(Run(acts))
  {
    if acts != [] {
      InvRun(acts[..|acts| - 1]);
      InvStep(Run(acts[..|acts| - 1]), acts[|acts| - 1]);
    }
  }

  /**
   In every reachable state: a poller handle is kept exactly while there are streams; at most one
   poller is uncancelled, the one the handle belongs to; and whenever the mutex is free a stream's
   ready channel has been closed exactly once if the hub is baselined and never otherwise.
   */
  lemma OnePollerAndReadyOnce(acts: seq<Action>, p: nat, q: nat, sub: nat)
    ensures var s := Run(acts);
            && (s.stop.Some? <==> s.subs != map[])
            && (Active(s, p) && Active(s, q) ==> p == q && s.stop == Some(p))
            && (sub in s.subs && s.lock.Free? ==> s.subs[sub].closes == if s.baselined then 1 else 0)
            && (sub in s.subs ==> s.subs[sub].closes <= 1)
  {
    InvRun(acts);
  }

  /** A publication, or the baseline being set, is the work of the uncancelled poller. */
  lemma CancelledNeverPublishes(acts: seq<Action>, act: Action)
    ensures var s, t := Run(acts), Apply(Run(acts), act);
            && (t.log != s.log ==> act.Acquire? && Active(s, act.poller) && s.stop == Some(act.poller))
            && (t.baselined && !s.baselined ==>
                  act.Release? && s.lock.Held? && Active(s, s.lock.poller) && s.stop == Some(s.lock.poller))
            && (s.baselined && !t.baselined ==> t.subs == map[] && t.stop.None?)
  {
    InvRun(acts);
  }

  /** The publishing loop never needs the guard that keeps it from closing a ready channel twice. */
  lemma ReadyIsOpenWhenClosed(acts: seq<Action>)
    ensures var s := Run(acts);
            s.lock.Held? && s.lock.current.Some? && !s.baselined && s.lock.current.value in s.subs ==>
              s.subs[s.lock.current.value].closes == 0
  {
    InvRun(acts);
  }

  // ---- Nothing is lost without being counted ----

  /** The non-empty matching batches a log of publications holds for a stream, in order. */
  function Batches(f: ReceiptFilter, sub: nat, log: seq<Publication>): seq<seq<Change>> {
    if log == [] then []
    else
      var e := log[|log| - 1];
      var before := Batches(f, sub, log[..|log| - 1]);
      if e.live && sub in e.to && Matching(f, e.changes) != [] then before + [Matching(f, e.changes)] else before
  }

  /** The requests the reads behind a log of publications could not read, for a stream. */
  function MissedFor(sub: nat, log: seq<Publication>): nat {
    if log == [] then 0
    else
      var e := log[|log| - 1];
      MissedFor(sub, log[..|log| - 1]) + if e.live && sub in e.to then e.missed else 0
  }

  function Size(batches: seq<seq<Change>>): nat {
    if batches == [] then 0 else Size(batches[..|batches| - 1]) + |batches[|batches| - 1]|
  }

  /** The batches that got into the channel. */
  function Kept(batches: seq<seq<Change>>, kept: seq<bool>): seq<seq<Change>>
    requires |kept| == |batches|
  {
    if batches == [] then []
    else
      var n := |batches| - 1;
      if kept[n] then Kept(batches[..n], kept[..n]) + [batches[n]] else Kept(batches[..n], kept[..n])
  }

  /** The changes in the batches that did not. */
  function LostSize(batches: seq<seq<Change>>, kept: seq<bool>): nat
    requires |kept| == |batches|
  {
    if batches == [] then 0
    else
      var n := |batches| - 1;
      LostSize(batches[..n], kept[..n]) + if kept[n] then 0 else |batches[n]|
  }

  lemma {:induction false} SizeSplits(batches: seq<seq<Change>>, kept: seq<bool>)
    requires |kept| == |batches|
    ensures Size(batches) == Size(Kept(batches, kept)) + LostSize(batches, kept)
  {
    if batches != [] {
      var n := |batches| - 1;
      SizeSplits(batches[..n], kept[..n]);
      if kept[n] { assert Kept(batches, kept)[..|Kept(batches, kept)| - 1] == Kept(batches[..n], kept[..n]); }
    }
  }

  lemma {:induction false} SizeAppend(xs: seq<seq<Change>>, ys: seq<seq<Change>>)
    ensures Size(xs + ys) == Size(xs) + Size(ys)
  {
    if ys == [] {
      assert xs + ys == xs;
    } else {
      assert (xs + ys)[..|xs + ys| - 1] == xs + ys[..|ys| - 1];
      SizeAppend(xs, ys[..|ys| - 1]);
    }
  }

  /** The publications whose missed count (or batch) has reached the stream: all, less the one under way. */
  function Counted(s: State, sub: nat): seq<Publication> {
    if s.lock.Held? && sub in s.lock.todo && s.log != [] then s.log[..|s.log| - 1] else s.log
  }

  function Offered(s: State, sub: nat): seq<Publication> {
    if s.lock.Held? && (sub in s.lock.todo || s.lock.current == Some(sub)) && s.log != [] then s.log[..|s.log| - 1]
    else s.log
  }

  /**
   What one stream has got: its received and queued batches are exactly the offered ones that were
   kept, in order, and its drop counts add up to the missed requests plus the batches that were not.
   */
  ghost predicate Ledger(x: Subscriber, offered: seq<seq<Change>>, missed: nat) {
    && |x.kept| == |offered|
    && x.received + x.queue == Kept(offered, x.kept)
    && x.reported + x.dropped == missed + LostSize(offered, x.kept)
  }

  ghost predicate SubLedger(s: State, sub: nat)
    requires sub in s.subs
  {
    Ledger(s.subs[sub], Batches(s.subs[sub].filter, sub, Offered(s, sub)), MissedFor(sub, Counted(s, sub)))
  }

  ghost predicate LogOk(s: State) {
    && (forall e :: e in s.log ==> e.to <= s.seen)
    && (s.lock.Held? ==>
          s.log != [] && s.log[|s.log| - 1] == Publication(s.lock.changes, s.lock.missed, s.baselined, s.subs.Keys))
  }

  ghost predicate LedgerInv(s: State) {
    Inv(s) && LogOk(s) && forall sub :: sub in s.subs ==> SubLedger(s, sub)
  }

  lemma {:induction false} StrangerHasNothing(f: ReceiptFilter, sub: nat, log: seq<Publication>)
    requires forall e :: e in log ==> sub !in e.to
    ensures Batches(f, sub, log) == [] && MissedFor(sub, log) == 0
  {
    if log != [] { StrangerHasNothing(f, sub, log[..|log| - 1]); }
  }

  lemma LedgerSubscribe(s: State, sub: nat, filter: ReceiptFilter, p: nat)
    requires LedgerInv(s)
    ensures LedgerInv(DoSubscribe(s, sub, filter, p))
  {
    var t := DoSubscribe(s, sub, filter, p);
    InvSubscribe(s, sub, filter, p);
    forall x | x in t.subs ensures SubLedger(t, x) {
      if x in s.subs { assert SubLedger(s, x); }
      else { StrangerHasNothing(filter, sub, s.log); }
    }
  }

  lemma LedgerUnsubscribe(s: State, sub: nat)
    requires LedgerInv(s)
    ensures LedgerInv(DoUnsubscribe(s, sub))
  {
    var t := DoUnsubscribe(s, sub);
    InvUnsubscribe(s, sub);
    forall x | x in t.subs ensures SubLedger(t, x) { assert SubLedger(s, x); }
  }

  lemma LedgerAcquire(s: State, p: nat)
    requires LedgerInv(s) && p in s.pollers
    ensures LedgerInv(DoAcquire(s, p))
  {
    hide Kept, LostSize, Matching, Batches, MissedFor, Ledger;
    var t := DoAcquire(s, p);
    InvPoller(s, p, Waiting);
    if t.log != s.log {
      assert t.log[..|t.log| - 1] == s.log;
      assert forall e :: e in t.log ==> e in s.log || e == t.log[|t.log| - 1];
      assert forall x :: x in s.subs ==> x in s.seen;
    }
    forall x | x in t.subs ensures SubLedger(t, x) { assert SubLedger(s, x); }
  }

  lemma AddMissedSelf(s: State, sub: nat)
    requires Inv(s) && LogOk(s) && sub in s.subs && SubLedger(s, sub)
    requires s.lock.Held? && s.lock.current.None? && sub in s.lock.todo
    ensures SubLedger(DoAddMissed(s, sub), sub)
  {
    hide Kept, LostSize, Matching, Inv, ExpectedCloses;
    assert s.log[|s.log| - 1].live == s.baselined && sub in s.log[|s.log| - 1].to;
  }

  lemma LedgerAddMissed(s: State, sub: nat)
    requires LedgerInv(s)
    ensures LedgerInv(DoAddMissed(s, sub))
  {
    hide Kept, LostSize, Matching, Batches, MissedFor, Ledger;
    var t := DoAddMissed(s, sub);
    InvServe(s, sub);
    forall x | x in t.subs ensures SubLedger(t, x) {
      assert SubLedger(s, x);
      if t != s && x == sub { AddMissedSelf(s, sub); }
    }
  }

  lemma LedgerServed(x: Subscriber, live: bool, changes: seq<Change>, offered: seq<seq<Change>>, missed: nat)
    requires Ledger(x, offered, missed)
    ensures Ledger(Served(x, live, changes),
                   if live && Matching(x.filter, changes) != [] then offered + [Matching(x.filter, changes)]
                   else offered, missed)
  {
    var batch := Matching(x.filter, changes);
    var t := Served(x, live, changes);
    if live && batch != [] {
      assert (offered + [batch])[..|offered|] == offered;
      assert t.kept[..|offered|] == x.kept;
    }
  }

  lemma DeliverSelf(s: State, sub: nat)
    requires LogOk(s) && sub in s.subs && SubLedger(s, sub)
    requires s.lock.Held? && s.lock.current == Some(sub) && sub !in s.lock.todo
    ensures SubLedger(DoDeliver(s), sub)
  {
    hide Kept, LostSize, Matching, Ledger, Served;
    var e := s.log[|s.log| - 1];
    assert e.live == s.baselined && sub in e.to && e.changes == s.lock.changes;
    LedgerServed(s.subs[sub], s.baselined, s.lock.changes, Batches(s.subs[sub].filter, sub, Offered(s, sub)),
                 MissedFor(sub, Counted(s, sub)));
    ServedKeepsFilter(s.subs[sub], s.baselined, s.lock.changes);
    assert Offered(s, sub) == s.log[..|s.log| - 1] && Offered(DoDeliver(s), sub) == s.log;
  }

  lemma ServedKeepsFilter(x: Subscriber, baselined: bool, changes: seq<Change>)
    ensures Served(x, baselined, changes).filter == x.filter
  {
  }

  lemma LedgerDeliver(s: State)
    requires LedgerInv(s)
    ensures LedgerInv(DoDeliver(s))
  {
    hide Kept, LostSize, Matching, Batches, MissedFor, Ledger, Served;
    var t := DoDeliver(s);
    assert s.lock.Held? && s.lock.current.Some? ==> s.lock.current.value !in s.lock.todo;
    InvServe(s, 0);
    forall x | x in t.subs ensures SubLedger(t, x) {
      assert SubLedger(s, x);
      if t != s && Some(x) == s.lock.current { DeliverSelf(s, x); }
    }
  }

  lemma LedgerRelease(s: State)
    requires LedgerInv(s)
    ensures LedgerInv(DoRelease(s))
  {
    var t := DoRelease(s);
    if s.lock.Held? { InvPoller(s, s.lock.poller, Waiting); }
    forall x | x in t.subs ensures SubLedger(t, x) { assert SubLedger(s, x); }
  }

  lemma HandlerSelf(x: Subscriber, offered: seq<seq<Change>>, missed: nat)
    requires Ledger(x, offered, missed)
    ensures x.queue != [] ==> Ledger(x.(queue := x.queue[1..], received := x.received + [x.queue[0]]), offered, missed)
    ensures Ledger(x.(dropped := 0, reported := x.reported + x.dropped), offered, missed)
  {
    if x.queue != [] { assert x.received + x.queue == (x.received + [x.queue[0]]) + x.queue[1..]; }
  }

  /** A handler's step touches its own subscriber and nothing else. */
  lemma LedgerPut(s: State, sub: nat, x: Subscriber)
    requires LedgerInv(s) && sub in s.subs && x.filter == s.subs[sub].filter && Inv(s.(subs := s.subs[sub := x]))
    requires Ledger(x, Batches(x.filter, sub, Offered(s, sub)), MissedFor(sub, Counted(s, sub)))
    ensures LedgerInv(s.(subs := s.subs[sub := x]))
  {
    hide Kept, LostSize, Matching, Batches, MissedFor, Ledger, Inv;
    var t := s.(subs := s.subs[sub := x]);
    assert t.subs.Keys == s.subs.Keys;
    forall y | y in t.subs ensures SubLedger(t, y) {
      if y != sub { assert SubLedger(s, y); }
    }
  }

  lemma LedgerHandler(s: State, sub: nat)
    requires LedgerInv(s) && sub in s.subs
    ensures LedgerInv(DoReceive(s, sub)) && LedgerInv(DoTakeDropped(s, sub))
  {
    hide Kept, LostSize, Matching, Batches, MissedFor, Ledger, Inv, LogOk;
    InvHandler(s, sub);
    var t, u, x := DoReceive(s, sub), DoTakeDropped(s, sub), s.subs[sub];
    assert SubLedger(s, sub);
    HandlerSelf(x, Batches(x.filter, sub, Offered(s, sub)), MissedFor(sub, Counted(s, sub)));
    if t != s { LedgerPut(s, sub, t.subs[sub]); }
    if u != s { LedgerPut(s, sub, u.subs[sub]); }
  }

  lemma LedgerQuiet(s: State, t: State)
    requires LedgerInv(s) && Inv(t) && t == s.(pollers := t.pollers)
    ensures LedgerInv(t)
  {
    forall x | x in t.subs ensures SubLedger(t, x) { assert SubLedger(s, x); }
  }

  lemma LedgerStep(s: State, act: Action)
    requires LedgerInv(s)
    ensures LedgerInv(Apply(s, act))
  {
    hide Ledger, Batches, MissedFor, Kept, LostSize, Offered, Counted, Served;
    InvStep(s, act);
    match act
    case Subscribe(sub, filter, p) => LedgerSubscribe(s, sub, filter, p);
    case Unsubscribe(sub) => LedgerUnsubscribe(s, sub);
    case ReadOk(p, changes, missed) => if p in s.pollers { LedgerQuiet(s, Apply(s, act)); }
    case ReadErr(p) => if p in s.pollers { LedgerQuiet(s, Apply(s, act)); }
    case Acquire(p) => if p in s.pollers { LedgerAcquire(s, p); }
    case AddMissed(sub) => LedgerAddMissed(s, sub);
    case Deliver => LedgerDeliver(s);
    case Release => LedgerRelease(s);
    case Tick(p) => LedgerQuiet(s, Apply(s, act));
    case Exit(p) => LedgerQuiet(s, Apply(s, act));
    case Receive(sub) => if sub in s.subs { LedgerHandler(s, sub); }
    case TakeDropped(sub) => if sub in s.subs { LedgerHandler(s, sub); }
  }

  lemma {:induction false} LedgerRun(acts: seq<Action>)
    ensures LedgerInv(Run(acts))
  {
    if acts != [] {
      LedgerRun(acts[..|acts| - 1]);
      LedgerStep(Run(acts[..|acts| - 1]), acts[|acts| - 1]);
    } else {
      hide Inv;
    }
  }

  /**
   Conservation for each stream over every interleaving. offered are the matching batches of every
   publication since the hub was baselined and the stream joined. What was received and what is queued
   are offered batches, in order, none altered and none twice; and every offered change and missed
   request is received, queued, in the pending drop count or in a reported one.
   */
  lemma EveryChangeIsAccountedFor(acts: seq<Action>, sub: nat)
    requires sub in Run(acts).subs && Run(acts).lock.Free?
    ensures var s := Run(acts);
            var x := s.subs[sub];
            var offered := Batches(x.filter, sub, s.log);
            && |x.kept| == |offered| && x.received + x.queue == Kept(offered, x.kept)
            && Size(offered) + MissedFor(sub, s.log) == Size(x.received) + Size(x.queue) + x.dropped + x.reported
  {
    var s := Run(acts);
    var x := s.subs[sub];
    LedgerRun(acts);
    assert SubLedger(s, sub);
    SizeSplits(Batches(x.filter, sub, s.log), x.kept);
    SizeAppend(x.received, x.queue);
  }

  // ---- Which read results reach which stream ----

  lemma RunSplits(acts: seq<Action>, more: seq<Action>)
    requires more != []
    ensures Run(acts + more) == Apply(Run(acts + more[..|more| - 1]), more[|more| - 1])
  {
    hide Apply;
    assert (acts + more)[..|acts + more| - 1] == acts + more[..|more| - 1];
  }

  /**
   From one state to the next: streams are new or were there, pollers stay, and only the last stream's leaving
   cancels one.
   */
  lemma StepKeepsTrack(s: State, act: Action)
    requires PollersOk(s)
    ensures var t := Apply(s, act);
            && s.seen <= t.seen && s.pollers.Keys <= t.pollers.Keys
            && (forall sub :: sub in t.subs ==> sub in s.subs || sub !in s.seen)
            && (forall p :: p in s.pollers && s.pollers[p].cancelled ==> t.pollers[p].cancelled)
            && (forall p :: Active(s, p) && !Active(t, p) ==> t.subs == map[])
  {
    hide Served;
  }

  /** A poller is stopped only when every stream it read for has gone, and none of them comes back. */
  lemma {:induction false} StoppedWithoutStreams(acts: seq<Action>, more: seq<Action>, p: nat)
    requires Active(Run(acts), p)
    ensures var s, t := Run(acts), Run(acts + more);
            p in t.pollers && s.subs.Keys <= t.seen && (Active(t, p) || s.subs.Keys !! t.subs.Keys)
  {
    InvRun(acts);
    if more == [] {
      assert acts + more == acts;
    } else {
      StoppedWithoutStreams(acts, more[..|more| - 1], p);
      RunSplits(acts, more);
      InvRun(acts + more[..|more| - 1]);
      StepKeepsTrack(Run(acts + more[..|more| - 1]), more[|more| - 1]);
      hide Apply, Run, Inv;
    }
  }

  /** The read of a stopped poller reaches no stream: those it read for have gone, and its results touch nobody else. */
  lemma StoppedReadReachesNobody(acts: seq<Action>, more: seq<Action>, p: nat, changes: seq<Change>, missed: nat)
    requires Active(Run(acts), p) && !Active(Run(acts + more), p)
    ensures Run(acts).subs.Keys !! Run(acts + more).subs.Keys
    ensures forall act :: act in [ReadOk(p, changes, missed), ReadErr(p), Acquire(p)] ==>
              (var s, t := Run(acts + more), Apply(Run(acts + more), act);
               t.subs == s.subs && t.log == s.log && t.lock == s.lock)
  {
    StoppedWithoutStreams(acts, more, p);
    hide Run;
  }

  /**
   A stream that was there at some moment of a poller's life (when the read began, say) and still is when the read's
   results are taken gets the missed count exactly if it is ready; before that its handler has told its
   client nothing yet, and the read becomes the baseline.
   */
  lemma CountReachesReadyStreamsExactly(acts: seq<Action>, more: seq<Action>, p: nat, sub: nat)
    requires Active(Run(acts), p) && sub in Run(acts).subs && sub in Run(acts + more).subs
             && Run(acts + more).lock.Free?
    ensures p in Run(acts + more).pollers
    ensures var s, t := Run(acts + more), Apply(Run(acts + more), Acquire(p));
            s.pollers[p].phase.HasRead? ==>
              && t.log == s.log + [Publication(s.pollers[p].phase.changes, s.pollers[p].phase.missed,
                                               s.baselined, s.subs.Keys)]
              && MissedFor(sub, t.log) ==
                 MissedFor(sub, s.log) + if s.subs[sub].closes > 0 then s.pollers[p].phase.missed else 0
  {
    StoppedWithoutStreams(acts, more, p);
    InvRun(acts + more);
    hide Run;
    var s, t := Run(acts + more), Apply(Run(acts + more), Acquire(p));
    if s.pollers[p].phase.HasRead? { assert t.log[..|t.log| - 1] == s.log; }
  }
}
