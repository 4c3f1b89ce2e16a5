/**
 What one turn of the publishing loop does to a stream, and when a stream loses a batch: a batch goes into the
 channel while fewer than sixteen are queued, and is dropped otherwise.
 */
module StreamOffers {
  import opened Common
  import opened Receipts
  import opened StreamHub

  /** A change a filter asks for: every dimension is open or names the change's own value. */
  predicate WantsChange(f: ReceiptFilter, c: Change) {
    Wants(f, c.fields.key, c.fields.team, c.fields.project, c.fields.model, c.fields.verdict)
  }

  /** A stream's batch is the changes its filter asks for, in order. */
  lemma BatchIsWanted(f: ReceiptFilter, changes: seq<Change>, c: Change)
    ensures Matching(f, []) == []
    ensures Matching(f, changes + [c]) == Matching(f, changes) + (if WantsChange(f, c) then [c] else [])
  {
    assert (changes + [c])[..|changes|] == changes;
  }

  lemma {:induction false} BatchMembers(f: ReceiptFilter, changes: seq<Change>)
    ensures forall c :: c in Matching(f, changes) <==> c in changes && WantsChange(f, c)
  {
    if changes == [] {
      BatchIsWanted(f, [], Change("", "", Fields("", "", "", "", "")));
    } else {
      var n := |changes| - 1;
      BatchMembers(f, changes[..n]);
      BatchIsWanted(f, changes[..n], changes[n]);
      assert changes == changes[..n] + [changes[n]];
      hide Matching, WantsChange;
    }
  }

  /** The step that ends a stream's turn, and nobody else's. */
  predicate TurnOf(s: State, act: Action, sub: nat) {
    act.Deliver? && s.lock.Held? && s.lock.current == Some(sub) && sub in s.subs
  }

  /** What the turn finds to send. */
  function Due(s: State, sub: nat): seq<Change>
    requires s.lock.Held? && sub in s.subs
  {
    if s.baselined then Matching(s.subs[sub].filter, s.lock.changes) else []
  }

  /**
   Exactly what a turn makes of a stream x, with due to send. Before the baseline it only makes the stream ready;
   after it the due changes are queued as one batch if fewer than sixteen are queued, and otherwise dropped and
   counted; nothing to send changes nothing.
   */
  predicate TurnTaken(x: Subscriber, y: Subscriber, live: bool, due: seq<Change>) {
    && y.filter == x.filter && y.received == x.received && y.reported == x.reported
    && y.closes == (if !live && x.closes == 0 then 1 else x.closes)
    && y.queue == (if due != [] && |x.queue| < 16 then x.queue + [due] else x.queue)
    && y.dropped == x.dropped + (if due != [] && |x.queue| >= 16 then |due| else 0)
    && y.kept == x.kept + (if due == [] then [] else [|x.queue| < 16])
  }

  /** The step that ends a stream's turn is exactly its turn, and touches no other stream. */
  lemma TurnIsExact(s: State, act: Action, sub: nat)
    requires TurnOf(s, act, sub)
    ensures var t := Apply(s, act);
            && t.subs.Keys == s.subs.Keys && (forall y :: y in s.subs && y != sub ==> t.subs[y] == s.subs[y])
            && TurnTaken(s.subs[sub], t.subs[sub], s.baselined, Due(s, sub))
  {
  }

  /** What a handler's own steps leave of its stream: batches move from queued to received, drops to reported. */
  predicate OnlyHandled(x: Subscriber, y: Subscriber) {
    && y.filter == x.filter && y.closes == x.closes && y.kept == x.kept
    && y.received + y.queue == x.received + x.queue && |y.queue| <= |x.queue|
    && y.reported + y.dropped == x.reported + x.dropped
  }

  /**
   What publishing leaves of a stream whose handler works all the while: a due batch is added to those queued and
   received, or else it is dropped and counted, and then sixteen were queued when publishing began.
   */
  predicate Published(x: Subscriber, y: Subscriber, live: bool, due: seq<Change>, missed: nat) {
    && y.filter == x.filter && y.closes == (if !live && x.closes == 0 then 1 else x.closes)
    && (var dropped := y.reported + y.dropped - x.reported - x.dropped - if live then missed else 0;
        if due == [] then
          y.received + y.queue == x.received + x.queue && dropped == 0 && y.kept == x.kept
        else
          || (y.received + y.queue == x.received + x.queue + [due] && dropped == 0 && y.kept == x.kept + [true])
          || (y.received + y.queue == x.received + x.queue && dropped == |due| && y.kept == x.kept + [false]
              && |x.queue| >= 16))
  }

  // ---- The other steps of the hub ----

  /** A poller reads, leaves if it was cancelled meanwhile, publishes when the mutex is free, and waits for its tick. */
  lemma PollerGoesOn(s: State, p: nat, changes: seq<Change>, missed: nat)
    requires p in s.pollers
    ensures var phase, gone := s.pollers[p].phase, s.pollers[p].cancelled;
            && Apply(s, ReadOk(p, changes, missed)) ==
                 (if phase != Reading then s else With(s, p, if gone then Exited else HasRead(changes, missed)))
            && Apply(s, ReadErr(p)) == (if phase != Reading then s else With(s, p, if gone then Exited else Waiting))
            && Apply(s, Tick(p)) == (if phase != Waiting then s else With(s, p, Reading))
            && Apply(s, Exit(p)) == (if phase != Waiting || !gone then s else With(s, p, Exited))
            && (phase == HasRead(changes, missed) ==>
                  Apply(s, Acquire(p)) ==
                    if s.lock != Free then s
                    else if gone then With(s, p, Exited)
                    else With(s, p, Publishing).(
                           lock := Held(p, changes, missed, s.subs.Keys, None),
                           log := s.log + [Publication(changes, missed, s.baselined, s.subs.Keys)]))
  {
  }

  function With(s: State, p: nat, phase: Phase): State
    requires p in s.pollers
  {
    s.(pollers := s.pollers[p := Poller(s.pollers[p].cancelled, phase)])
  }

  /** A turn begins with the missed count, if the hub is baselined; the loop ends when nobody is left to serve. */
  lemma LoopGoesOn(s: State, sub: nat)
    requires s.lock.Held? && s.lock.current == None
    ensures sub in s.lock.todo && sub in s.subs ==>
              var x := s.subs[sub];
              Apply(s, AddMissed(sub)) ==
                s.(subs := s.subs[sub := x.(dropped := x.dropped + if s.baselined then s.lock.missed else 0)],
                   lock := s.lock.(todo := s.lock.todo - {sub}, current := Some(sub)))
    ensures s.lock.todo == {} && s.lock.poller in s.pollers ==>
              Apply(s, Release) == With(s, s.lock.poller, Waiting).(baselined := true, lock := Free)
    ensures s.lock.todo != {} ==> Apply(s, Release) == s
  {
  }

  /** A handler takes nothing before its stream is ready; then the oldest batch, or the drop count. */
  lemma HandlerGoesOn(s: State, sub: nat)
    requires sub in s.subs
    ensures var x := s.subs[sub];
            && Apply(s, Receive(sub)) ==
                 (if x.closes == 0 || x.queue == [] then s
                  else s.(subs := s.subs[sub := x.(queue := x.queue[1..], received := x.received + [x.queue[0]])]))
            && Apply(s, TakeDropped(sub)) ==
                 (if x.closes == 0 then s
                  else s.(subs := s.subs[sub := x.(dropped := 0, reported := x.reported + x.dropped)]))
  {
  }

  /** A turn that loses its batch: one is due, and sixteen are queued. */
  predicate Loses(s: State, act: Action, sub: nat) {
    TurnOf(s, act, sub) && Due(s, sub) != [] && |s.subs[sub].queue| >= 16
  }

  /** No other step says of a batch whether it got into the channel. */
  lemma KeptStep(s: State, act: Action, sub: nat)
    requires sub in s.subs && sub in Apply(s, act).subs && sub in s.seen
    ensures Apply(s, act).subs[sub].filter == s.subs[sub].filter
    ensures Apply(s, act).subs[sub].kept ==
              s.subs[sub].kept + if TurnOf(s, act, sub) && Due(s, sub) != [] then [!Loses(s, act, sub)] else []
  {
    if TurnOf(s, act, sub) {
      TurnIsExact(s, act, sub);
      hide Apply, Due;
    } else {
      hide Matching;
    }
  }

  lemma JoinsWithNothingKept(s: State, act: Action, sub: nat)
    requires sub !in s.subs && sub in Apply(s, act).subs
    ensures Apply(s, act).subs[sub].kept == [] && sub !in s.seen
  {
    hide Served;
  }

  ghost predicate LosesAt(acts: seq<Action>, n: nat, sub: nat) {
    n < |acts| && Loses(Run(acts[..n]), acts[n], sub)
  }

  lemma {:induction false} SeenGrows(acts: seq<Action>, n: nat)
    requires n <= |acts|
    ensures Run(acts[..n]).seen <= Run(acts).seen && Run(acts[..n]).subs.Keys <= Run(acts).seen
  {
    InvRun(acts[..n]);
    if n < |acts| {
      SeenGrows(acts[..|acts| - 1], n);
      assert acts[..|acts| - 1][..n] == acts[..n];
      InvRun(acts[..|acts| - 1]);
      StepKeepsTrack(Run(acts[..|acts| - 1]), acts[|acts| - 1]);
      hide Apply;
    } else {
      assert acts[..n] == acts;
    }
  }

  lemma LoserWasSubscribed(acts: seq<Action>, n: nat, sub: nat)
    requires LosesAt(acts, n, sub)
    ensures n < |acts| && sub in Run(acts[..n]).subs
  {
    hide Run, Due;
  }

  lemma LoserWasSeen(acts: seq<Action>, n: nat, sub: nat)
    requires LosesAt(acts, n, sub)
    ensures acts != [] && sub in Run(acts[..|acts| - 1]).seen
  {
    hide LosesAt, Apply, Run;
    LoserWasSubscribed(acts, n, sub);
    assert acts[..|acts| - 1][..n] == acts[..n];
    SeenGrows(acts[..|acts| - 1], n);
  }

  /** A stream that joins with the last step had no turn before it. */
  lemma JoinerLostNothing(acts: seq<Action>, sub: nat)
    requires acts != [] && sub !in Run(acts[..|acts| - 1]).subs && sub in Run(acts).subs
    ensures Run(acts).subs[sub].kept == [] && !exists n: nat :: LosesAt(acts, n, sub)
  {
    hide LosesAt, Apply;
    JoinsWithNothingKept(Run(acts[..|acts| - 1]), acts[|acts| - 1], sub);
    forall n: nat ensures !LosesAt(acts, n, sub) {
      if LosesAt(acts, n, sub) { LoserWasSeen(acts, n, sub); }
    }
  }

  /** Over every run, a stream has lost a batch if and only if one was due to it while sixteen were queued. */
  lemma {:induction false} BatchLostExactlyWhenFull(acts: seq<Action>, sub: nat)
    requires sub in Run(acts).subs
    ensures false in Run(acts).subs[sub].kept <==> exists n: nat :: LosesAt(acts, n, sub)
  {
    hide Apply, Due, LosesAt;
    if acts != [] {
      var m := |acts| - 1;
      if sub in Run(acts[..m]).subs {
        InvRun(acts[..m]);
        BatchLostExactlyWhenFull(acts[..m], sub);
        KeptStep(Run(acts[..m]), acts[m], sub);
        LossesGrow(acts, sub);
      } else {
        JoinerLostNothing(acts, sub);
      }
    }
  }

  lemma LossesGrow(acts: seq<Action>, sub: nat)
    requires acts != []
    ensures var m := |acts| - 1;
            (exists n: nat :: LosesAt(acts, n, sub)) <==>
              (exists n: nat :: LosesAt(acts[..m], n, sub)) || Loses(Run(acts[..m]), acts[m], sub)
  {
    hide Loses, Run;
    var m := |acts| - 1;
    forall n: nat | n < m ensures LosesAt(acts, n, sub) <==> LosesAt(acts[..m], n, sub) {
      assert acts[..m][..n] == acts[..n];
    }
    if Loses(Run(acts[..m]), acts[m], sub) { assert LosesAt(acts, m, sub); }
  }

  /** A stream whose handler never lets sixteen batches pile up before its turns loses no change. */
  lemma PromptHandlerLosesNothing(acts: seq<Action>, sub: nat)
    requires sub in Run(acts).subs && Run(acts).lock.Free?
    requires forall n :: 0 <= n < |acts| && TurnOf(Run(acts[..n]), acts[n], sub) ==>
                           |Run(acts[..n]).subs[sub].queue| < 16
    ensures var s := Run(acts);
            var x, offered := s.subs[sub], Batches(s.subs[sub].filter, sub, s.log);
            && |x.kept| == |offered| && LostSize(offered, x.kept) == 0 && x.received + x.queue == offered
  {
    BatchLostExactlyWhenFull(acts, sub);
    EveryChangeIsAccountedFor(acts, sub);
    var s := Run(acts);
    hide Run, Batches, Matching, Due;
    assert forall n: nat :: !LosesAt(acts, n, sub);
    NoneLost(Batches(s.subs[sub].filter, sub, s.log), s.subs[sub].kept);
  }

  lemma {:induction false} NoneLost(batches: seq<seq<Change>>, kept: seq<bool>)
    requires |kept| == |batches| && false !in kept
    ensures Kept(batches, kept) == batches && LostSize(batches, kept) == 0
  {
    if batches != [] {
      var n := |batches| - 1;
      assert kept[n] in kept;
      NoneLost(batches[..n], kept[..n]);
      assert batches == batches[..n] + [batches[n]];
    }
  }
}
