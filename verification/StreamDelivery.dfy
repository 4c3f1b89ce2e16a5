/**
 From the poller's reads to what a stream's handler gets: the changes published are those of the active poller's
 own reads, each compared with the one before, and a stream that loses no batch can rebuild the latest read.
 */
module StreamDelivery {
  import opened Common
  import opened Receipts
  import opened StreamHub
  import opened StreamChanges

  // ---- What the poller compares with ----

  /** The step is a good read of the poller that is not stopped. */
  predicate Takes(s: State, act: Action) {
    act.ReadOk? && Active(s, act.poller) && s.pollers[act.poller].phase.Reading?
  }

  /** The changes of a read, after the reads before it. */
  function Emitted(before: seq<seq<Change>>, latest: seq<Change>): seq<Change> {
    Changed(if before == [] then map[] else Remembered(before[|before| - 1]), latest)
  }

  function NextReads(s: State, act: Action, read: seq<Change>, polls: seq<seq<Change>>): seq<seq<Change>> {
    if Apply(s, act).stop != s.stop then [] else if Takes(s, act) then polls + [read] else polls
  }

  /** The reads of the poller running after the steps, if one is: rs holds what each step read. */
  function Reads(acts: seq<Action>, rs: seq<seq<Change>>): seq<seq<Change>>
    requires |rs| == |acts|
  {
    if acts == [] then []
    else
      var n := |acts| - 1;
      NextReads(Run(acts[..n]), acts[n], rs[n], Reads(acts[..n], rs[..n]))
  }

  /** Every good read hands the hub what comparing it with the poller's memory gives. */
  ghost predicate Compared(acts: seq<Action>, rs: seq<seq<Change>>) {
    && |rs| == |acts|
    && forall n :: 0 <= n < |acts| && Takes(Run(acts[..n]), acts[n]) ==>
         acts[n].changes == Emitted(Reads(acts[..n], rs[..n]), rs[n])
  }

  // ---- Publications are the reads' changes ----

  predicate HasRead(s: State) {
    s.stop.Some? && s.stop.value in s.pollers && s.pollers[s.stop.value].phase.HasRead?
  }

  predicate IsPublishing(s: State) {
    s.stop.Some? && s.stop.value in s.pollers && s.pollers[s.stop.value].phase.Publishing?
  }

  /** The reads already published: all but one whose results still wait for the mutex. */
  function Published(s: State, polls: seq<seq<Change>>): seq<seq<Change>> {
    if HasRead(s) && polls != [] then polls[..|polls| - 1] else polls
  }

  /** The publication of the k-th of the reads is the log's entry as far from its end; the first read is not live. */
  ghost predicate LoggedAt(log: seq<Publication>, done: seq<seq<Change>>, k: nat) {
    && k < |done| <= |log|
    && var e := log[|log| - |done| + k];
       e.changes == Emitted(done[..k], done[k]) && (e.live <==> k > 0)
  }

  ghost predicate Logged(log: seq<Publication>, done: seq<seq<Change>>) {
    |done| <= |log| && forall k: nat :: k < |done| ==> LoggedAt(log, done, k)
  }

  predicate OfferedTo(e: Publication, sub: nat) { e.live && sub in e.to }

  /** The publications offered to a stream are the log's last v. */
  ghost predicate LastOnes(log: seq<Publication>, sub: nat, v: nat) {
    v <= |log| && forall i :: 0 <= i < |log| ==> (OfferedTo(log[i], sub) <==> i >= |log| - v)
  }

  ghost predicate Joined(log: seq<Publication>, sub: nat, done: nat) {
    exists v: nat :: v <= done && LastOnes(log, sub, v)
  }

  ghost predicate DeliveryInv(s: State, polls: seq<seq<Change>>) {
    var done := Published(s, polls);
    && (s.stop.None? ==> polls == [])
    && (HasRead(s) ==>
          polls != [] && s.pollers[s.stop.value].phase.changes == Emitted(polls[..|polls| - 1], polls[|polls| - 1]))
    && (s.lock.Held? ==> IsPublishing(s))
    && Logged(s.log, done)
    && (s.baselined <==> |done| > if s.lock.Held? then 1 else 0)
    && (s.lock.Held? ==> |done| > 0)
    && forall sub :: sub in s.subs ==> Joined(s.log, sub, |done|)
  }

  lemma StrangerJoins(log: seq<Publication>, sub: nat, done: nat)
    requires forall e :: e in log ==> sub !in e.to
    ensures Joined(log, sub, done)
  {
    assert LastOnes(log, sub, 0);
  }

  lemma LogGrows(log: seq<Publication>, done: seq<seq<Change>>, latest: seq<Change>, e: Publication)
    requires Logged(log, done) && e.changes == Emitted(done, latest) && (e.live <==> done != [])
    ensures Logged(log + [e], done + [latest])
  {
    var log2, done2 := log + [e], done + [latest];
    forall k: nat | k < |done2| ensures LoggedAt(log2, done2, k) {
      assert done2[..k] == done[..k];
      if k == |done| {
        assert done[..k] == done;
      } else {
        assert LoggedAt(log, done, k);
      }
    }
    hide Emitted;
  }

  lemma JoinedGrows(log: seq<Publication>, sub: nat, done: nat, e: Publication)
    requires Joined(log, sub, done) && sub in e.to && (e.live <==> done > 0)
    ensures Joined(log + [e], sub, done + 1)
  {
    var v: nat :| v <= done && LastOnes(log, sub, v);
    assert LastOnes(log + [e], sub, if e.live then v + 1 else 0);
  }

  /** Taking the mutex with a read's results: one more publication. */
  lemma AcquireDelivers(s: State, p: nat, polls: seq<seq<Change>>)
    requires Inv(s) && DeliveryInv(s, polls) && p in s.pollers
    ensures DeliveryInv(DoAcquire(s, p), polls)
  {
    var t := DoAcquire(s, p);
    if t.log != s.log {
      assert s.stop == Some(p);
      var done := Published(s, polls);
      var e := t.log[|t.log| - 1];
      assert t.log == s.log + [e] && polls == done + [polls[|polls| - 1]];
      LogGrows(s.log, done, polls[|polls| - 1], e);
      forall sub | sub in t.subs ensures Joined(t.log, sub, |done| + 1) { JoinedGrows(s.log, sub, |done|, e); }
      assert Published(t, polls) == polls;
    } else {
      QuietDelivers(s, t, polls);
    }
  }

  /** Steps that change none of the log, the baseline, the mutex' being held and the running poller's results. */
  lemma QuietDelivers(s: State, t: State, polls: seq<seq<Change>>)
    requires DeliveryInv(s, polls) && t.log == s.log && t.baselined == s.baselined && t.stop == s.stop
    requires t.lock.Held? == s.lock.Held? && t.subs.Keys <= s.subs.Keys && HasRead(t) == HasRead(s)
    requires HasRead(t) ==> t.pollers[t.stop.value].phase == s.pollers[s.stop.value].phase
    requires IsPublishing(s) ==> IsPublishing(t)
    ensures DeliveryInv(t, polls)
  {
    hide Emitted, Logged, Joined;
  }

  lemma TakenRead(s: State, act: Action)
    requires Inv(s) && Takes(s, act)
    ensures var t := Apply(s, act);
            && t == s.(pollers := t.pollers) && HasRead(t) && !HasRead(s) && !IsPublishing(s)
            && t.pollers[t.stop.value].phase.changes == act.changes
  {
  }

  lemma ReadDelivers(s: State, act: Action, read: seq<Change>, polls: seq<seq<Change>>)
    requires Inv(s) && DeliveryInv(s, polls) && Takes(s, act) && act.changes == Emitted(polls, read)
    ensures DeliveryInv(Apply(s, act), polls + [read])
  {
    var t := Apply(s, act);
    TakenRead(s, act);
    hide Apply, Takes, HasRead, IsPublishing, Inv, Emitted, Logged, Joined;
    assert (polls + [read])[..|polls|] == polls;
    assert Published(t, polls + [read]) == polls && Published(s, polls) == polls;
  }

  lemma SubscribeDelivers(s: State, sub: nat, filter: ReceiptFilter, p: nat, polls: seq<seq<Change>>)
    requires Inv(s) && LogOk(s) && DeliveryInv(s, polls)
    ensures var t := DoSubscribe(s, sub, filter, p); DeliveryInv(t, if t.stop != s.stop then [] else polls)
  {
    var t := DoSubscribe(s, sub, filter, p);
    var now := if t.stop != s.stop then [] else polls;
    if t != s {
      assert Published(t, now) == Published(s, polls) && HasRead(t) == HasRead(s);
      forall x | x in t.subs ensures Joined(t.log, x, |Published(t, now)|) {
        if x !in s.subs { StrangerJoins(s.log, x, |Published(t, now)|); }
      }
    }
    hide Emitted, Logged, Joined, Inv, LogOk;
  }

  lemma UnsubscribeDelivers(s: State, sub: nat, polls: seq<seq<Change>>)
    requires Inv(s) && DeliveryInv(s, polls)
    ensures var t := DoUnsubscribe(s, sub); DeliveryInv(t, if t.stop != s.stop then [] else polls)
  {
    var t := DoUnsubscribe(s, sub);
    if t.stop == s.stop { QuietDelivers(s, t, polls); }
  }

  lemma ReleaseDelivers(s: State, polls: seq<seq<Change>>)
    requires Inv(s) && DeliveryInv(s, polls)
    ensures DeliveryInv(DoRelease(s), polls)
  {
    var t := DoRelease(s);
    if t != s {
      assert !HasRead(s) && !HasRead(t);
      assert Published(t, polls) == Published(s, polls) == polls;
    }
    hide Emitted, Logged, Joined;
  }

  /** The steps of streams: the publishing loop's turns and the handlers'. */
  predicate OfStreams(act: Action) { act.AddMissed? || act.Deliver? || act.Receive? || act.TakeDropped? }

  lemma StreamsDeliver(s: State, act: Action, polls: seq<seq<Change>>)
    requires Inv(s) && DeliveryInv(s, polls) && OfStreams(act)
    ensures Apply(s, act).stop == s.stop && DeliveryInv(Apply(s, act), polls)
  {
    var t := Apply(s, act);
    assert t == s.(subs := t.subs, lock := t.lock) && t.subs.Keys == s.subs.Keys && t.lock.Held? == s.lock.Held? by {
      hide Served, Inv;
    }
    hide Apply, Inv, DeliveryInv, OfStreams;
    QuietDelivers(s, t, polls);
  }

  /** The steps of pollers: a read lost or failed, the ticker, and leaving. */
  lemma PollersDeliver(s: State, act: Action, polls: seq<seq<Change>>)
    requires Inv(s) && DeliveryInv(s, polls) && !Takes(s, act)
    requires act.ReadOk? || act.ReadErr? || act.Tick? || act.Exit?
    ensures Apply(s, act).stop == s.stop && DeliveryInv(Apply(s, act), polls)
  {
    var t := Apply(s, act);
    assert t == s.(pollers := t.pollers);
    assert HasRead(t) == HasRead(s) && (HasRead(t) ==> t.pollers[t.stop.value].phase == s.pollers[s.stop.value].phase);
    assert IsPublishing(s) ==> IsPublishing(t);
    hide Apply, Inv, DeliveryInv, Takes, HasRead, IsPublishing;
    QuietDelivers(s, t, polls);
  }

  lemma DeliveryStep(s: State, act: Action, read: seq<Change>, polls: seq<seq<Change>>)
    requires Inv(s) && LogOk(s) && DeliveryInv(s, polls) && (Takes(s, act) ==> act.changes == Emitted(polls, read))
    ensures DeliveryInv(Apply(s, act), NextReads(s, act, read, polls))
  {
    if Takes(s, act) {
      assert Apply(s, act).stop == s.stop;
      ReadDelivers(s, act, read, polls);
    } else if act.Subscribe? {
      SubscribeDelivers(s, act.sub, act.filter, act.poller, polls);
    } else if act.Unsubscribe? {
      UnsubscribeDelivers(s, act.sub, polls);
    } else if act.Acquire? {
      if act.poller in s.pollers { AcquireDelivers(s, act.poller, polls); }
    } else if act.Release? {
      ReleaseDelivers(s, polls);
    } else if OfStreams(act) {
      StreamsDeliver(s, act, polls);
    } else {
      PollersDeliver(s, act, polls);
    }
    hide DeliveryInv, Inv, LogOk, Emitted, DoSubscribe, DoUnsubscribe, DoRead, DoAddMissed, DoDeliver;
  }

  lemma {:induction false} DeliveryRun(acts: seq<Action>, rs: seq<seq<Change>>)
    requires Compared(acts, rs)
    ensures DeliveryInv(Run(acts), Reads(acts, rs))
  {
    if acts != [] {
      var n := |acts| - 1;
      assert Compared(acts[..n], rs[..n]) by {
        forall k | 0 <= k < n && Takes(Run(acts[..n][..k]), acts[..n][k])
          ensures acts[..n][k].changes == Emitted(Reads(acts[..n][..k], rs[..n][..k]), rs[..n][k])
        {
          assert acts[..n][..k] == acts[..k] && rs[..n][..k] == rs[..k];
        }
      }
      DeliveryRun(acts[..n], rs[..n]);
      LedgerRun(acts[..n]);
      DeliveryStep(Run(acts[..n]), acts[n], rs[n], Reads(acts[..n], rs[..n]));
    }
    hide DeliveryInv, Apply, Inv, LogOk, NextReads, Emitted;
  }

  // ---- What the client holds ----

  function Flat(batches: seq<seq<Change>>): seq<Change> {
    if batches == [] then [] else Flat(batches[..|batches| - 1]) + batches[|batches| - 1]
  }

  lemma {:induction false} AppliedInTurn(client: map<string, Change>, xs: seq<Change>, ys: seq<Change>)
    ensures Applied(client, xs + ys) == Applied(Applied(client, xs), ys)
  {
    if ys == [] {
      assert xs + ys == xs;
    } else {
      assert (xs + ys)[..|xs + ys| - 1] == xs + ys[..|ys| - 1];
      AppliedInTurn(client, xs, ys[..|ys| - 1]);
    }
  }

  lemma {:induction false} AllKept(batches: seq<seq<Change>>, kept: seq<bool>)
    requires |kept| == |batches| && forall k :: k in kept ==> k
    ensures Kept(batches, kept) == batches
  {
    if batches != [] {
      var n := |batches| - 1;
      assert kept[n] in kept && forall k :: k in kept[..n] ==> k in kept;
      AllKept(batches[..n], kept[..n]);
      assert batches == batches[..n] + [batches[n]];
    }
  }

  lemma {:induction false} NothingOffered(f: ReceiptFilter, sub: nat, log: seq<Publication>)
    requires forall e :: e in log ==> !OfferedTo(e, sub)
    ensures Batches(f, sub, log) == []
  {
    if log != [] {
      assert log[|log| - 1] in log;
      NothingOffered(f, sub, log[..|log| - 1]);
    }
  }

  lemma LoggedBefore(log: seq<Publication>, done: seq<seq<Change>>)
    requires Logged(log, done) && done != []
    ensures Logged(log[..|log| - 1], done[..|done| - 1])
  {
    var log2, done2 := log[..|log| - 1], done[..|done| - 1];
    forall k: nat | k < |done2| ensures LoggedAt(log2, done2, k) {
      assert LoggedAt(log, done, k);
      assert done2[..k] == done[..k];
    }
    hide Emitted;
  }

  /** Applying a stream's batches to its baseline is being the client of the reads from the baseline on. */
  lemma {:induction false} BatchesMakeClient(f: ReceiptFilter, sub: nat, log: seq<Publication>,
                                             done: seq<seq<Change>>, v: nat)
    requires Logged(log, done) && LastOnes(log, sub, v) && v < |done|
    ensures var c := |done| - 1 - v;
            Applied(Applied(map[], Matching(f, done[c])), Flat(Batches(f, sub, log))) == Client(f, done[c..])
    decreases v
  {
    var c, n, last := |done| - 1 - v, |log| - 1, |done| - 1;
    hide Matching, Applied, Changed, Remembered, LoggedAt, Batches, Flat;
    if v == 0 {
      NothingOffered(f, sub, log);
      assert done[c..] == [done[c]];
      assert Flat([]) == [] && Applied(Applied(map[], Matching(f, done[c])), []) == Applied(map[], Matching(f, done[c]))
        by { NothingApplied(Applied(map[], Matching(f, done[c]))); }
    } else {
      LoggedBefore(log, done);
      assert LastOnes(log[..n], sub, v - 1);
      BatchesMakeClient(f, sub, log[..n], done[..last], v - 1);
      LatestEntry(log, done);
      hide Logged, LastOnes;
      ClientNext(f, done, c);
      AppliedInTurn(Applied(map[], Matching(f, done[c])), Flat(Batches(f, sub, log[..n])), Matching(f, log[n].changes));
      OneMoreBatch(f, sub, log);
    }
  }

  lemma NothingApplied(client: map<string, Change>)
    ensures Flat([]) == [] && Applied(client, []) == client
  {
  }

  lemma LatestEntry(log: seq<Publication>, done: seq<seq<Change>>)
    requires Logged(log, done) && |done| > 1
    ensures log != [] && log[|log| - 1].live
    ensures log[|log| - 1].changes == Changed(Remembered(done[|done| - 2]), done[|done| - 1])
  {
    assert LoggedAt(log, done, |done| - 1);
    hide Changed, Remembered;
  }

  lemma ClientNext(f: ReceiptFilter, done: seq<seq<Change>>, c: nat)
    requires c < |done| - 1
    ensures var last := |done| - 1;
            Client(f, done[c..]) ==
              Applied(Client(f, done[..last][c..]), Matching(f, Changed(Remembered(done[last - 1]), done[last])))
  {
    hide *;
    var last, polls := |done| - 1, done[c..];
    assert polls[..last - c] == done[..last][c..];
    assert polls[last - c] == done[last] && polls[last - c - 1] == done[last - 1];
    ClientUnfolds(f, polls);
  }

  lemma ClientUnfolds(f: ReceiptFilter, polls: seq<seq<Change>>)
    requires |polls| > 1
    ensures var n := |polls| - 1;
            Client(f, polls) == Applied(Client(f, polls[..n]), Matching(f, Changed(Remembered(polls[n - 1]), polls[n])))
  {
    hide Matching, Applied, Changed, Remembered;
  }

  lemma OneMoreBatch(f: ReceiptFilter, sub: nat, log: seq<Publication>)
    requires log != [] && OfferedTo(log[|log| - 1], sub)
    ensures Flat(Batches(f, sub, log)) == Flat(Batches(f, sub, log[..|log| - 1])) + Matching(f, log[|log| - 1].changes)
  {
    var before, batch := Batches(f, sub, log[..|log| - 1]), Matching(f, log[|log| - 1].changes);
    hide Matching;
    if batch != [] { assert (before + [batch])[..|before|] == before; }
  }

  /**
   From end to end, over every interleaving: a ready stream that has lost no batch holds, once its handler's
   client applies what was received and what is queued to the baseline (the read published last before the
   first one offered to it), exactly every matching receipt of the latest published read.
   */
  lemma StreamHoldsLatestRead(acts: seq<Action>, rs: seq<seq<Change>>, sub: nat, r: Change) returns (c: nat)
    requires |rs| == |acts| && Compared(acts, rs) && Run(acts).lock.Free? && sub in Run(acts).subs
    requires forall k :: k in Run(acts).subs[sub].kept ==> k
    requires var done := Published(Run(acts), Reads(acts, rs));
             Readable(done) && done != [] && r in done[|done| - 1] && Match(Run(acts).subs[sub].filter, r.fields)
    ensures var x, done := Run(acts).subs[sub], Published(Run(acts), Reads(acts, rs));
            && c < |done| && LastOnes(Run(acts).log, sub, |done| - 1 - c)
            && var held := Applied(Applied(map[], Matching(x.filter, done[c])), Flat(x.received + x.queue));
               r.id in held && held[r.id] == r
  {
    hide *;
    var v := DeliveryGives(acts, rs, sub);
    var done := Published(Run(acts), Reads(acts, rs));
    c := |done| - 1 - v;
    BatchesHoldLatest(Run(acts).subs[sub], sub, Run(acts).log, done, v, r);
  }

  lemma BatchesHoldLatest(x: Subscriber, sub: nat, log: seq<Publication>, done: seq<seq<Change>>, v: nat, r: Change)
    requires Logged(log, done) && LastOnes(log, sub, v) && v < |done| && Readable(done)
    requires |x.kept| == |Batches(x.filter, sub, log)|
    requires x.received + x.queue == Kept(Batches(x.filter, sub, log), x.kept)
    requires (forall k :: k in x.kept ==> k) && r in done[|done| - 1] && Match(x.filter, r.fields)
    ensures var held := Applied(Applied(map[], Matching(x.filter, done[|done| - 1 - v])), Flat(x.received + x.queue));
            r.id in held && held[r.id] == r
  {
    hide *;
    var c := |done| - 1 - v;
    AllKept(Batches(x.filter, sub, log), x.kept);
    BatchesMakeClient(x.filter, sub, log, done, v);
    ReadableTail(done, c);
    assert done[c..] != [] && done[c..][|done[c..]| - 1] == done[|done| - 1];
    ClientHoldsLatestRead(x.filter, done[c..], r);
  }

  lemma DeliveryGives(acts: seq<Action>, rs: seq<seq<Change>>, sub: nat) returns (v: nat)
    requires Compared(acts, rs) && Run(acts).lock.Free? && sub in Run(acts).subs
    requires Published(Run(acts), Reads(acts, rs)) != []
    ensures var s, done := Run(acts), Published(Run(acts), Reads(acts, rs));
            v < |done| && LastOnes(s.log, sub, v) && Logged(s.log, done)
    ensures var x, offered := Run(acts).subs[sub], Batches(Run(acts).subs[sub].filter, sub, Run(acts).log);
            |x.kept| == |offered| && x.received + x.queue == Kept(offered, x.kept)
  {
    var s, done := Run(acts), Published(Run(acts), Reads(acts, rs));
    DeliveryRun(acts, rs);
    LedgerRun(acts);
    assert SubLedger(s, sub) && Logged(s.log, done) && Joined(s.log, sub, |done|);
    v :| v <= |done| && LastOnes(s.log, sub, v);
    hide *;
    LedgerGives(s, sub);
    FirstIsNotOffered(s.log, sub, done, v);
  }

  lemma LedgerGives(s: State, sub: nat)
    requires sub in s.subs && SubLedger(s, sub) && s.lock.Free?
    ensures var x, offered := s.subs[sub], Batches(s.subs[sub].filter, sub, s.log);
            |x.kept| == |offered| && x.received + x.queue == Kept(offered, x.kept)
  {
    hide Batches, Kept, MissedFor, LostSize;
  }

  /** The poller's first read is the baseline, so it is offered to nobody. */
  lemma FirstIsNotOffered(log: seq<Publication>, sub: nat, done: seq<seq<Change>>, v: nat)
    requires Logged(log, done) && LastOnes(log, sub, v) && v <= |done| && done != []
    ensures v < |done|
  {
    assert LoggedAt(log, done, 0);
    assert !OfferedTo(log[|log| - |done|], sub);
  }

  lemma ReadableTail(polls: seq<seq<Change>>, c: nat)
    requires Readable(polls) && c < |polls|
    ensures Readable(polls[c..])
  {
  }
}
