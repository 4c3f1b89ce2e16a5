/**
 The hub's methods over its fields, each proved to take exactly StreamHub's steps: subscribe and
 unsubscribe in one hold of the mutex, and the publishing loop stream by stream, with the streams'
 handlers taking batches and drop counts between its turns.
 */
module HubCode {
  import opened Common
  import opened Receipts
  import opened StreamHub
  import opened StreamOffers

  lemma RunNext(acts: seq<Action>, act: Action)
    ensures Run(acts + [act]) == Apply(Run(acts), act)
  {
    assert (acts + [act])[..|acts|] == acts;
  }

  lemma HandlesAreKnown(acts: seq<Action>)
    ensures var s := Run(acts);
            (s.stop.Some? ==> s.stop.value in s.pollers) && (s.baselined ==> s.stop.Some?)
            && (s.lock.Held? ==> s.lock.todo <= s.subs.Keys)
  {
    InvRun(acts);
  }

  /** Handlers' own steps before and after a stream's turn do not show in what publishing leaves of it. */
  lemma HandledAround(x: Subscriber, y: Subscriber, z: Subscriber, w: Subscriber, live: bool, due: seq<Change>,
                      missed: nat)
    requires OnlyHandled(y, z)
    ensures OnlyHandled(x, y) ==> x.filter == z.filter && (OnlyHandled(z, w) ==> OnlyHandled(x, w))
    ensures OnlyHandled(x, y) && Published(z, w, live, due, missed) ==> Published(x, w, live, due, missed)
    ensures Published(x, y, live, due, missed) && OnlyHandled(z, w) ==> Published(x, w, live, due, missed)
  {
  }

  /** The missed count, handlers' steps, and the turn's end: what the turn as a whole leaves. */
  lemma TurnIsPublished(x: Subscriber, y: Subscriber, z: Subscriber, live: bool, changes: seq<Change>, missed: nat)
    requires OnlyHandled(x.(dropped := x.dropped + if live then missed else 0), y)
    requires TurnTaken(y, z, live, if live then Matching(y.filter, changes) else [])
    ensures Published(x, z, live, if live then Matching(x.filter, changes) else [], missed)
  {
    hide Matching;
  }

  lemma NothingToHandle(s: State, act: Action)
    requires (act.Receive? || act.TakeDropped?) && (act.sub in s.subs ==> s.subs[act.sub].closes == 0)
    ensures Apply(s, act) == s
  {
  }

  class Hub {
    var subs: map<nat, Subscriber>
    var stop: Option<nat>
    var baselined: bool
    var pollers: map<nat, Poller>
    var lock: Lock
    var seen: set<nat>
    ghost var log: seq<Publication>
    ghost var trace: seq<Action>

    ghost function View(): State
      reads this
    {
      State(subs, stop, baselined, pollers, lock, seen, log)
    }

    ghost predicate Valid() reads this { View() == Run(trace) }

    /** What the publishing loop has for a stream. */
    ghost function DueTo(x: Subscriber): seq<Change>
      requires lock.Held?
      reads this
    {
      if baselined then Matching(x.filter, lock.changes) else []
    }

    constructor ()
      ensures Valid() && trace == []
    {
      subs, stop, baselined, pollers, lock, seen := map[], None, false, map[], Free, {};
      log, trace := [], [];
    }

    method Subscribe(sub: nat, filter: ReceiptFilter, p: nat)
      requires Valid() && lock.Free? && sub !in seen && p !in pollers
      modifies this
      ensures Valid() && trace == old(trace) + [StreamHub.Subscribe(sub, filter, p)]
      ensures subs == old(subs)[sub := Subscriber(filter, [], if old(baselined) then 1 else 0, 0, [], 0, [])]
      ensures stop == if old(stop).Some? then old(stop) else Some(p)
    {
      hide Run;
      RunNext(trace, StreamHub.Subscribe(sub, filter, p));
      trace := trace + [StreamHub.Subscribe(sub, filter, p)];
      var x := Subscriber(filter, [], 0, 0, [], 0, []);
      seen := seen + {sub};
      if baselined { x := x.(closes := x.closes + 1); }
      subs := subs[sub := x];
      if stop.None? {
        stop := Some(p);
        pollers := pollers[p := Poller(false, Reading)];
      }
    }

    method Unsubscribe(sub: nat)
      requires Valid() && lock.Free?
      modifies this
      ensures Valid() && trace == old(trace) + [StreamHub.Unsubscribe(sub)]
      ensures subs == old(subs) - {sub}
      ensures stop == if subs == map[] then None else old(stop)
      ensures baselined == (old(baselined) && subs != map[])
    {
      HandlesAreKnown(trace);
      hide Run;
      RunNext(trace, StreamHub.Unsubscribe(sub));
      trace := trace + [StreamHub.Unsubscribe(sub)];
      subs := subs - {sub};
      if subs == map[] && stop.Some? {
        pollers := pollers[stop.value := pollers[stop.value].(cancelled := true)];
        stop := None;
        baselined := false;
      }
    }

    /** A stream's handler receives one batch, if there is one. */
    method Receive(sub: nat) returns (batch: seq<Change>)
      requires Valid() && sub in subs && subs[sub].closes > 0
      modifies this
      ensures Valid() && trace == old(trace) + [StreamHub.Receive(sub)]
      ensures subs.Keys == old(subs).Keys && lock == old(lock) && pollers == old(pollers) && baselined == old(baselined)
              && log == old(log)
      ensures old(subs)[sub].queue != [] ==>
                batch == old(subs)[sub].queue[0] && subs[sub].queue == old(subs)[sub].queue[1..]
      ensures subs == old(subs)[sub := subs[sub]] && OnlyHandled(old(subs)[sub], subs[sub])
    {
      hide Run;
      RunNext(trace, StreamHub.Receive(sub));
      trace := trace + [StreamHub.Receive(sub)];
      batch := [];
      var x := subs[sub];
      if x.queue != [] {
        batch := x.queue[0];
        subs := subs[sub := x.(queue := x.queue[1..], received := x.received + [batch])];
      }
    }

    /** takeDropped: the drop count, reset to zero. */
    method TakeDropped(sub: nat) returns (n: nat)
      requires Valid() && sub in subs && subs[sub].closes > 0
      modifies this
      ensures Valid() && trace == old(trace) + [StreamHub.TakeDropped(sub)]
      ensures subs.Keys == old(subs).Keys && lock == old(lock) && pollers == old(pollers) && baselined == old(baselined)
              && log == old(log)
      ensures n == old(subs)[sub].dropped && subs[sub].dropped == 0 && subs[sub].reported == old(subs)[sub].reported + n
      ensures subs == old(subs)[sub := subs[sub]] && OnlyHandled(old(subs)[sub], subs[sub])
    {
      hide Run;
      RunNext(trace, StreamHub.TakeDropped(sub));
      trace := trace + [StreamHub.TakeDropped(sub)];
      var x := subs[sub];
      n := x.dropped;
      subs := subs[sub := x.(dropped := 0, reported := x.reported + n)];
    }

    /** A step of one handler, which waits for ready first. */
    method Act(act: Action)
      requires Valid() && (act.Receive? || act.TakeDropped?)
      modifies this
      ensures Valid() && trace == old(trace) + [act]
      ensures subs.Keys == old(subs).Keys && lock == old(lock) && pollers == old(pollers) && baselined == old(baselined)
              && log == old(log)
      ensures forall y :: y in subs ==> OnlyHandled(old(subs)[y], subs[y])
    {
      hide Run, Apply;
      if act.sub in subs && subs[act.sub].closes > 0 {
        if act.Receive? {
          var _ := Receive(act.sub);
        } else {
          var _ := TakeDropped(act.sub);
        }
      } else {
        NothingToHandle(View(), act);
        RunNext(trace, act);
        trace := trace + [act];
      }
    }

    /** Handlers' steps, which need no mutex: any streams', in any order. */
    method Handle(acts: seq<Action>)
      requires Valid() && forall act :: act in acts ==> act.Receive? || act.TakeDropped?
      modifies this
      ensures Valid() && trace == old(trace) + acts && old(trace) <= trace
      ensures subs.Keys == old(subs).Keys && lock == old(lock) && pollers == old(pollers) && baselined == old(baselined)
              && log == old(log)
      ensures forall y :: y in subs ==> OnlyHandled(old(subs)[y], subs[y])
    {
      hide Run, Apply;
      for i := 0 to |acts|
        invariant Valid() && trace == old(trace) + acts[..i]
        invariant subs.Keys == old(subs).Keys && lock == old(lock) && pollers == old(pollers)
                  && baselined == old(baselined) && log == old(log)
        invariant forall y :: y in subs ==> OnlyHandled(old(subs)[y], subs[y])
      {
        assert acts[i] in acts && acts[..i + 1] == acts[..i] + [acts[i]];
        Act(acts[i]);
      }
      assert acts[..|acts|] == acts;
    }

    /** A stream's turn begins with the missed count. */
    method CountMissed(sub: nat)
      requires Valid() && lock.Held? && lock.current.None? && sub in lock.todo
      modifies this
      ensures Valid() && trace == old(trace) + [AddMissed(sub)]
      ensures subs.Keys == old(subs).Keys && pollers == old(pollers) && baselined == old(baselined) && log == old(log)
      ensures sub in subs && lock == old(lock).(todo := old(lock).todo - {sub}, current := Some(sub))
      ensures var x, n := old(subs)[sub], if baselined then lock.missed else 0;
              subs == old(subs)[sub := x.(dropped := x.dropped + n)]
    {
      HandlesAreKnown(trace);
      hide Run;
      RunNext(trace, AddMissed(sub));
      trace := trace + [AddMissed(sub)];
      if lock.missed > 0 && baselined {
        var x := subs[sub];
        subs := subs[sub := x.(dropped := x.dropped + lock.missed)];
      }
      lock := lock.(todo := lock.todo - {sub}, current := Some(sub));
    }

    /** It ends with the ready channel, or the batch if it gets into the channel. */
    method Offer(sub: nat)
      requires Valid() && lock.Held? && lock.current == Some(sub) && sub in subs
      modifies this
      ensures Valid() && trace == old(trace) + [Deliver]
      ensures subs.Keys == old(subs).Keys && pollers == old(pollers) && baselined == old(baselined) && log == old(log)
      ensures lock == old(lock).(current := None) && subs == old(subs)[sub := subs[sub]]
      ensures TurnTaken(old(subs)[sub], subs[sub], baselined, DueTo(old(subs)[sub]))
    {
      hide Run;
      RunNext(trace, Deliver);
      trace := trace + [Deliver];
      lock := lock.(current := None);
      var x := subs[sub];
      if !baselined {
        if x.closes == 0 { x := x.(closes := x.closes + 1); }
      } else {
        var batch := Matching(x.filter, lock.changes);
        if batch != [] {
          if |x.queue| < STREAM_BUFFER {
            x := x.(queue := x.queue + [batch], kept := x.kept + [true]);
          } else {
            x := x.(dropped := x.dropped + |batch|, kept := x.kept + [false]);
          }
        }
      }
      subs := subs[sub := x];
    }

    /** One stream's turn in the publishing loop, with handlers' steps in the middle. */
    method Serve(sub: nat, between: seq<Action>)
      requires Valid() && lock.Held? && lock.current.None? && sub in lock.todo
      requires forall act :: act in between ==> act.Receive? || act.TakeDropped?
      modifies this
      ensures Valid() && trace == old(trace) + [AddMissed(sub)] + between + [Deliver] && old(trace) <= trace
      ensures subs.Keys == old(subs).Keys && pollers == old(pollers) && baselined == old(baselined) && log == old(log)
      ensures lock == old(lock).(todo := old(lock).todo - {sub})
      ensures forall y :: y in subs && y != sub ==> OnlyHandled(old(subs)[y], subs[y])
      ensures sub in old(subs) && Published(old(subs)[sub], subs[sub], baselined, DueTo(old(subs)[sub]), lock.missed)
    {
      hide Run, Apply, Matching;
      hide OnlyHandled, TurnTaken, Published;
      HandlesAreKnown(trace);
      ghost var x := subs[sub];
      CountMissed(sub);
      ghost var counted := subs;
      Handle(between);
      ghost var handled := subs;
      Offer(sub);
      TurnIsPublished(x, handled[sub], subs[sub], baselined, lock.changes, lock.missed);
      assert forall y :: y in subs && y != sub ==> OnlyHandled(counted[y], handled[y]) && subs[y] == handled[y];
    }

    /** Taking the mutex after a good read: false when the poller was stopped meanwhile, and leaves. */
    method Begin(p: nat) returns (ok: bool)
      requires Valid() && lock.Free? && p in pollers && pollers[p].phase.HasRead?
      modifies this
      ensures Valid() && trace == old(trace) + [Acquire(p)] && subs == old(subs) && baselined == old(baselined)
      ensures ok == !old(pollers)[p].cancelled && p in pollers
      ensures !ok ==> lock.Free? && pollers[p].phase.Exited? && log == old(log)
      ensures ok ==> lock == Held(p, old(pollers)[p].phase.changes, old(pollers)[p].phase.missed, subs.Keys, None)
      ensures ok ==> pollers == old(pollers)[p := Poller(false, Publishing)]
      ensures ok ==> log == old(log) + [Publication(lock.changes, lock.missed, baselined, subs.Keys)]
    {
      hide Run;
      RunNext(trace, Acquire(p));
      trace := trace + [Acquire(p)];
      ok := !pollers[p].cancelled;
      if !ok {
        pollers := pollers[p := pollers[p].(phase := Exited)];
        return;
      }
      var read := pollers[p].phase;
      pollers := pollers[p := pollers[p].(phase := Publishing)];
      lock := Held(p, read.changes, read.missed, subs.Keys, None);
      log := log + [Publication(read.changes, read.missed, baselined, subs.Keys)];
    }

    /** The publishing loop, streams in any order; handlers take batches and drop counts all the while. */
    method ServeAll(handlers: seq<seq<Action>>)
      requires Valid() && lock.Held? && lock.current.None? && lock.todo == subs.Keys
      requires forall i, act :: 0 <= i < |handlers| && act in handlers[i] ==> act.Receive? || act.TakeDropped?
      modifies this
      ensures Valid() && old(trace) <= trace && lock == old(lock).(todo := {})
      ensures subs.Keys == old(subs).Keys && pollers == old(pollers) && baselined == old(baselined) && log == old(log)
      ensures forall y :: y in subs ==>
                Published(old(subs)[y], subs[y], baselined, DueTo(old(subs)[y]), lock.missed)
    {
      hide Run, Apply, Published, Matching;
      var n := 0;
      while lock.todo != {}
        invariant Valid() && old(trace) <= trace && 0 <= n
        invariant lock.Held? && lock == old(lock).(todo := lock.todo) && lock.todo <= subs.Keys == old(subs).Keys
        invariant pollers == old(pollers) && baselined == old(baselined) && log == old(log)
        invariant forall y :: y in subs ==>
                    if y in lock.todo then OnlyHandled(old(subs)[y], subs[y])
                    else Published(old(subs)[y], subs[y], baselined, DueTo(old(subs)[y]), lock.missed)
        decreases lock.todo
      {
        ghost var before := subs;
        Handle(if 2 * n < |handlers| then handlers[2 * n] else []);
        ghost var handled := subs;
        var sub :| sub in lock.todo;
        Serve(sub, if 2 * n + 1 < |handlers| then handlers[2 * n + 1] else []);
        forall y | y in subs
          ensures if y in lock.todo then OnlyHandled(old(subs)[y], subs[y])
                  else Published(old(subs)[y], subs[y], baselined, DueTo(old(subs)[y]), lock.missed)
        {
          HandledAround(old(subs)[y], before[y], handled[y], subs[y], baselined, DueTo(old(subs)[y]), lock.missed);
        }
        n := n + 1;
      }
    }

    /** The end of the loop: the hub is baselined and the mutex free again. */
    method Finish()
      requires Valid() && lock.Held? && lock.current.None? && lock.todo == {} && lock.poller in pollers
      modifies this
      ensures Valid() && trace == old(trace) + [Release] && lock.Free? && baselined
      ensures subs == old(subs) && log == old(log)
      ensures pollers == old(pollers)[old(lock).poller := old(pollers)[old(lock).poller].(phase := Waiting)]
    {
      hide Run;
      RunNext(trace, Release);
      trace := trace + [Release];
      pollers := pollers[lock.poller := pollers[lock.poller].(phase := Waiting)];
      baselined := true;
      lock := Free;
    }

    /**
     What run does with a good read: leave if stopped meanwhile, else offer the changes to every stream
     and mark the hub baselined.
     */
    method Publish(p: nat, handlers: seq<seq<Action>>)
      requires Valid() && lock.Free? && p in pollers && pollers[p].phase.HasRead?
      requires forall i, act :: 0 <= i < |handlers| && act in handlers[i] ==> act.Receive? || act.TakeDropped?
      modifies this
      ensures Valid() && old(trace) <= trace && lock.Free? && p in pollers
      ensures old(pollers)[p].cancelled ==>
                pollers[p].phase.Exited? && subs == old(subs) && baselined == old(baselined) && log == old(log)
      ensures !old(pollers)[p].cancelled ==>
                && baselined && pollers[p].phase.Waiting? && subs.Keys == old(subs).Keys
                && log == old(log) + [Publication(old(pollers)[p].phase.changes, old(pollers)[p].phase.missed,
                                                  old(baselined), old(subs).Keys)]
      ensures !old(pollers)[p].cancelled ==>
                var read, live := old(pollers)[p].phase, old(baselined);
                forall y :: y in subs ==>
                  var x := old(subs)[y];
                  Published(x, subs[y], live, if live then Matching(x.filter, read.changes) else [], read.missed)
    {
      hide Run, Apply, Published, Matching;
      var ok := Begin(p);
      if ok {
        ServeAll(handlers);
        Finish();
      }
    }
  }
}
