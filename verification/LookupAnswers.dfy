/**
 What a lookup is told, step by step: when it is answered at once, what each answer means, and that lookups waiting
 for one another share one read of the key store.
 */
module LookupAnswers {
  import opened Common
  import opened OwnerLookup

  // ---- Each step of a lookup ----

  /** The owner cached for an ID, or that there is none. */
  predicate Says(owners: map<string, Owner>, id: string, reply: Reply) {
    if id in owners then reply == FoundOwner(owners[id]) else reply == NotKnown
  }

  /**
   The five ways a step answers lookup l: its ID was cached when it arrived; it took the lock after a read that
   started later than it arrived; its caller gave up while it had to wait; its own read failed; or that read ended.
   */
  ghost predicate Answers(s: LState, act: LAction, l: nat, reply: Reply) {
    match act
    case Arrive(k, id) => k == l && l !in s.lookups && id in s.owners && reply == FoundOwner(s.owners[id])
    case Lock(k) =>
      && k == l && l in s.lookups && s.lookups[l].Queued? && s.holder.None?
      && s.lastRefresh.Some? && s.lastRefresh.value > s.lookups[l].arrived && Says(s.owners, s.lookups[l].id, reply)
    case Cancel(k) => k == l && l in s.lookups && s.lookups[l].Pausing? && s.lookups[l].waits && reply == Cancelled
    case FailRead(k) => k == l && l in s.lookups && s.lookups[l].Reading? && reply == ReadFailed
    case EndRead(k) =>
      k == l && l in s.lookups && s.lookups[l].Listed?
      && Says(s.owners + s.lookups[l].keys, s.lookups[l].id, reply)
    case _ => false
  }

  predicate Told(s: LState, l: nat, reply: Reply) {
    l in s.lookups && s.lookups[l].Replied? && s.lookups[l].reply == reply
  }

  predicate Unanswered(s: LState, l: nat) { l in s.lookups ==> !s.lookups[l].Replied? }

  lemma OwnAnswer(s: LState, act: LAction, l: nat, reply: Reply)
    requires Own(act, l) && Unanswered(s, l)
    ensures Told(Apply(s, act), l, reply) <==> Answers(s, act, l, reply)
  {
  }

  /** A step answers a lookup exactly in one of those ways, with exactly that answer. */
  lemma AnswerIsExact(s: LState, act: LAction, l: nat, reply: Reply)
    requires Unanswered(s, l)
    ensures Told(Apply(s, act), l, reply) <==> Answers(s, act, l, reply)
  {
    if Own(act, l) {
      OwnAnswer(s, act, l, reply);
    } else {
      OthersLeaveLookup(s, act, l);
      hide Apply;
    }
  }

  /** The steps that do not answer it: missing the cache, queueing, taking the lock, starting a read, listing. */
  lemma LookupGoesOn(s: LState, l: nat, id: string, arrived: int, present: Option<Owner>)
    ensures l !in s.lookups && id !in s.owners ==> Apply(s, Arrive(l, id)) == s.(lookups := s.lookups[l := Missed(id)])
    ensures l in s.lookups && s.lookups[l] == Missed(id) ==>
              Apply(s, Clock(l)) == s.(lookups := s.lookups[l :=
                Queued(id, s.now, if id in s.store then Some(s.store[id]) else None)])
    ensures var x := Queued(id, arrived, present);
            l in s.lookups && s.lookups[l] == x ==>
              && (s.holder.Some? ==> Apply(s, Lock(l)) == s)
              && (s.holder.None? && (s.lastRefresh.Some? ==> s.lastRefresh.value <= arrived) ==>
                    Apply(s, Lock(l)) == s.(holder := Some(l), lookups := s.lookups[l := Pausing(id, arrived, present,
                      s.lastRefresh.Some? && s.now < s.lastRefresh.value + s.minInterval)]))
    ensures forall waits ::
              l in s.lookups && s.lookups[l] == Pausing(id, arrived, present, waits) ==>
                Apply(s, StartRead(l)) ==
                  if s.lastRefresh.Some? && s.now < s.lastRefresh.value + s.minInterval then s
                  else s.(lastRefresh := Some(s.now), starts := s.starts + [s.now],
                          lookups := s.lookups[l := Reading(id, arrived, present)])
    ensures l in s.lookups && s.lookups[l] == Reading(id, arrived, present) ==>
              Apply(s, List(l)) == s.(lookups := s.lookups[l := Listed(id, arrived, present, s.store)])
  {
  }

  /** What an answer leaves: its own lookup answered, the lock free if the lookup held it, and the keys read cached. */
  lemma AnswerReleasesLock(s: LState, act: LAction, l: nat, reply: Reply)
    requires Unanswered(s, l) && Answers(s, act, l, reply)
    ensures var t := Apply(s, act);
            && l in t.lookups
            && t == s.(lookups := s.lookups[l := t.lookups[l]],
                       holder := if act.Cancel? || act.FailRead? || act.EndRead? then None else s.holder,
                       owners := if act.EndRead? then s.owners + s.lookups[l].keys else s.owners)
  {
  }

  // ---- Over runs ----

  ghost predicate AnsweredIn(s: LState, acts: seq<LAction>, n: nat, l: nat, reply: Reply) {
    n < |acts| && Unanswered(At(s, acts, n), l) && Answers(At(s, acts, n), acts[n], l, reply)
  }

  /** Every answer of a run was given in one of its steps, in one of those ways. */
  lemma {:induction false} AnswerIsExplained(s: LState, acts: seq<LAction>, l: nat, reply: Reply)
    requires Init(s) && Told(Run(s, acts), l, reply)
    ensures exists n: nat :: AnsweredIn(s, acts, n, l, reply)
  {
    if acts != [] {
      var m := |acts| - 1;
      assert At(s, acts, m) == Run(s, acts[..m]);
      if Unanswered(Run(s, acts[..m]), l) {
        AnswerIsExact(Run(s, acts[..m]), acts[m], l, reply);
        hide Apply, Answers, Told;
        assert AnsweredIn(s, acts, m, l, reply);
      } else {
        RepliedStays(Run(s, acts[..m]), acts[m], l);
        AnswerIsExplained(s, acts[..m], l, reply);
        hide Apply, Answers;
        var n: nat :| AnsweredIn(s, acts[..m], n, l, reply);
        assert acts[..m][..n] == acts[..n];
        assert AnsweredIn(s, acts, n, l, reply);
      }
    }
  }

  lemma {:induction false} CachedStays(s: LState, acts: seq<LAction>, n: nat, id: string)
    requires Init(s) && n <= |acts| && id in At(s, acts, n).owners
    ensures id in Run(s, acts).owners && Run(s, acts).owners[id] == At(s, acts, n).owners[id]
  {
    InvRun(s, acts[..n]);
    InvRun(s, acts);
    KnownGrows(s, acts, n);
    CacheGrows(s, acts, n, id);
    hide Run, Apply;
  }

  lemma {:induction false} CacheGrows(s: LState, acts: seq<LAction>, n: nat, id: string)
    requires n <= |acts| && id in At(s, acts, n).owners
    ensures id in Run(s, acts).owners
  {
    if n == |acts| {
      assert acts[..n] == acts;
    } else {
      assert acts[..|acts| - 1][..n] == acts[..n];
      CacheGrows(s, acts[..|acts| - 1], n, id);
      OwnersStep(Run(s, acts[..|acts| - 1]), acts[|acts| - 1], id);
      hide Apply;
    }
  }

  /**
   Once an ID is cached, every lookup for it that arrives from then on is answered by its arrival, with the owner
   cached then, and without a read, a wait or the lock.
   */
  lemma CachedIsAnsweredAtOnce(s: LState, acts: seq<LAction>, n: nat, l: nat, id: string)
    requires Init(s) && n <= |acts| && id in At(s, acts, n).owners && l !in Run(s, acts).lookups
    ensures var x, y := Run(s, acts), Apply(Run(s, acts), Arrive(l, id));
            Told(y, l, FoundOwner(At(s, acts, n).owners[id])) && y == x.(lookups := x.lookups[l := y.lookups[l]])
  {
    CachedStays(s, acts, n, id);
    AnswerIsExact(Run(s, acts), Arrive(l, id), l, FoundOwner(At(s, acts, n).owners[id]));
    hide Run;
  }

  /** A lookup that queued before the latest read started. */
  predicate IsServed(s: LState, l: nat) {
    l in s.lookups && s.lookups[l].Queued? && s.lastRefresh.Some? && s.lastRefresh.value > s.lookups[l].arrived
  }

  lemma ServedStep(s: LState, act: LAction, l: nat)
    requires Inv(s) && IsServed(s, l)
    ensures var t := Apply(s, act); l in t.lookups && (t.lookups[l].Replied? || IsServed(t, l))
  {
    RefreshIsPast(s);
    if !Own(act, l) { OthersLeaveLookup(s, act, l); }
    hide Inv;
  }

  /** Such a lookup never reads the key store itself: it stays queued until it is answered from the cache. */
  lemma {:induction false} LookupsShareReads(s: LState, acts: seq<LAction>, n: nat, l: nat)
    requires Init(s) && n <= |acts| && IsServed(At(s, acts, n), l)
    ensures l in Run(s, acts).lookups && (Run(s, acts).lookups[l].Replied? || IsServed(Run(s, acts), l))
  {
    if n == |acts| {
      assert acts[..n] == acts;
    } else {
      var m := |acts| - 1;
      assert acts[..m][..n] == acts[..n];
      LookupsShareReads(s, acts[..m], n, l);
      InvRun(s, acts[..m]);
      if Run(s, acts[..m]).lookups[l].Replied? {
        RepliedStays(Run(s, acts[..m]), acts[m], l);
      } else {
        ServedStep(Run(s, acts[..m]), acts[m], l);
      }
      hide Apply, Inv, IsServed;
    }
  }
}
