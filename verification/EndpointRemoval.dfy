/**
 Taking an endpoint down: the operator deletes its AIGatewayRoute, waits until the HTTPRoute generated from
 it is gone, and only then deletes the SecurityPolicy. Any number of passes, the gateway controller,
 Kubernetes and other writers interleave; every call of a pass may fail.
 */
module EndpointRemoval {
  import opened Common

  datatype Kind = Route | Http | Policy

  /** held: it has finalizers, so a delete only marks it. */
  datatype Object = Object(uid: nat, rv: nat, owner: nat, held: bool, deleting: bool)

  datatype Outcome = Removed | Pending | Refused | Failed

  datatype Phase = ReadRoute | ReadHttp | ReadPolicy | Deleting(kind: Kind, uid: nat, rv: nat) | Done(outcome: Outcome)

  /** next is the next unused uid and resource version; removed (what passes deleted) is history. */
  datatype State = State(me: nat, objects: map<Kind, Object>, next: nat, passes: map<nat, Phase>, removed: seq<Object>)

  datatype Action =
    | Begin(p: nat)
    | Get(p: nat)
    | Delete(p: nat, lost: bool)
    | Fail(p: nat)
    | GenerateHttp(owner: nat, held: bool)
    | LoseHttp
    | Touch(kind: Kind)
    | Adopt(kind: Kind, owner: nat)
    | Finalize(kind: Kind)
    | PutPolicy(owner: nat, held: bool)

  predicate IsOthers(act: Action) { !act.Begin? && !act.Get? && !act.Delete? && !act.Fail? }

  function To(s: State, p: nat, phase: Phase): State { s.(passes := s.passes[p := phase]) }

  /** The first half of removing a controlled object: absent, foreign, on its way out, or to be deleted. */
  function Found(s: State, kind: Kind, absent: Phase): Phase {
    if kind !in s.objects then absent
    else
      var o := s.objects[kind];
      if o.owner != s.me then Done(Refused) else if o.deleting then Done(Pending) else Deleting(kind, o.uid, o.rv)
  }

  function DoGet(s: State, p: nat): State
    requires p in s.passes
  {
    match s.passes[p]
    case ReadRoute => To(s, p, Found(s, Route, ReadHttp))
    case ReadHttp => To(s, p, if Http in s.objects then Done(Pending) else ReadPolicy)
    case ReadPolicy => To(s, p, Found(s, Policy, Done(Removed)))
    case _ => s
  }

  /** An object with finalizers stays, marked and in a new version. */
  function Deleted(objects: map<Kind, Object>, kind: Kind, rv: nat): map<Kind, Object>
    requires kind in objects
  {
    if objects[kind].held then objects[kind := objects[kind].(deleting := true, rv := rv)] else objects - {kind}
  }

  /** Kubernetes deletes the object only in the version named. */
  function DeleteAt(s: State, p: nat, kind: Kind, uid: nat, rv: nat, lost: bool): State {
    if kind !in s.objects then To(s, p, Done(Pending))
    else
      var o := s.objects[kind];
      if o.uid != uid || o.rv != rv then To(s, p, Done(Failed))
      else
        To(s.(objects := Deleted(s.objects, kind, s.next), next := s.next + 1, removed := s.removed + [o]), p,
           Done(if lost then Failed else Pending))
  }

  function DoDelete(s: State, p: nat, lost: bool): State
    requires p in s.passes
  {
    match s.passes[p]
    case Deleting(kind, uid, rv) => DeleteAt(s, p, kind, uid, rv, lost)
    case _ => s
  }

  function Renew(s: State, kind: Kind, o: Object): State {
    s.(objects := s.objects[kind := o.(rv := s.next)], next := s.next + 1)
  }

  function Others(s: State, act: Action): State {
    match act
    case GenerateHttp(owner, held) =>
      if Route in s.objects && Http !in s.objects then Renew(s, Http, Object(s.next, 0, owner, held, false)) else s
    case LoseHttp => s.(objects := s.objects - {Http})
    case Touch(kind) => if kind in s.objects then Renew(s, kind, s.objects[kind]) else s
    case Adopt(kind, owner) => if kind in s.objects then Renew(s, kind, s.objects[kind].(owner := owner)) else s
    case Finalize(kind) =>
      if kind in s.objects && s.objects[kind].deleting then s.(objects := s.objects - {kind}) else s
    case PutPolicy(owner, held) =>
      if Policy !in s.objects then Renew(s, Policy, Object(s.next, 0, owner, held, false)) else s
    case _ => s
  }

  function Apply(s: State, act: Action): State {
    match act
    case Begin(p) => if p in s.passes then s else To(s, p, ReadRoute)
    case Get(p) => if p in s.passes then DoGet(s, p) else s
    case Delete(p, lost) => if p in s.passes then DoDelete(s, p, lost) else s
    case Fail(p) => if p in s.passes && !s.passes[p].Done? then To(s, p, Done(Failed)) else s
    case _ => Others(s, act)
  }

  function Run(s: State, acts: seq<Action>): State {
    if acts == [] then s else Apply(Run(s, acts[..|acts| - 1]), acts[|acts| - 1])
  }

  /** Any objects, with a policy that is not being deleted. */
  ghost predicate Init(s: State) {
    && s.passes == map[] && s.removed == [] && Policy in s.objects && !s.objects[Policy].deleting
    && forall k :: k in s.objects ==> s.objects[k].rv < s.next && s.objects[k].uid < s.next
  }

  // ---- For every run ----

  /** What a pass has learnt stays true: neither the route nor the HTTPRoute comes back. */
  ghost predicate PhaseTrue(s: State, phase: Phase) {
    match phase
    case ReadHttp => Route !in s.objects
    case ReadPolicy => Route !in s.objects && Http !in s.objects
    case Deleting(kind, _, rv) =>
      rv < s.next && StillMine(s, kind, rv) && kind != Http
      && (kind == Policy ==> Route !in s.objects && Http !in s.objects)
    case Done(Removed) => Route !in s.objects && Http !in s.objects
    case _ => true
  }

  /** While it is the version read, it is the operator's and not being deleted. */
  ghost predicate StillMine(s: State, kind: Kind, rv: nat) {
    kind in s.objects && s.objects[kind].rv == rv ==> s.objects[kind].owner == s.me && !s.objects[kind].deleting
  }

  ghost predicate Guarded(s: State) {
    Route in s.objects || Http in s.objects ==> Policy in s.objects && !s.objects[Policy].deleting
  }

  ghost predicate Inv(s: State) {
    && Guarded(s)
    && (forall k :: k in s.objects ==> s.objects[k].rv < s.next)
    && (forall p :: p in s.passes ==> PhaseTrue(s, s.passes[p]))
    && (forall o :: o in s.removed ==> o.owner == s.me)
  }

  /** Objects only lose members, or change in versions nobody has read. */
  lemma InvChange(s: State, t: State)
    requires Inv(s) && Guarded(t) && t.me == s.me && t.next >= s.next && t.passes == s.passes && t.removed == s.removed
    requires forall k :: k in t.objects && k != Policy ==> k in s.objects || (k == Http && Route in s.objects)
    requires forall k :: k in t.objects ==> t.objects[k].rv < t.next
    requires forall k :: k in t.objects ==>
               (k in s.objects && t.objects[k] == s.objects[k]) || t.objects[k].rv >= s.next
    ensures Inv(t)
  {
    forall p | p in t.passes ensures PhaseTrue(t, t.passes[p]) { assert PhaseTrue(s, s.passes[p]); }
  }

  lemma InvMove(s: State, p: nat, phase: Phase)
    requires Inv(s) && PhaseTrue(s, phase)
    ensures Inv(To(s, p, phase))
  {
    var t := To(s, p, phase);
    forall q | q in t.passes ensures PhaseTrue(t, t.passes[q]) {
      if q != p { assert PhaseTrue(s, s.passes[q]); }
      assert PhaseTrue(s, t.passes[q]) ==> PhaseTrue(t, t.passes[q]);
    }
  }

  lemma InvGet(s: State, p: nat)
    requires Inv(s) && p in s.passes
    ensures Inv(DoGet(s, p))
  {
    assert PhaseTrue(s, s.passes[p]);
    match s.passes[p]
    case ReadRoute => InvMove(s, p, DoGet(s, p).passes[p]);
    case ReadHttp => InvMove(s, p, DoGet(s, p).passes[p]);
    case ReadPolicy => InvMove(s, p, DoGet(s, p).passes[p]);
    case _ =>
  }

  lemma InvDelete(s: State, p: nat, lost: bool)
    requires Inv(s) && p in s.passes
    ensures Inv(DoDelete(s, p, lost))
  {
    assert PhaseTrue(s, s.passes[p]);
    var t := DoDelete(s, p, lost);
    if t.removed != s.removed {
      var u := s.(objects := t.objects, next := t.next);
      InvChange(s, u);
      InvMove(u, p, t.passes[p]);
      assert t == To(u, p, t.passes[p]).(removed := t.removed);
      forall q | q in t.passes ensures PhaseTrue(t, t.passes[q]) {
        assert PhaseTrue(To(u, p, t.passes[p]), t.passes[q]);
      }
    } else if t != s {
      InvMove(s, p, t.passes[p]);
    }
  }

  lemma InvStep(s: State, act: Action)
    requires Inv(s)
    ensures Inv(Apply(s, act))
  {
    hide Inv, DoGet, DoDelete, Others;
    match act
    case Begin(p) => if p !in s.passes { InvMove(s, p, ReadRoute); }
    case Get(p) => if p in s.passes { InvGet(s, p); }
    case Delete(p, lost) => if p in s.passes { InvDelete(s, p, lost); }
    case Fail(p) => if p in s.passes && !s.passes[p].Done? { InvMove(s, p, Done(Failed)); }
    case _ => InvOthers(s, act);
  }

  lemma InvOthers(s: State, act: Action)
    requires Inv(s)
    ensures Inv(Others(s, act))
  {
    InvChange(s, Others(s, act));
  }

  lemma {:induction false} InvRun(s: State, acts: seq<Action>)
    requires Init(s)
    ensures Inv(Run(s, acts))
  {
    hide Apply;
    if acts != [] {
      InvRun(s, acts[..|acts| - 1]);
      InvStep(Run(s, acts[..|acts| - 1]), acts[|acts| - 1]);
    }
  }

  /** No run ever shows the HTTPRoute without its SecurityPolicy. */
  lemma NeverUnguarded(s: State, acts: seq<Action>)
    requires Init(s)
    ensures var t := Run(s, acts); Http in t.objects ==> Policy in t.objects && !t.objects[Policy].deleting
  {
    InvRun(s, acts);
  }

  /**
   What a pass deleted was the operator's in the very version deleted, even if it was adopted or replaced
   meanwhile.
   */
  lemma OnlyOwnRemoved(s: State, acts: seq<Action>, o: Object)
    requires Init(s) && o in Run(s, acts).removed
    ensures o.owner == s.me
  {
    InvRun(s, acts);
    MeNeverChanges(s, acts);
  }

  lemma {:induction false} MeNeverChanges(s: State, acts: seq<Action>)
    ensures Run(s, acts).me == s.me
  {
    if acts != [] { MeNeverChanges(s, acts[..|acts| - 1]); }
  }

  /** A pass that says the endpoint is removed says so for good: no route of either kind is there, then or later. */
  lemma RemovedIsTrue(s: State, acts: seq<Action>, p: nat)
    requires Init(s) && p in Run(s, acts).passes && Run(s, acts).passes[p] == Done(Removed)
    ensures Route !in Run(s, acts).objects && Http !in Run(s, acts).objects
  {
    InvRun(s, acts);
    assert PhaseTrue(Run(s, acts), Done(Removed));
  }

  // ---- Passes left alone reach full removal ----

  /** One whole pass; a call the pass does not get to is skipped. */
  function Pass(s: State, p: nat): State {
    Apply(Apply(Apply(Apply(Apply(Apply(s, Begin(p)), Get(p)), Delete(p, false)), Get(p)), Get(p)), Delete(p, false))
  }

  predicate Mine(s: State, kind: Kind) { kind in s.objects && s.objects[kind].owner == s.me }

  /** What the pass deletes: the route, or once both routes are gone the policy, if it is the operator's. */
  predicate Deletes(s: State, kind: Kind) {
    && (kind == Route || (kind == Policy && Route !in s.objects && Http !in s.objects))
    && Mine(s, kind) && !s.objects[kind].deleting
  }

  lemma RoutePass(s: State, p: nat)
    requires p !in s.passes && (Route in s.objects || Http in s.objects)
    ensures var t := Pass(s, p); t.me == s.me && t.passes.Keys == s.passes.Keys + {p}
    ensures var t := Pass(s, p);
            Deletes(s, Route) ==> t.objects == Deleted(s.objects, Route, s.next) && t.passes[p] == Done(Pending)
    ensures var t := Pass(s, p);
            !Deletes(s, Route) ==> t.objects == s.objects && t.passes[p].Done? && t.passes[p] != Done(Removed)
  {
    var t := DoGet(To(s, p, ReadRoute), p);
    if t.passes[p].Done? { assert Pass(s, p) == t; }
  }

  lemma PolicyPass(s: State, p: nat)
    requires p !in s.passes && Route !in s.objects && Http !in s.objects
    ensures var t := Pass(s, p); t.me == s.me && t.passes.Keys == s.passes.Keys + {p}
    ensures Deletes(s, Policy) ==>
              Pass(s, p).objects == Deleted(s.objects, Policy, s.next) && Pass(s, p).passes[p] == Done(Pending)
    ensures !Deletes(s, Policy) ==> Pass(s, p).objects == s.objects && Pass(s, p).passes[p].Done?
    ensures Pass(s, p).passes[p] == Done(Removed) <==> Policy !in s.objects
  {
    var t := DoGet(DoGet(To(s, p, ReadRoute), p), p);
    assert t == To(s, p, ReadPolicy);
  }

  /** What an undisturbed pass does, for every state; it reports removal exactly when nothing is left. */
  lemma PassResult(s: State, p: nat)
    requires p !in s.passes
    ensures var t := Pass(s, p); t.me == s.me && t.passes.Keys == s.passes.Keys + {p} && t.passes[p].Done?
    ensures Pass(s, p).passes[p] == Done(Removed) <==> s.objects == map[]
    ensures forall kind :: Deletes(s, kind) ==>
              Pass(s, p).objects == Deleted(s.objects, kind, s.next) && Pass(s, p).passes[p] == Done(Pending)
    ensures !Deletes(s, Route) && !Deletes(s, Policy) ==> Pass(s, p).objects == s.objects
  {
    hide Pass;
    NoKindsLeft(s.objects);
    if Route in s.objects || Http in s.objects { RoutePass(s, p); } else { PolicyPass(s, p); }
  }

  lemma NoKindsLeft(objects: map<Kind, Object>)
    ensures objects == map[] <==> Route !in objects && Http !in objects && Policy !in objects
  {
    if Route !in objects && Http !in objects && Policy !in objects {
      forall k: Kind ensures k !in objects { match k case Route => case Http => case Policy => }
    }
  }

  ghost predicate AllMine(s: State) { forall k :: k in s.objects && k != Http ==> s.objects[k].owner == s.me }

  /**
   A step that undoes no removal: anything anybody may do, other passes' calls included, but handing the route or
   the policy to another owner, or creating a policy anew.
   */
  predicate UndoesNothing(act: Action, me: nat) {
    !act.PutPolicy? && (act.Adopt? ==> act.kind == Http || act.owner == me)
  }

  /** Kubernetes has caught up: marked objects are gone, and the generated HTTPRoute once its route is. */
  ghost predicate CaughtUp(s: State) {
    && (Route in s.objects ==> !s.objects[Route].deleting)
    && (Policy in s.objects ==> !s.objects[Policy].deleting)
    && (Http in s.objects ==> Route in s.objects)
  }

  /** No route or policy has come back, changed hands or been unmarked. */
  ghost predicate NoMore(s: State, t: State) {
    && t.me == s.me
    && (forall k :: k in t.objects && k != Http ==>
          k in s.objects && (s.objects[k].owner == s.me ==> t.objects[k].owner == s.me))
    && (forall k :: k in t.objects && k != Http && s.objects[k].deleting ==> t.objects[k].deleting)
    && (Http in t.objects ==> Http in s.objects || Route in s.objects)
  }

  lemma StepNoMore(s: State, act: Action)
    requires UndoesNothing(act, s.me)
    ensures NoMore(s, Apply(s, act))
  {
  }

  lemma {:induction false} RunNoMore(s: State, acts: seq<Action>)
    requires forall act :: act in acts ==> UndoesNothing(act, s.me)
    ensures NoMore(s, Run(s, acts))
  {
    if acts != [] {
      RunNoMore(s, acts[..|acts| - 1]);
      StepNoMore(Run(s, acts[..|acts| - 1]), acts[|acts| - 1]);
      hide Apply;
    }
  }

  /**
   One pass, then anything that undoes nothing until Kubernetes has caught up: the routes are gone, or else
   everything.
   */
  lemma RoundRemoves(s: State, p: nat, acts: seq<Action>)
    requires AllMine(s) && p !in s.passes && (forall act :: act in acts ==> UndoesNothing(act, s.me))
    requires CaughtUp(Run(Pass(s, p), acts))
    ensures var t := Run(Pass(s, p), acts); t.me == s.me && AllMine(t) && Route !in t.objects && Http !in t.objects
    ensures Route !in s.objects && Http !in s.objects ==> Run(Pass(s, p), acts).objects == map[]
  {
    PassResult(s, p);
    RunNoMore(Pass(s, p), acts);
    NoKindsLeft(Run(Pass(s, p), acts).objects);
    hide Pass, Run;
  }

  /**
   From any mixture of own objects two undisturbed passes remove everything, and the next one reports it, whatever
   happens after each of them that undoes no removal, if Kubernetes has caught up when the next one begins.
   */
  lemma FullRemoval(s: State, p: nat, acts: seq<Action>, q: nat, more: seq<Action>, last: nat)
    requires AllMine(s) && forall act :: act in acts + more ==> UndoesNothing(act, s.me)
    requires p !in s.passes && q !in Run(Pass(s, p), acts).passes
    requires last !in Run(Pass(Run(Pass(s, p), acts), q), more).passes
    requires CaughtUp(Run(Pass(s, p), acts)) && CaughtUp(Run(Pass(Run(Pass(s, p), acts), q), more))
    ensures var t := Run(Pass(Run(Pass(s, p), acts), q), more);
            t.objects == map[] && last in Pass(t, last).passes && Pass(t, last).passes[last] == Done(Removed)
  {
    hide *;
    assert (forall act :: act in acts ==> act in acts + more) && forall act :: act in more ==> act in acts + more;
    RoundRemoves(s, p, acts);
    RoundRemoves(Run(Pass(s, p), acts), q, more);
    PassResult(Run(Pass(Run(Pass(s, p), acts), q), more), last);
  }

  // ---- How a pass ends ----

  /** What reading an object the pass may remove ends it with: an error if it is foreign, pending if on its way out. */
  predicate StopsAt(o: Object, me: nat, out: Outcome) {
    (o.owner != me && out == Refused) || (o.owner == me && o.deleting && out == Pending)
  }

  /**
   The calls that end pass p: a read that finds a foreign object, one on its way out, the HTTPRoute still there, or
   no policy left; a delete, pending when it went through or nothing was there, failed when the object has changed or
   the answer is lost; and any call that fails.
   */
  predicate Ends(s: State, act: Action, p: nat, out: Outcome)
    requires p in s.passes
  {
    match act
    case Get(k) =>
      && k == p
      && (match s.passes[p]
          case ReadRoute => Route in s.objects && StopsAt(s.objects[Route], s.me, out)
          case ReadHttp => Http in s.objects && out == Pending
          case ReadPolicy =>
            if Policy in s.objects then StopsAt(s.objects[Policy], s.me, out) else out == Removed
          case _ => false)
    case Delete(k, lost) =>
      && k == p && s.passes[p].Deleting?
      && (var kind := s.passes[p].kind;
          if kind !in s.objects then out == Pending
          else if s.objects[kind].uid != s.passes[p].uid || s.objects[kind].rv != s.passes[p].rv then out == Failed
          else out == if lost then Failed else Pending)
    case Fail(k) => k == p && !s.passes[p].Done? && out == Failed
    case _ => false
  }

  lemma OthersLeavePass(s: State, act: Action, p: nat)
    requires !(act.Begin? || act.Get? || act.Delete? || act.Fail?) || act.p != p
    ensures p in Apply(s, act).passes <==> p in s.passes
    ensures p in s.passes ==> Apply(s, act).passes[p] == s.passes[p]
  {
  }

  /** A step ends a pass exactly in one of those ways, with exactly that outcome. */
  lemma EndIsExact(s: State, act: Action, p: nat, out: Outcome)
    requires p in s.passes && !s.passes[p].Done?
    ensures p in Apply(s, act).passes && (Apply(s, act).passes[p] == Done(out) <==> Ends(s, act, p, out))
  {
    if !(act.Begin? || act.Get? || act.Delete? || act.Fail?) || act.p != p {
      OthersLeavePass(s, act, p);
      hide Apply;
    }
  }

  /** The reads that do not: on to the HTTPRoute, to the policy, or to deleting the object in the version read. */
  lemma PassGoesOn(s: State, p: nat, kind: Kind)
    ensures p !in s.passes ==> Apply(s, Begin(p)) == s.(passes := s.passes[p := ReadRoute])
    ensures p in s.passes && s.passes[p] == ReadRoute && Route !in s.objects ==>
              Apply(s, Get(p)) == s.(passes := s.passes[p := ReadHttp])
    ensures p in s.passes && s.passes[p] == ReadHttp && Http !in s.objects ==>
              Apply(s, Get(p)) == s.(passes := s.passes[p := ReadPolicy])
    ensures p in s.passes && s.passes[p] == (if kind == Route then ReadRoute else ReadPolicy) && kind in s.objects
            && kind != Http ==>
              (s.objects[kind].owner == s.me && !s.objects[kind].deleting ==>
                 Apply(s, Get(p)) ==
                   s.(passes := s.passes[p := Deleting(kind, s.objects[kind].uid, s.objects[kind].rv)]))
  {
  }

  /** A delete in the version read takes the object out, or only marks it while it has finalizers. */
  lemma DeleteIsExact(s: State, p: nat, lost: bool)
    requires p in s.passes && s.passes[p].Deleting?
    ensures var kind, t := s.passes[p].kind, Apply(s, Delete(p, lost));
            && (forall k :: k != kind ==>
                  (k in t.objects <==> k in s.objects) && (k in s.objects ==> t.objects[k] == s.objects[k]))
            && (kind in s.objects ==>
                  var o := s.objects[kind];
                  if o.uid != s.passes[p].uid || o.rv != s.passes[p].rv then kind in t.objects && t.objects[kind] == o
                  else if o.held then kind in t.objects && t.objects[kind] == Object(o.uid, s.next, o.owner, true, true)
                  else kind !in t.objects)
  {
  }

  ghost predicate EndedBy(s: State, acts: seq<Action>, n: nat, p: nat, out: Outcome) {
    && n < |acts| && p in Run(s, acts[..n]).passes && !Run(s, acts[..n]).passes[p].Done?
    && Ends(Run(s, acts[..n]), acts[n], p, out)
  }

  lemma DoneStays(s: State, act: Action, p: nat)
    requires p in s.passes && s.passes[p].Done?
    ensures p in Apply(s, act).passes && Apply(s, act).passes[p] == s.passes[p]
  {
  }

  lemma NotDoneAtOnce(s: State, act: Action, p: nat)
    requires p !in s.passes && p in Apply(s, act).passes
    ensures !Apply(s, act).passes[p].Done?
  {
    if !act.Begin? || act.p != p {
      OthersLeavePass(s, act, p);
      hide Apply;
    }
  }

  /** Over every run, an outcome reported is that of one of those calls. */
  lemma {:induction false} EndIsExplained(s: State, acts: seq<Action>, p: nat, out: Outcome)
    requires s.passes == map[] && p in Run(s, acts).passes && Run(s, acts).passes[p] == Done(out)
    ensures exists n: nat :: EndedBy(s, acts, n, p, out)
  {
    hide Apply, Ends;
    if acts != [] {
      var m := |acts| - 1;
      var t := Run(s, acts[..m]);
      if p in t.passes && t.passes[p].Done? {
        DoneStays(t, acts[m], p);
        EndIsExplained(s, acts[..m], p, out);
        var n: nat :| EndedBy(s, acts[..m], n, p, out);
        assert acts[..m][..n] == acts[..n];
        assert EndedBy(s, acts, n, p, out);
      } else {
        if p !in t.passes { NotDoneAtOnce(t, acts[m], p); }
        EndIsExact(t, acts[m], p, out);
        assert EndedBy(s, acts, m, p, out);
      }
    }
  }

  // ---- The passes as code over the cluster ----

  lemma RunNext(s: State, acts: seq<Action>, act: Action)
    ensures Run(s, acts + [act]) == Apply(Run(s, acts), act)
  {
    assert (acts + [act])[..|acts|] == acts;
  }

  /** The last step is pass p's delete of an object that has changed since it was read. */
  ghost predicate IsStale(s: State, acts: seq<Action>, p: nat) {
    && acts != [] && acts[|acts| - 1].Delete? && acts[|acts| - 1].p == p
    && var t := Run(s, acts[..|acts| - 1]);
       && p in t.passes && t.passes[p].Deleting? && t.passes[p].kind in t.objects
       && (t.objects[t.passes[p].kind].uid != t.passes[p].uid || t.objects[t.passes[p].kind].rv != t.passes[p].rv)
  }

  /** The API server's objects; passes and history are ghost. Between any two calls of a pass others may write. */
  class Cluster {
    const me: nat
    var objects: map<Kind, Object>
    var next: nat
    /** Calls that failed, or whose answer was lost. */
    var failures: nat
    ghost var world: State
    ghost const start: State
    ghost var trace: seq<Action>

    ghost predicate Valid()
      reads this
    {
      Init(start) && world == Run(start, trace) && world.me == me && world.objects == objects && world.next == next
    }

    constructor (uid: nat, there: map<Kind, Object>, unused: nat)
      requires Init(State(uid, there, unused, map[], []))
      ensures Valid() && trace == []
    {
      me, objects, next, failures := uid, there, unused, 0;
      start, world, trace := State(uid, there, unused, map[], []), State(uid, there, unused, map[], []), [];
    }

    ghost method Advance(act: Action)
      requires world == Run(start, trace)
      modifies this`world, this`trace
      ensures world == Apply(old(world), act) == Run(start, trace) && trace == old(trace) + [act]
    {
      hide *;
      RunNext(start, trace, act);
      trace, world := trace + [act], Apply(world, act);
    }

    /** Any number of steps of the gateway controller, Kubernetes and other writers. */
    method Interfere()
      requires Valid()
      modifies this
      ensures Valid() && old(trace) <= trace && world.passes == old(world).passes && failures == old(failures)
    {
      hide Run;
      var acts: seq<Action> := *;
      for i := 0 to |acts|
        invariant Valid() && old(trace) <= trace && world.passes == old(world).passes && failures == old(failures)
      {
        if IsOthers(acts[i]) {
          var t := Others(State(me, objects, next, map[], []), acts[i]);
          objects, next := t.objects, t.next;
          Advance(acts[i]);
        }
      }
    }

    /** None is a failed call. */
    method Read(ghost p: nat, kind: Kind) returns (res: Option<Option<Object>>)
      requires Valid() && p in world.passes && !world.passes[p].Done?
      requires world.passes[p] == match kind case Route => ReadRoute case Http => ReadHttp case Policy => ReadPolicy
      modifies this
      ensures Valid() && old(trace) <= trace && objects == old(objects)
      ensures failures == old(failures) + (if res.None? then 1 else 0)
      ensures res.None? ==> world == To(old(world), p, Done(Failed))
      ensures res.Some? ==>
                world == DoGet(old(world), p) && res.value == if kind in objects then Some(objects[kind]) else None
    {
      hide Run;
      var up: bool := *;
      if !up {
        failures := failures + 1;
        Advance(Fail(p));
        return None;
      }
      Advance(Get(p));
      return Some(if kind in objects then Some(objects[kind]) else None);
    }

    /** Deleting the object in the version read: true when it is gone or going, false on an error. */
    method DeleteVersion(ghost p: nat, kind: Kind, uid: nat, rv: nat) returns (ok: bool)
      requires Valid() && p in world.passes && world.passes[p] == Deleting(kind, uid, rv)
      modifies this
      ensures Valid() && old(trace) <= trace
      ensures p in world.passes && world.passes[p] == Done(if ok then Pending else Failed)
      ensures objects == old(objects)
              || (kind in old(objects) && old(objects)[kind].uid == uid && old(objects)[kind].rv == rv
                  && objects == Deleted(old(objects), kind, old(next)))
      ensures ok ==> kind !in objects || objects[kind].deleting
      ensures !ok ==> failures > old(failures) || IsStale(start, trace, p)
      ensures failures >= old(failures)
      ensures ok && kind in old(objects) ==> objects == Deleted(old(objects), kind, old(next))
    {
      hide Run;
      var up, lost: bool := *, *;
      if !up {
        failures := failures + 1;
        Advance(Fail(p));
        return false;
      }
      ok := true;
      if kind in objects {
        var o := objects[kind];
        ok := o.uid == uid && o.rv == rv && !lost;
        if lost { failures := failures + 1; }
        if o.uid == uid && o.rv == rv {
          objects := Deleted(objects, kind, next);
          next := next + 1;
        }
      }
      ghost var before := trace;
      Advance(Delete(p, lost));
      assert trace[..|trace| - 1] == before;
    }

    method RemoveControlledObject(ghost p: nat, kind: Kind) returns (pending: bool, err: bool)
      requires Valid() && p in world.passes && kind != Http
               && world.passes[p] == if kind == Route then ReadRoute else ReadPolicy
      modifies this
      ensures Valid() && old(trace) <= trace && p in world.passes
      ensures pending || err ==>
                !(pending && err) && (world.passes[p] == Done(Pending) || err) && (err ==> IsError(world.passes[p]))
      ensures !pending && !err ==> world.passes[p] == if kind == Route then ReadHttp else Done(Removed)
      ensures err && world.passes[p] == Done(Failed) ==> failures > old(failures) || IsStale(start, trace, p)
      ensures failures >= old(failures)
    {
      var got := Read(p, kind);
      if got.None? { return false, true; }
      if got.value.None? { return false, false; }
      var o := got.value.value;
      if o.owner != me { return false, true; }
      if !o.deleting {
        Interfere();
        var ok := DeleteVersion(p, kind, o.uid, o.rv);
        if !ok { return false, true; }
      }
      return true, false;
    }

    /** One pass: the pair it returns is what the model's pass ends with. */
    method RemoveEndpoint(ghost p: nat) returns (pending: bool, err: bool)
      requires Valid() && p !in world.passes
      modifies this
      ensures Valid() && old(trace) <= trace && p in world.passes
      ensures pending <==> world.passes[p] == Done(Pending)
      ensures err <==> IsError(world.passes[p])
      ensures !pending && !err ==> world.passes[p] == Done(Removed) && Route !in objects && Http !in objects
      ensures err && world.passes[p] == Done(Failed) ==> failures > old(failures) || IsStale(start, trace, p)
    {
      hide Run;
      Advance(Begin(p));
      Interfere();
      pending, err := RemoveControlledObject(p, Route);
      if pending || err { return; }
      Interfere();
      var http := Read(p, Http);
      if http.None? { return false, true; }
      if http.value.Some? { return true, false; }
      Interfere();
      pending, err := RemoveControlledObject(p, Policy);
      if !pending && !err { RemovedIsTrue(start, trace, p); }
    }
  }

  predicate IsError(phase: Phase) { phase == Done(Refused) || phase == Done(Failed) }
}
