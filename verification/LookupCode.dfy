/**
 The owner lookup's code over the handler's fields, each method proved to take exactly OwnerLookup's steps;
 and what the key store is taken to do there, tied to the key store's own protocol.
 */
module LookupCode {
  import opened Common
  import opened OwnerLookup
  import opened LookupAnswers
  import MA = ModelAccess
  import FleetKeys
  import KeyStore
  import ClientIds

  // ---- The key store behind the lookups ----

  type Digest = ClientIds.Digest
  type Fleet = MA.Fleet
  type FleetAction = MA.FleetAction

  /** After k steps of the fleet, listing every key of every model shows id, in model m's metadata, with this owner. */
  ghost predicate ListedIn(h: Digest, f: Fleet, xs: seq<FleetAction>, k: nat, m: string, id: string,
                           owner: Owner) {
    && k <= |xs| && m in MA.Run(h, f, xs[..k])
    && var data := MA.Run(h, f, xs[..k])[m].meta.data;
       id in data && data[id].Readable? && data[id].info.owner == owner
  }

  ghost predicate ListedAs(h: Digest, f: Fleet, xs: seq<FleetAction>, k: nat, id: string, owner: Owner) {
    exists m :: ListedIn(h, f, xs, k, m, id, owner)
  }

  /** Everything in known was listed after at most n steps. */
  ghost predicate KnownFrom(h: Digest, f: Fleet, xs: seq<FleetAction>, n: nat, known: map<string, Owner>) {
    forall id :: id in known ==> exists k: nat :: k <= n && ListedAs(h, f, xs, k, id, known[id])
  }

  lemma ListedOwnerIsOne(h: Digest, f: Fleet, xs: seq<FleetAction>, k: nat, n: nat, id: string, one: Owner,
                         two: Owner)
    requires FleetKeys.Fresh(h, f, xs) && MA.Separable(h, MA.Run(h, f, xs)) && k <= n
    requires ListedAs(h, f, xs, k, id, one) && ListedAs(h, f, xs, n, id, two)
    ensures one == two
  {
    var a :| ListedIn(h, f, xs, k, a, id, one);
    var b :| ListedIn(h, f, xs, n, b, id, two);
    hide MA.Run, FleetKeys.Fresh, MA.Separable;
    FleetKeys.OneModelOneOwner(h, f, xs, k, n, a, b, id);
  }

  /**
   The lookups' assumption about the key store, from the protocol of all models' stores together: if no random
   suffix repeats, an owner listed is never at odds with one listed before, so a Record step always records it.
   */
  lemma RecordIsNeverRefused(h: Digest, f: Fleet, xs: seq<FleetAction>, n: nat, x: LState, id: string,
                             owner: Owner)
    requires FleetKeys.Fresh(h, f, xs) && MA.Separable(h, MA.Run(h, f, xs))
    requires KnownFrom(h, f, xs, n, x.known) && ListedAs(h, f, xs, n, id, owner)
    ensures var y := Apply(x, Record(id, owner));
            id in y.store && y.store[id] == owner && KnownFrom(h, f, xs, n, y.known)
  {
    hide ListedAs, FleetKeys.Fresh, MA.Separable;
    if id in x.known {
      var k: nat :| k <= n && ListedAs(h, f, xs, k, id, x.known[id]);
      ListedOwnerIsOne(h, f, xs, k, n, id, x.known[id], owner);
    }
    assert Apply(x, Record(id, owner)).known == x.known[id := owner];
  }

  // ---- The handler ----

  function Listing(keys: seq<KeyStore.KeyInfo>): map<string, Owner> {
    if keys == [] then map[] else Listing(keys[..|keys| - 1])[keys[|keys| - 1].clientId := keys[|keys| - 1].owner]
  }

  /** An ID listed several times gets its last owner. */
  lemma {:induction false} LastOwnerCounts(keys: seq<KeyStore.KeyInfo>, k: nat)
    requires k < |keys| && forall j :: k < j < |keys| ==> keys[j].clientId != keys[k].clientId
    ensures keys[k].clientId in Listing(keys) && Listing(keys)[keys[k].clientId] == keys[k].owner
  {
    if k < |keys| - 1 { LastOwnerCounts(keys[..|keys| - 1], k); }
  }

  lemma {:induction false} ListingIsOfKeys(keys: seq<KeyStore.KeyInfo>, id: string)
    ensures id in Listing(keys) <==> exists k :: 0 <= k < |keys| && keys[k].clientId == id
  {
    if keys != [] {
      var n := |keys| - 1;
      ListingIsOfKeys(keys[..n], id);
      if k :| 0 <= k < n && keys[..n][k].clientId == id { assert keys[k].clientId == id; }
      if k :| 0 <= k < |keys| && keys[k].clientId == id { assert k < n ==> keys[..n][k].clientId == id; }
    }
  }

  method StoreInto(owners: map<string, Owner>, keys: seq<KeyStore.KeyInfo>) returns (filled: map<string, Owner>)
    ensures filled == owners + Listing(keys)
  {
    filled := owners;
    for i := 0 to |keys|
      invariant filled == owners + Listing(keys[..i])
    {
      filled := filled[keys[i].clientId := keys[i].owner];
      assert keys[..i + 1][..i] == keys[..i];
    }
    assert keys[..|keys|] == keys;
  }

  /**
   The handler between any two steps of its lookups. A lookup's own variables are arguments; the lock's
   holder, the lookups' progress and what the handler cannot see (clock, key store, history) are ghost.
   */
  class Handler {
    const minInterval: nat
    var owners: map<string, Owner>
    var lastRefresh: Option<int>
    ghost var world: LState
    ghost const start: LState
    ghost var trace: seq<LAction>

    ghost predicate Valid()
      reads this
    {
      && Init(start) && world == Run(start, trace)
      && world.minInterval == minInterval && world.owners == owners && world.lastRefresh == lastRefresh
    }

    constructor (ghost s: LState, interval: nat)
      requires Init(s) && s.minInterval == interval
      ensures Valid() && world == start == s && trace == []
    {
      minInterval := interval;
      owners, lastRefresh := map[], None;
      world, start, trace := s, s, [];
    }

    /** A step that touches neither the cache nor the last read's start. */
    ghost method Step(act: LAction)
      requires Valid()
               && (act.Pass? || act.Record? || act.Forget? || act.Clock? || act.Cancel? || act.List? || act.FailRead?)
      modifies this`world, this`trace
      ensures Valid() && world == Apply(old(world), act) && trace == old(trace) + [act]
    {
      Advance(act);
    }

    ghost method Advance(act: LAction)
      requires world == Run(start, trace)
      modifies this`world, this`trace
      ensures world == Apply(old(world), act) == Run(start, trace) && trace == old(trace) + [act]
    {
      hide *;
      RunNext(start, trace, act);
      trace, world := trace + [act], Apply(world, act);
    }

    /** A lookup's first look in the cache. */
    method ReadCache(ghost l: nat, id: string) returns (reply: Reply)
      requires Valid() && l !in world.lookups
      modifies this`world, this`trace
      ensures Valid() && world == Apply(old(world), Arrive(l, id)) && trace == old(trace) + [Arrive(l, id)]
      ensures l in world.lookups && (reply.FoundOwner? ==> world.lookups[l] == Replied(id, Present(world, id), reply))
      ensures !reply.FoundOwner? ==> world.lookups[l] == Missed(id)
      ensures Says(owners, id, reply)
    {
      hide Run;
      reply := if id in owners then FoundOwner(owners[id]) else NotKnown;
      Advance(Arrive(l, id));
    }

    /** Once refreshMu is taken: a read that started after this lookup arrived lets it answer at once. */
    method TakeLock(ghost l: nat, id: string, arrived: int) returns (reply: Option<Reply>)
      requires Valid() && l in world.lookups && world.holder.None?
      requires world.lookups[l].Queued? && world.lookups[l].id == id && world.lookups[l].arrived == arrived
      modifies this`world, this`trace
      ensures Valid() && world == Apply(old(world), Lock(l)) && trace == old(trace) + [Lock(l)]
      ensures l in world.lookups && reply.Some? == world.lookups[l].Replied?
              && (reply.None? ==> world.lookups[l].Pausing?)
      ensures reply.Some? ==> world.lookups[l].reply == reply.value
      ensures reply.Some? <==> lastRefresh.Some? && lastRefresh.value > arrived
      ensures reply.Some? ==> Says(owners, id, reply.value)
    {
      hide Run;
      reply := None;
      if lastRefresh.Some? && lastRefresh.value > arrived {
        reply := Some(if id in owners then FoundOwner(owners[id]) else NotKnown);
      }
      Advance(Lock(l));
    }

    /** The read begins once the interval since the last one has passed: its start is what is remembered. */
    method BeginRead(ghost l: nat, now: int)
      requires Valid() && l in world.lookups && world.lookups[l].Pausing? && now == world.now
      requires lastRefresh.Some? ==> lastRefresh.value + minInterval <= now
      modifies this`world, this`trace, this`lastRefresh
      ensures Valid() && world == Apply(old(world), StartRead(l)) && trace == old(trace) + [StartRead(l)]
      ensures l in world.lookups && world.lookups[l].Reading? && lastRefresh == Some(now)
    {
      hide Run;
      lastRefresh := Some(now);
      Advance(StartRead(l));
    }

    /** The keys read go into the cache, over what it holds; nothing is taken out. */
    method StoreKeys(ghost l: nat, id: string, keys: seq<KeyStore.KeyInfo>) returns (reply: Reply)
      requires Valid() && l in world.lookups && world.lookups[l].Listed?
      requires world.lookups[l].id == id && world.lookups[l].keys == Listing(keys)
      modifies this`world, this`trace, this`owners
      ensures Valid() && world == Apply(old(world), EndRead(l)) && trace == old(trace) + [EndRead(l)]
      ensures owners == old(owners) + Listing(keys)
      ensures l in world.lookups && world.lookups[l].Replied? && world.lookups[l].reply == reply
      ensures Says(old(owners) + Listing(keys), id, reply)
    {
      hide Run;
      owners := StoreInto(owners, keys);
      reply := if id in owners then FoundOwner(owners[id]) else NotKnown;
      Advance(EndRead(l));
    }
  }
}
