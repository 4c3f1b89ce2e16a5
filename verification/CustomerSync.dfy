/**
 Attaching API keys to their creators' OpenMeter customers. Every call to OpenMeter may fail, a write
 also after it was applied; nobody else changes the customers while one synchronisation is running.
 */
module CustomerSync {
  import opened Common
  import opened StringOrder
  import KeyStore

  datatype Attribution = Malformed | Subjects(keys: seq<string>)

  /** fields is everything the sync knows nothing about, and the name of a customer it creates. */
  datatype Customer = Customer(attribution: Attribution, fields: map<string, string>)

  /** By the name the sync uses for a customer: its key, or its id if it has no key. */
  type Customers = map<string, Customer>

  predicate Has(x: Customer, k: string) { x.attribution.Subjects? && k in x.attribution.keys }

  predicate Holds(c: Customers, r: string, k: string) { r in c && Has(c[r], k) }

  ghost predicate Unique(c: Customers) {
    forall r, q, k :: Holds(c, r, k) && Holds(c, q, k) ==> r == q
  }

  /** Customers and subject keys are only added; all else about a customer is as it was. */
  ghost predicate Grew(a: Customers, b: Customers) {
    && (forall r :: r in a ==>
          r in b && b[r].fields == a[r].fields && (b[r].attribution.Malformed? <==> a[r].attribution.Malformed?))
    && (forall r :: r in b && r !in a ==> b[r].attribution.Subjects?)
    && (forall r, k :: Holds(a, r, k) ==> Holds(b, r, k))
  }

  lemma GrewTransitive(a: Customers, b: Customers, c: Customers)
    requires Grew(a, b) && Grew(b, c)
    ensures Grew(a, c)
  {
  }

  /** Some customer's attribution cannot be read. */
  ghost predicate SomeMalformed(c: Customers) { exists r :: r in c && c[r].attribution.Malformed? }

  /** No sync makes a customer unreadable. */
  lemma MalformedBefore(a: Customers, b: Customers)
    requires Grew(a, b)
    ensures SomeMalformed(b) ==> SomeMalformed(a)
  {
  }

  // ---- OpenMeter ----

  datatype Page = Page(total: nat, size: nat, items: seq<string>)

  function Least(a: nat, b: nat): nat { if a < b then a else b }

  /** The customers holding exactly k, in OpenMeter's order. */
  function Holders(c: Customers, order: seq<string>, k: string): seq<string> {
    Filter(r => Holds(c, r, k), order)
  }

  /** states is every value the customers have had. */
  class OpenMeter {
    var customers: Customers
    var order: seq<string>
    var writes: nat
    /** Calls that failed, or whose answer was lost. */
    var failures: nat
    ghost var states: seq<Customers>
    const partial: (Customer, string) -> bool
    const pageSize: nat

    ghost predicate Valid()
      reads this
    {
      && (forall r :: r in order <==> r in customers)
      && states != [] && states[|states| - 1] == customers
      && pageSize > 0 && (forall x, k :: Has(x, k) ==> partial(x, k))
    }

    function Matching(k: string): seq<string>
      reads this
    {
      var c, p := customers, partial;
      Filter(r => r in c && p(c[r], k), order)
    }

    method Get(r: string) returns (res: Result<Option<Customer>>)
      modifies this`failures
      ensures res.Ok? ==> res.value == if r in customers then Some(customers[r]) else None
      ensures failures == old(failures) + (if res.Err? then 1 else 0)
    {
      var up: bool := *;
      if !up {
        failures := failures + 1;
        return Err("unavailable");
      }
      res := Ok(if r in customers then Some(customers[r]) else None);
    }

    /** Page number of the customers matching k in part. */
    method List(k: string, number: nat) returns (res: Result<Page>)
      requires Valid() && number >= 1
      modifies this`failures
      ensures failures == old(failures) + (if res.Err? then 1 else 0)
      ensures res.Ok? ==>
                var from, to := Least((number - 1) * pageSize, |Matching(k)|), Least(number * pageSize, |Matching(k)|);
                from <= to && res.value == Page(|Matching(k)|, pageSize, Matching(k)[from..to])
    {
      var up: bool := *;
      if !up {
        failures := failures + 1;
        return Err("unavailable");
      }
      assert number * pageSize == (number - 1) * pageSize + pageSize;
      var from, to := Least((number - 1) * pageSize, |Matching(k)|), Least(number * pageSize, |Matching(k)|);
      res := Ok(Page(|Matching(k)|, pageSize, Matching(k)[from..to]));
    }

    /** Creates or replaces customer r. It may fail, before or after it took effect. */
    method Put(r: string, x: Customer) returns (err: Option<string>)
      requires Valid()
      modifies this
      ensures Valid() && writes == old(writes) + 1
      ensures customers == old(customers)[r := x] || (err.Some? && customers == old(customers))
      ensures states == old(states) + [customers]
      ensures failures == old(failures) + (if err.Some? then 1 else 0)
    {
      writes := writes + 1;
      err := None;
      var up, lost: bool := *, *;
      if up {
        if r !in customers { order := order + [r]; }
        customers := customers[r := x];
      }
      if !up || lost {
        failures := failures + 1;
        err := Some("unavailable");
      }
      states := states + [customers];
    }
  }

  lemma HoldersAppend(c: Customers, xs: seq<string>, ys: seq<string>, k: string)
    ensures Holders(c, xs + ys, k) == Holders(c, xs, k) + Holders(c, ys, k)
  {
    FilterAppend(r => Holds(c, r, k), xs, ys);
  }

  /** The exact holders on one page; a customer that cannot be read is an error. */
  method ExactOf(c: Customers, items: seq<string>, k: string) returns (res: Result<seq<string>>)
    requires forall r :: r in items ==> r in c
    ensures res.Ok? ==> res.value == Holders(c, items, k)
    ensures res.Err? ==> SomeMalformed(c)
  {
    var holders := [];
    for i := 0 to |items|
      invariant holders == Holders(c, items[..i], k)
    {
      if c[items[i]].attribution.Malformed? { return Err("reading usageAttribution"); }
      assert items[..i + 1][..i] == items[..i];
      if k in c[items[i]].attribution.keys { holders := holders + [items[i]]; }
    }
    assert items[..|items|] == items;
    return Ok(holders);
  }

  lemma HoldersOfNone(c: Customers, k: string)
    ensures Holders(c, [], k) == []
  {
  }

  lemma MatchingFacts(om: OpenMeter, k: string)
    requires om.Valid()
    ensures forall r :: r in om.Matching(k) ==> r in om.customers
    ensures Holders(om.customers, om.Matching(k), k) == Holders(om.customers, om.order, k)
  {
    var c, p := om.customers, om.partial;
    var some, exact := r => r in c && p(c[r], k), r => Holds(c, r, k);
    FilterTwice(some, exact, om.order);
    FilterSame(Both(some, exact), exact, om.order);
    FilterMember(some, om.order);
  }

  /**
   Page by page through the partial matches, keeping the exact ones: the same customers one look over all
   of them would find.
   */
  method CustomersWithSubjectKey(om: OpenMeter, k: string) returns (res: Result<seq<string>>)
    requires om.Valid()
    modifies om`failures
    ensures res.Ok? ==> res.value == Holders(om.customers, om.order, k)
    ensures om.failures >= old(om.failures)
    ensures res.Err? ==> om.failures > old(om.failures) || SomeMalformed(om.customers)
  {
    hide Holders, SomeMalformed;
    MatchingFacts(om, k);
    ghost var all, seen: nat := om.Matching(k), 0;
    var holders, number: nat := [], 1;
    HoldersOfNone(om.customers, k);
    while true
      invariant number >= 1 && seen == (number - 1) * om.pageSize && (number == 1 || seen < |all|)
      invariant holders == Holders(om.customers, all[..Least(seen, |all|)], k)
      invariant om.failures >= old(om.failures)
      decreases |all| - seen
    {
      var page := om.List(k, number);
      if page.Err? { return Err(page.error); }
      assert number * om.pageSize == seen + om.pageSize;
      ghost var from, to := Least(seen, |all|), Least(seen + om.pageSize, |all|);
      var exact := ExactOf(om.customers, page.value.items, k);
      if exact.Err? { return exact; }
      HoldersAppend(om.customers, all[..from], all[from..to], k);
      assert all[..from] + all[from..to] == all[..to];
      holders := holders + exact.value;
      if |page.value.items| == 0 || number * page.value.size >= page.value.total {
        assert all[..to] == all;
        return Ok(holders);
      }
      seen, number := seen + om.pageSize, number + 1;
    }
  }

  // ---- One key creator ----

  datatype KeyOwner = KeyOwner(username: string, clientIds: seq<string>)

  function WantedOf(subject: string, o: KeyOwner): seq<string> { [subject] + o.clientIds }

  /** Between a and b only creators' customers got keys, and only wanted ones; a new customer has its creator's name. */
  ghost predicate AddsOnlyWanted(a: Customers, b: Customers, owners: map<string, KeyOwner>) {
    && (forall r, k :: Holds(b, r, k) ==> Holds(a, r, k) || (r in owners && k in WantedOf(r, owners[r])))
    && (forall r :: r in b && r !in a ==> r in owners && b[r].fields == map["name" := owners[r].username])
  }

  lemma AddsTransitive(a: Customers, b: Customers, c: Customers, owners: map<string, KeyOwner>, subject: string)
    requires AddsOnlyWanted(a, b, owners) && subject in owners && Grew(b, c)
    requires AddsOnlyWanted(b, c, map[subject := owners[subject]])
    ensures AddsOnlyWanted(a, c, owners)
  {
  }

  /** k is on the customer, or noted as held by another that does hold it. */
  ghost predicate Placed(c: Customers, conflicts: map<string, string>, subject: string, k: string) {
    Holds(c, subject, k) || (k in conflicts && Holds(c, conflicts[k], k))
  }

  ghost predicate Held(c: Customers, k: string) { exists r :: Holds(c, r, k) }

  lemma HoldersAreHolders(c: Customers, order: seq<string>, k: string)
    requires forall r :: r in order <==> r in c
    ensures forall r :: r in Holders(c, order, k) <==> Holds(c, r, k)
    ensures Held(c, k) <==> Holders(c, order, k) != []
  {
    FilterMember(r => Holds(c, r, k), order);
    if Holders(c, order, k) != [] { assert Holders(c, order, k)[0] in Holders(c, order, k); }
  }

  lemma PutKeeps(c: Customers, subject: string, x: Customer, add: seq<string>)
    requires subject in c ==> c[subject].attribution.Subjects? && x.fields == c[subject].fields
    requires x.attribution.Subjects?
    requires forall k :: k in x.attribution.keys <==> Holds(c, subject, k) || k in add
    requires forall k :: k in add ==> !Held(c, k)
    ensures Grew(c, c[subject := x]) && (Unique(c) ==> Unique(c[subject := x]))
  {
    var d := c[subject := x];
    forall r, k | Holds(c, r, k) ensures Holds(d, r, k) {}
    if Unique(c) {
      forall r, q, k | Holds(d, r, k) && Holds(d, q, k) ensures r == q {
        assert r != subject ==> Holds(c, r, k) && Held(c, k);
        assert q != subject ==> Holds(c, q, k) && Held(c, k);
      }
    }
  }

  /** Which of the wanted keys to add: none that any customer holds; those held elsewhere are noted. */
  method KeysToAdd(om: OpenMeter, subject: string, have: seq<string>, wanted: seq<string>,
                   conflicts: map<string, string>)
    returns (add: seq<string>, noted: map<string, string>, err: Option<string>)
    requires om.Valid() && forall k :: k in have <==> Holds(om.customers, subject, k)
    modifies om`failures
    ensures om.failures >= old(om.failures)
    ensures err.Some? ==> om.failures > old(om.failures) || SomeMalformed(om.customers)
    ensures forall k :: k in add ==> k in wanted && !Held(om.customers, k)
    ensures forall k :: k in noted ==> (k in conflicts && noted[k] == conflicts[k])
                                       || (k in wanted && noted[k] != subject && Holds(om.customers, noted[k], k))
    ensures forall k :: k in conflicts ==> k in noted
    ensures err.None? ==>
              forall k :: k in wanted ==> k in have || k in add || (k in noted && Holds(om.customers, noted[k], k))
  {
    hide SomeMalformed;
    add, noted, err := [], conflicts, None;
    for i := 0 to |wanted|
      invariant om.failures >= old(om.failures) && err.None?
      invariant forall k :: k in add ==> k in wanted && !Held(om.customers, k)
      invariant forall k :: k in noted ==> (k in conflicts && noted[k] == conflicts[k])
                                           || (k in wanted && noted[k] != subject && Holds(om.customers, noted[k], k))
      invariant forall k :: k in conflicts ==> k in noted
      invariant forall k :: k in wanted[..i] ==>
                  k in have || k in add || (k in noted && Holds(om.customers, noted[k], k))
    {
      var k := wanted[i];
      assert wanted[..i + 1] == wanted[..i] + [k];
      if k in have { continue; }
      var holders := CustomersWithSubjectKey(om, k);
      if holders.Err? { return add, noted, Some(holders.error); }
      HoldersAreHolders(om.customers, om.order, k);
      if holders.value != [] {
        assert holders.value[0] in holders.value;
        if holders.value[0] != subject { noted := noted[k := holders.value[0]]; }
        continue;
      }
      add := add + [k];
    }
    assert wanted[..|wanted|] == wanted;
  }

  lemma PutAdds(c: Customers, subject: string, x: Customer, add: seq<string>, o: KeyOwner)
    requires x.attribution.Subjects?
             && forall k :: k in x.attribution.keys <==> Holds(c, subject, k) || k in add
    requires (forall k :: k in add ==> k in WantedOf(subject, o))
             && (subject !in c ==> x.fields == map["name" := o.username])
    ensures AddsOnlyWanted(c, c[subject := x], map[subject := o])
  {
  }

  /** The write of a creator's customer: created with the keys to add, or extended by them and otherwise as it is. */
  method AddKeys(om: OpenMeter, subject: string, o: KeyOwner, got: Option<Customer>, add: seq<string>)
    returns (err: Option<string>)
    requires om.Valid() && got == if subject in om.customers then Some(om.customers[subject]) else None
    requires got.Some? ==> got.value.attribution.Subjects?
    requires forall k :: k in add ==> k in WantedOf(subject, o) && !Held(om.customers, k)
    modifies om
    ensures om.Valid() && Grew(old(om.customers), om.customers)
    ensures Unique(old(om.customers)) ==> Unique(om.customers)
    ensures AddsOnlyWanted(old(om.customers), om.customers, map[subject := o])
    ensures om.states == old(om.states) + [om.customers]
    ensures om.failures == old(om.failures) + (if err.Some? then 1 else 0)
    ensures err.None? ==> forall k :: k in add ==> Holds(om.customers, subject, k)
  {
    ghost var c := om.customers;
    var x := if got.None? then Customer(Subjects(Sort(add)), map["name" := o.username])
             else got.value.(attribution := Subjects(Sort(got.value.attribution.keys + add)));
    forall k ensures k in x.attribution.keys <==> Holds(c, subject, k) || k in add {
      SortKeeps(add, k);
      if got.Some? { SortKeeps(got.value.attribution.keys + add, k); }
    }
    PutKeeps(c, subject, x, add);
    PutAdds(c, subject, x, add, o);
    NothingChanged(c, map[subject := o]);
    hide Grew, Unique, AddsOnlyWanted, Sort;
    err := om.Put(subject, x);
  }

  lemma NothingChanged(c: Customers, owners: map<string, KeyOwner>)
    ensures Grew(c, c) && AddsOnlyWanted(c, c, owners)
  {
  }

  method SyncOwner(om: OpenMeter, subject: string, o: KeyOwner, conflicts: map<string, string>)
    returns (noted: map<string, string>, err: Option<string>)
    requires om.Valid()
    modifies om
    ensures om.Valid() && Grew(old(om.customers), om.customers)
    ensures Unique(old(om.customers)) ==> Unique(om.customers)
    ensures AddsOnlyWanted(old(om.customers), om.customers, map[subject := o])
    ensures om.states == old(om.states) || om.states == old(om.states) + [om.customers]
    ensures (forall k :: k in WantedOf(subject, o) ==> Held(old(om.customers), k)) ==>
              om.customers == old(om.customers) && om.writes == old(om.writes)
    ensures forall k :: k in noted ==> (k in conflicts && noted[k] == conflicts[k])
                                       || (k in WantedOf(subject, o) && noted[k] != subject
                                           && Holds(om.customers, noted[k], k))
    ensures forall k :: k in conflicts ==> k in noted
    ensures om.failures >= old(om.failures)
    ensures err.Some? ==> om.failures > old(om.failures) || SomeMalformed(old(om.customers))
    ensures err.None? ==> forall k :: k in WantedOf(subject, o) ==> Placed(om.customers, noted, subject, k)
  {
    hide Grew, Unique, AddsOnlyWanted;
    NothingChanged(om.customers, map[subject := o]);
    noted := conflicts;
    var got := om.Get(subject);
    if got.Err? { return noted, Some(got.error); }
    if got.value.Some? && got.value.value.attribution.Malformed? { return noted, Some("reading usageAttribution"); }
    var have := if got.value.Some? then got.value.value.attribution.keys else [];
    var add;
    add, noted, err := KeysToAdd(om, subject, have, WantedOf(subject, o), conflicts);
    if err.Some? || add == [] {
      assert add != [] ==> add[0] in add;
      return;
    }
    assert add[0] in add;
    ghost var c := om.customers;
    err := AddKeys(om, subject, o, got.value, add);
    HoldsOn(c, om.customers);
  }

  lemma HoldsOn(a: Customers, b: Customers)
    requires Grew(a, b)
    ensures forall r, k :: Holds(a, r, k) ==> Holds(b, r, k)
  {
  }

  // ---- All key creators ----

  function OwnersOf(keys: seq<KeyStore.KeyInfo>): map<string, KeyOwner> {
    if keys == [] then map[]
    else
      var before, k := OwnersOf(keys[..|keys| - 1]), keys[|keys| - 1];
      var s := k.owner.subject;
      if s == "" then before
      else
        var o := if s in before then before[s] else KeyOwner(k.owner.username, []);
        before[s := o.(clientIds := o.clientIds + [k.clientId])]
  }

  function SkippedOf(keys: seq<KeyStore.KeyInfo>): nat {
    if keys == [] then 0 else SkippedOf(keys[..|keys| - 1]) + (if keys[|keys| - 1].owner.subject == "" then 1 else 0)
  }

  /** The keys skipped are those without a creator subject. */
  lemma {:induction false} SkippedHaveNoSubject(keys: seq<KeyStore.KeyInfo>)
    ensures SkippedOf(keys) == |Filter((k: KeyStore.KeyInfo) => k.owner.subject == "", keys)|
  {
    if keys != [] { SkippedHaveNoSubject(keys[..|keys| - 1]); }
  }

  /** The key list says the creator's customer should have k. */
  ghost predicate Wants(keys: seq<KeyStore.KeyInfo>, subject: string, k: string) {
    subject != ""
    && exists i :: 0 <= i < |keys| && keys[i].owner.subject == subject && (k == subject || k == keys[i].clientId)
  }

  lemma {:induction false} OwnersWant(keys: seq<KeyStore.KeyInfo>, subject: string, k: string)
    ensures Wants(keys, subject, k) <==> subject in OwnersOf(keys) && k in WantedOf(subject, OwnersOf(keys)[subject])
  {
    if keys != [] {
      var rest, last := keys[..|keys| - 1], keys[|keys| - 1];
      OwnersWant(rest, subject, k);
      if Wants(rest, subject, k) {
        var i :| 0 <= i < |rest| && rest[i].owner.subject == subject && (k == subject || k == rest[i].clientId);
        assert keys[i] == rest[i];
      }
      if Wants(keys, subject, k) {
        var i :| 0 <= i < |keys| && keys[i].owner.subject == subject && (k == subject || k == keys[i].clientId);
        if i < |rest| { assert rest[i] == keys[i]; }
      }
      assert last == keys[|keys| - 1];
    }
  }

  ghost predicate Settled(c: Customers, keys: seq<KeyStore.KeyInfo>) {
    forall subject, k :: Wants(keys, subject, k) ==> Held(c, k)
  }

  /** A creator wants k, and customer r, not the creator's, holds it. */
  ghost predicate Conflict(c: Customers, keys: seq<KeyStore.KeyInfo>, k: string, r: string) {
    Holds(c, r, k) && exists subject :: subject != r && Wants(keys, subject, k)
  }

  ghost predicate Noted(conflicts: map<string, string>, k: string, r: string) { k in conflicts && conflicts[k] == r }

  ghost predicate ExactConflicts(c: Customers, keys: seq<KeyStore.KeyInfo>, conflicts: map<string, string>) {
    forall k, r :: Noted(conflicts, k, r) <==> Conflict(c, keys, k, r)
  }

  /** Every value the customers had from states[first] on grew out of the one before, and kept keys unique. */
  ghost predicate GoodSteps(states: seq<Customers>, first: nat) {
    forall i, j :: first <= i < j < |states| && j == i + 1 ==>
      Grew(states[i], states[j]) && (Unique(states[i]) ==> Unique(states[j]))
  }

  class Syncer {
    var lastSkipped: nat
    var lastConflicts: map<string, string>

    constructor ()
      ensures lastSkipped == 0 && lastConflicts == map[]
    {
      lastSkipped, lastConflicts := 0, map[];
    }

    method GroupByCreator(keys: seq<KeyStore.KeyInfo>) returns (owners: map<string, KeyOwner>, skipped: nat)
      ensures owners == OwnersOf(keys) && skipped == SkippedOf(keys)
    {
      owners, skipped := map[], 0;
      for i := 0 to |keys|
        invariant owners == OwnersOf(keys[..i]) && skipped == SkippedOf(keys[..i])
      {
        ghost var next := keys[..i + 1];
        assert next[..|next| - 1] == keys[..i] && next[|next| - 1] == keys[i];
        var s := keys[i].owner.subject;
        if s == "" {
          skipped := skipped + 1;
          continue;
        }
        ghost var before := owners;
        if s !in owners { owners := owners[s := KeyOwner(keys[i].owner.username, [])]; }
        owners := owners[s := owners[s].(clientIds := owners[s].clientIds + [keys[i].clientId])];
        assert owners == before[s := owners[s]];
      }
      assert keys[..|keys|] == keys;
    }

    /**
     One synchronisation, the creators in any order. warned are the keys whose conflict is new since the
     previous one.
     */
    method Sync(om: OpenMeter, keys: seq<KeyStore.KeyInfo>) returns (errors: seq<string>, warned: set<string>)
      requires om.Valid()
      modifies om, this
      ensures om.Valid() && old(om.states) <= om.states && GoodSteps(om.states, |old(om.states)| - 1)
      ensures Grew(old(om.customers), om.customers) && (Unique(old(om.customers)) ==> Unique(om.customers))
      ensures Settled(old(om.customers), keys) ==> om.customers == old(om.customers) && om.writes == old(om.writes)
      ensures errors == [] ==>
                forall subject, k :: Wants(keys, subject, k) ==> Placed(om.customers, lastConflicts, subject, k)
      ensures errors == [] && Unique(om.customers) ==> ExactConflicts(om.customers, keys, lastConflicts)
      ensures forall r, k :: Holds(om.customers, r, k) ==> Holds(old(om.customers), r, k) || Wants(keys, r, k)
      ensures errors != [] ==> om.failures > old(om.failures) || SomeMalformed(old(om.customers))
      ensures lastSkipped == SkippedOf(keys)
      ensures warned ==
                set k | k in lastConflicts && !(k in old(lastConflicts) && old(lastConflicts)[k] == lastConflicts[k])
    {
      hide Grew, Unique, SomeMalformed, AddsOnlyWanted, Progressed, NotesTrue, AllPlaced, Placed, ExactConflicts;
      hide OwnersOf, Wants, Settled, GoodSteps;
      var owners, skipped := GroupByCreator(keys);
      lastSkipped := skipped;
      errors := [];
      var conflicts: map<string, string> := map[];
      var todo := owners.Keys;
      Begin(om.customers, owners, om.states);
      while todo != {}
        invariant om.Valid() && old(om.states) <= om.states && GoodSteps(om.states, |old(om.states)| - 1)
        invariant Progressed(old(om.customers), om.customers, owners)
        invariant Settled(old(om.customers), keys) ==> om.customers == old(om.customers) && om.writes == old(om.writes)
        invariant todo <= owners.Keys && lastSkipped == skipped && lastConflicts == old(lastConflicts)
        invariant om.failures >= old(om.failures)
        invariant errors != [] ==> om.failures > old(om.failures) || SomeMalformed(old(om.customers))
        invariant NotesTrue(om.customers, owners, conflicts)
        invariant errors == [] ==> AllPlaced(om.customers, owners, owners.Keys - todo, conflicts)
        decreases todo
      {
        var subject :| subject in todo;
        ghost var c, before, states, done := om.customers, conflicts, om.states, owners.Keys - todo;
        todo := todo - {subject};
        if Settled(c, keys) { SettledOwner(c, keys, subject); }
        var err;
        conflicts, err := SyncOwner(om, subject, owners[subject], conflicts);
        Progresses(old(om.customers), c, om.customers, owners, subject);
        StepIsGood(states, om.states, |old(om.states)| - 1);
        NotesStep(c, om.customers, owners, subject, before, conflicts);
        if err.Some? { errors := errors + [err.value]; }
        if errors == [] { PlacedStep(c, om.customers, owners, subject, done, owners.Keys - todo, before, conflicts); }
      }
      warned := set k | k in conflicts && !(k in lastConflicts && lastConflicts[k] == conflicts[k]);
      lastConflicts := conflicts;
      ProgressMeans(old(om.customers), om.customers, keys);
      if errors == [] {
        assert owners.Keys - todo == owners.Keys;
        Conclude(om.customers, keys, conflicts);
      }
    }
  }

  lemma Begin(c: Customers, owners: map<string, KeyOwner>, states: seq<Customers>)
    requires states != []
    ensures NotesTrue(c, owners, map[]) && AllPlaced(c, owners, owners.Keys - owners.Keys, map[])
    ensures Progressed(c, c, owners) && GoodSteps(states, |states| - 1)
  {
  }

  /** What the synchronisation has made of the customers so far. */
  ghost predicate Progressed(a: Customers, b: Customers, owners: map<string, KeyOwner>) {
    Grew(a, b) && (Unique(a) ==> Unique(b)) && AddsOnlyWanted(a, b, owners)
  }

  lemma Progresses(a: Customers, b: Customers, c: Customers, owners: map<string, KeyOwner>, subject: string)
    requires Progressed(a, b, owners) && subject in owners && Grew(b, c) && (Unique(b) ==> Unique(c))
    requires AddsOnlyWanted(b, c, map[subject := owners[subject]])
    ensures Progressed(a, c, owners) && (SomeMalformed(b) ==> SomeMalformed(a))
  {
    GrewTransitive(a, b, c);
    MalformedBefore(a, b);
    AddsTransitive(a, b, c, owners, subject);
    hide Grew, Unique, AddsOnlyWanted, SomeMalformed;
  }

  lemma ProgressMeans(a: Customers, b: Customers, keys: seq<KeyStore.KeyInfo>)
    requires Progressed(a, b, OwnersOf(keys))
    ensures Grew(a, b) && (Unique(a) ==> Unique(b))
    ensures forall r, k :: Holds(b, r, k) ==> Holds(a, r, k) || Wants(keys, r, k)
  {
    AddedAreWanted(a, b, keys);
    hide Grew, Unique, AddsOnlyWanted, Wants;
  }

  lemma AddedAreWanted(a: Customers, b: Customers, keys: seq<KeyStore.KeyInfo>)
    requires AddsOnlyWanted(a, b, OwnersOf(keys))
    ensures forall r, k :: Holds(b, r, k) ==> Holds(a, r, k) || Wants(keys, r, k)
  {
    forall r, k | Holds(b, r, k) && !Holds(a, r, k) ensures Wants(keys, r, k) { OwnersWant(keys, r, k); }
  }

  lemma SettledOwner(c: Customers, keys: seq<KeyStore.KeyInfo>, subject: string)
    requires Settled(c, keys) && subject in OwnersOf(keys)
    ensures forall k :: k in WantedOf(subject, OwnersOf(keys)[subject]) ==> Held(c, k)
  {
    forall k | k in WantedOf(subject, OwnersOf(keys)[subject]) ensures Held(c, k) {
      OwnersWant(keys, subject, k);
    }
  }

  lemma StepIsGood(states: seq<Customers>, later: seq<Customers>, first: nat)
    requires first < |states| && GoodSteps(states, first)
    requires later == states || (|later| == |states| + 1 && later[..|states|] == states
                                 && Grew(states[|states| - 1], later[|states|])
                                 && (Unique(states[|states| - 1]) ==> Unique(later[|states|])))
    ensures GoodSteps(later, first)
  {
    hide Grew, Unique;
    forall i, j | first <= i < j < |later| && j == i + 1
      ensures Grew(later[i], later[j]) && (Unique(later[i]) ==> Unique(later[j]))
    {
      if later != states {
        assert later[i] == states[i];
        if j < |states| { assert later[j] == states[j]; }
      }
    }
  }

  ghost predicate NotesTrue(c: Customers, owners: map<string, KeyOwner>, conflicts: map<string, string>) {
    forall k :: k in conflicts ==>
      Holds(c, conflicts[k], k) && exists s :: s in owners && s != conflicts[k] && k in WantedOf(s, owners[s])
  }

  ghost predicate AllPlaced(c: Customers, owners: map<string, KeyOwner>, done: set<string>,
                            conflicts: map<string, string>) {
    forall s, k :: s in done && s in owners && k in WantedOf(s, owners[s]) ==> Placed(c, conflicts, s, k)
  }

  lemma NotesStep(c: Customers, d: Customers, owners: map<string, KeyOwner>, subject: string,
                  before: map<string, string>, after: map<string, string>)
    requires NotesTrue(c, owners, before) && Grew(c, d) && subject in owners
    requires forall k :: k in after ==> (k in before && after[k] == before[k])
                                        || (k in WantedOf(subject, owners[subject]) && after[k] != subject
                                            && Holds(d, after[k], k))
    ensures NotesTrue(d, owners, after)
  {
  }

  lemma PlacedStep(c: Customers, d: Customers, owners: map<string, KeyOwner>, subject: string, done: set<string>,
                   now: set<string>, before: map<string, string>, after: map<string, string>)
    requires AllPlaced(c, owners, done, before) && Grew(c, d) && subject in owners && now <= done + {subject}
    requires forall k :: k in before ==> k in after
    requires NotesTrue(d, owners, after)
    requires forall k :: k in WantedOf(subject, owners[subject]) ==> Placed(d, after, subject, k)
    ensures AllPlaced(d, owners, now, after)
  {
    forall s, k | s in now && s in owners && k in WantedOf(s, owners[s]) ensures Placed(d, after, s, k) {
      if s != subject { assert Placed(c, before, s, k); }
    }
  }

  lemma Conclude(c: Customers, keys: seq<KeyStore.KeyInfo>, conflicts: map<string, string>)
    requires NotesTrue(c, OwnersOf(keys), conflicts) && AllPlaced(c, OwnersOf(keys), OwnersOf(keys).Keys, conflicts)
    ensures forall subject, k :: Wants(keys, subject, k) ==> Placed(c, conflicts, subject, k)
    ensures Unique(c) ==> ExactConflicts(c, keys, conflicts)
  {
    forall subject, k | Wants(keys, subject, k) ensures Placed(c, conflicts, subject, k) {
      OwnersWant(keys, subject, k);
    }
    if Unique(c) {
      forall k, r | Noted(conflicts, k, r) ensures Conflict(c, keys, k, r) {
        var s :| s in OwnersOf(keys) && s != conflicts[k] && k in WantedOf(s, OwnersOf(keys)[s]);
        OwnersWant(keys, s, k);
      }
      forall k, r | Conflict(c, keys, k, r) ensures Noted(conflicts, k, r) {
        var subject :| subject != r && Wants(keys, subject, k);
        assert Placed(c, conflicts, subject, k);
      }
    }
  }

  /** After an error-free sync every wanted key is held by someone: the next one has nothing to write. */
  lemma PlacedIsSettled(c: Customers, keys: seq<KeyStore.KeyInfo>, conflicts: map<string, string>)
    requires forall subject, k :: Wants(keys, subject, k) ==> Placed(c, conflicts, subject, k)
    ensures Settled(c, keys)
  {
    forall subject, k | Wants(keys, subject, k) ensures Held(c, k) {
      assert Placed(c, conflicts, subject, k);
    }
  }

  lemma ConflictsAreUnique(c: Customers, keys: seq<KeyStore.KeyInfo>, one: map<string, string>,
                           two: map<string, string>)
    requires ExactConflicts(c, keys, one) && ExactConflicts(c, keys, two)
    ensures one == two
  {
    forall k | k in one ensures k in two && two[k] == one[k] {
      assert Noted(one, k, one[k]);
      assert Noted(two, k, one[k]);
    }
    forall k | k in two ensures k in one { assert Noted(two, k, two[k]); assert Noted(one, k, two[k]); }
  }

  /** Two syncs with nothing changed outside: the second writes nothing and has nothing new to warn about. */
  method SyncTwice(s: Syncer, om: OpenMeter, keys: seq<KeyStore.KeyInfo>)
    returns (first: seq<string>, second: seq<string>, ghost between: nat, warned: set<string>)
    requires om.Valid() && Unique(om.customers)
    modifies om, s
    ensures Unique(om.customers)
    ensures first == [] ==> om.writes == between
    ensures first == [] && second == [] ==> warned == {} && ExactConflicts(om.customers, keys, s.lastConflicts)
  {
    ghost var c := om.customers;
    first, warned := s.Sync(om, keys);
    between := om.writes;
    ghost var conflicts := s.lastConflicts;
    if first == [] { PlacedIsSettled(om.customers, keys, conflicts); }
    second, warned := s.Sync(om, keys);
    if first == [] && second == [] { ConflictsAreUnique(om.customers, keys, conflicts, s.lastConflicts); }
  }
}
