/**
 tokensOf: the token counts of a page of receipts, twenty receipts a query, each receipt asked for by its
 ID joined to every token type. One lookup per receipt would find the same counts.
 */
module TokenLookup {
  import opened Common
  import opened Receipts

  const BATCH := 20

  const TOKEN_TYPES := ["input", "cache_read", "cache_write", "output", "reasoning"]

  datatype TokenEvent = TokenEvent(id: string, at: int, tokens: int)

  /** By receipt, then by token type. */
  type Counts = map<string, map<string, int>>

  // ---- Joining and splitting IDs ----

  /** strings.LastIndex(s, ":"). */
  function LastColon(s: string): (i: int)
    ensures -1 <= i < |s| && (i >= 0 ==> s[i] == ':') && forall j :: i < j < |s| ==> s[j] != ':'
  {
    if s == "" then -1 else if s[|s| - 1] == ':' then |s| - 1 else LastColon(s[..|s| - 1])
  }

  function Joined(id: string, typ: string): string { id + ":" + typ }

  /** A type has no colon, so splitting at the last colon undoes joining, whatever colons the ID has. */
  lemma SplitUndoesJoin(id: string, typ: string)
    requires ':' !in typ
    ensures LastColon(Joined(id, typ)) == |id|
    ensures Joined(id, typ)[..|id|] == id && Joined(id, typ)[|id| + 1..] == typ
  {
    var s := Joined(id, typ);
    assert s[|id|] == ':';
    assert forall j :: |id| < j < |s| ==> s[j] == typ[j - |id| - 1] && s[j] in typ;
  }

  lemma JoinUndoesSplit(s: string)
    requires LastColon(s) >= 0
    ensures Joined(s[..LastColon(s)], s[LastColon(s) + 1..]) == s && ':' !in s[LastColon(s) + 1..]
  {
  }

  lemma TypesHaveNoColon(typ: string)
    requires typ in TOKEN_TYPES
    ensures ':' !in typ
  {
  }

  // ---- Queries ----

  datatype Lookup = Lookup(ids: seq<string>, since: int, before: int)

  function IdsOf(id: string, types: seq<string>): seq<string> {
    if types == [] then [] else IdsOf(id, types[..|types| - 1]) + [Joined(id, types[|types| - 1])]
  }

  function Second(ts: int): int { ts / 1000 * 1000 }

  /** Adding a receipt to a batch's query. */
  function Widen(q: Lookup, empty: bool, r: Receipt): Lookup {
    var at := Second(r.ts);
    Lookup(q.ids + IdsOf(r.id, TOKEN_TYPES),
           if empty || at < q.since then at else q.since,
           if empty || at + 1000 > q.before then at + 1000 else q.before)
  }

  function QueryOf(batch: seq<Receipt>): Lookup {
    if batch == [] then Lookup([], 0, 0)
    else Widen(QueryOf(batch[..|batch| - 1]), |batch| == 1, batch[|batch| - 1])
  }

  /** A batch's query runs from its earliest receipt's second to the end of its latest one's. */
  lemma {:induction false} QuerySpansSeconds(batch: seq<Receipt>)
    requires batch != []
    ensures var q := QueryOf(batch);
            && (forall r :: r in batch ==> q.since <= r.ts / 1000 * 1000 && r.ts / 1000 * 1000 + 1000 <= q.before)
            && (exists r :: r in batch && q.since == r.ts / 1000 * 1000)
            && (exists r :: r in batch && q.before == r.ts / 1000 * 1000 + 1000)
  {
    var n := |batch| - 1;
    var q, r := QueryOf(batch[..n]), batch[n];
    assert forall x :: x in batch <==> x in batch[..n] || x == r;
    if n > 0 {
      QuerySpansSeconds(batch[..n]);
    }
  }

  predicate InLookup(q: Lookup, e: TokenEvent) {
    e.id in q.ids && q.since * MILLISECOND <= e.at < q.before * MILLISECOND
  }

  function Answer(q: Lookup, store: seq<TokenEvent>): seq<TokenEvent> {
    Filter((e: TokenEvent) => InLookup(q, e), store)
  }

  function Put(out: Counts, id: string, typ: string, n: int): Counts {
    out[id := (if id in out then out[id] else map[])[typ := n]]
  }

  /** One event of the answer. */
  function PutEvent(out: Counts, e: TokenEvent): Counts {
    var i := LastColon(e.id);
    if i >= 0 then Put(out, e.id[..i], e.id[i + 1..], e.tokens) else out
  }

  function PutEvents(out: Counts, es: seq<TokenEvent>): Counts {
    if es == [] then out else PutEvent(PutEvents(out, es[..|es| - 1]), es[|es| - 1])
  }

  function Size(rs: seq<Receipt>): (n: nat)
    ensures n <= |rs| && (rs != [] ==> n > 0)
  {
    if |rs| < BATCH then |rs| else BATCH
  }

  function TokensFrom(out: Counts, rs: seq<Receipt>, store: seq<TokenEvent>): Counts
    decreases |rs|
  {
    if rs == [] then out
    else TokensFrom(PutEvents(out, Answer(QueryOf(rs[..Size(rs)]), store)), rs[Size(rs)..], store)
  }

  /** A batch is the next twenty receipts, or all that are left. */
  lemma SizeIsTwenty(rs: seq<Receipt>)
    ensures Size(rs) == if |rs| >= 20 then 20 else |rs|
  {
  }

  /** store is every llm.tokens event, in the order the API lists events. */
  method TokensOf(rs: seq<Receipt>, store: seq<TokenEvent>) returns (out: Counts)
    ensures out == TokensFrom(map[], rs, store)
  {
    hide Answer, PutEvents;
    out := map[];
    var start := 0;
    while start < |rs|
      invariant 0 <= start <= |rs|
      invariant TokensFrom(out, rs[start..], store) == TokensFrom(map[], rs, store)
    {
      var end := if start + BATCH < |rs| then start + BATCH else |rs|;
      var batch := rs[start..end];
      assert rs[start..][..Size(rs[start..])] == batch && rs[start..][Size(rs[start..])..] == rs[end..];
      var q := BuildQuery(batch);
      var es := Answer(q, store);
      out := Collect(out, es);
      start := end;
    }
    assert rs[start..] == [];
  }

  method Collect(before: Counts, es: seq<TokenEvent>) returns (out: Counts)
    ensures out == PutEvents(before, es)
  {
    out := before;
    for i := 0 to |es|
      invariant out == PutEvents(before, es[..i])
    {
      assert es[..i + 1][..i] == es[..i];
      var c := LastColon(es[i].id);
      if c >= 0 {
        var id, typ := es[i].id[..c], es[i].id[c + 1..];
        var counts := if id in out then out[id] else map[];
        out := out[id := counts[typ := es[i].tokens]];
      }
    }
    assert es[..|es|] == es;
  }

  method BuildQuery(batch: seq<Receipt>) returns (q: Lookup)
    ensures q == QueryOf(batch)
  {
    q := Lookup([], 0, 0);
    for i := 0 to |batch|
      invariant q == QueryOf(batch[..i])
    {
      assert batch[..i + 1][..i] == batch[..i];
      ghost var before := q;
      for k := 0 to |TOKEN_TYPES|
        invariant q == before.(ids := before.ids + IdsOf(batch[i].id, TOKEN_TYPES[..k]))
      {
        assert TOKEN_TYPES[..k + 1][..k] == TOKEN_TYPES[..k];
        q := q.(ids := q.ids + [Joined(batch[i].id, TOKEN_TYPES[k])]);
      }
      assert TOKEN_TYPES[..|TOKEN_TYPES|] == TOKEN_TYPES;
      var at := Second(batch[i].ts);
      if i == 0 || at < q.since { q := q.(since := at); }
      if i == 0 || at + 1000 > q.before { q := q.(before := at + 1000); }
    }
    assert batch[..|batch|] == batch;
  }

  // ---- What is found ----

  function Found(out: Counts, id: string, typ: string): Option<int> {
    if id in out && typ in out[id] then Some(out[id][typ]) else None
  }

  /** The tokens of the last listed event with this ID. */
  function LastWith(es: seq<TokenEvent>, key: string): Option<int> {
    if es == [] then None
    else if es[|es| - 1].id == key then Some(es[|es| - 1].tokens)
    else LastWith(es[..|es| - 1], key)
  }

  lemma FoundInOne(out: Counts, e: TokenEvent, id: string, typ: string)
    requires ':' !in typ
    ensures Found(PutEvent(out, e), id, typ) == if e.id == Joined(id, typ) then Some(e.tokens) else Found(out, id, typ)
  {
    SplitUndoesJoin(id, typ);
    if LastColon(e.id) >= 0 { JoinUndoesSplit(e.id); }
    hide LastColon;
  }

  lemma {:induction false} FoundInEvents(out: Counts, es: seq<TokenEvent>, id: string, typ: string)
    requires ':' !in typ
    ensures Found(PutEvents(out, es), id, typ) ==
              var last := LastWith(es, Joined(id, typ)); if last.Some? then last else Found(out, id, typ)
  {
    if es != [] {
      FoundInEvents(out, es[..|es| - 1], id, typ);
      FoundInOne(PutEvents(out, es[..|es| - 1]), es[|es| - 1], id, typ);
      hide PutEvent, Found, Joined;
    }
  }

  lemma {:induction false} IdsOfMember(id: string, types: seq<string>, key: string)
    ensures key in IdsOf(id, types) <==> exists typ :: typ in types && key == Joined(id, typ)
  {
    if types != [] {
      var rest, last := types[..|types| - 1], types[|types| - 1];
      IdsOfMember(id, rest, key);
      assert forall typ :: typ in types <==> typ in rest || typ == last;
    }
  }

  ghost predicate Asked(rs: seq<Receipt>, id: string) { exists r :: r in rs && r.id == id }

  /** The batch's query names exactly the receipts' token events and covers each receipt's second. */
  lemma {:induction false} QueryCovers(batch: seq<Receipt>, id: string, typ: string)
    requires ':' !in typ
    ensures Joined(id, typ) in QueryOf(batch).ids <==> Asked(batch, id) && typ in TOKEN_TYPES
    ensures forall r :: r in batch ==>
              QueryOf(batch).since <= Second(r.ts) && Second(r.ts) + 1000 <= QueryOf(batch).before
  {
    if batch != [] {
      var rest, r := batch[..|batch| - 1], batch[|batch| - 1];
      QueryCovers(rest, id, typ);
      IdsOfMember(r.id, TOKEN_TYPES, Joined(id, typ));
      assert Asked(batch, id) <==> Asked(rest, id) || r.id == id by {
        assert forall x :: x in batch <==> x in rest || x == r;
        assert r in batch;
      }
      JoinedIsInjective(r.id, id, typ);
    }
  }

  lemma JoinedIsInjective(a: string, id: string, typ: string)
    requires ':' !in typ
    ensures (exists t :: t in TOKEN_TYPES && Joined(id, typ) == Joined(a, t)) <==> a == id && typ in TOKEN_TYPES
  {
    SplitUndoesJoin(id, typ);
    forall t | t in TOKEN_TYPES && Joined(id, typ) == Joined(a, t) ensures a == id && t == typ {
      TypesHaveNoColon(t);
      SplitUndoesJoin(a, t);
    }
  }

  /** The receipt's token events carry its time, to the second. */
  ghost predicate SameSecond(r: Receipt, store: seq<TokenEvent>) {
    forall e, typ :: e in store && typ in TOKEN_TYPES && e.id == Joined(r.id, typ) ==>
      Second(r.ts) * MILLISECOND <= e.at < (Second(r.ts) + 1000) * MILLISECOND
  }

  lemma {:induction false} AnswerHasAll(q: Lookup, store: seq<TokenEvent>, key: string)
    requires key in q.ids
             && forall e :: e in store && e.id == key ==> q.since * MILLISECOND <= e.at < q.before * MILLISECOND
    ensures LastWith(Answer(q, store), key) == LastWith(store, key)
  {
    if store != [] {
      var rest, e := store[..|store| - 1], store[|store| - 1];
      AnswerHasAll(q, rest, key);
      assert Answer(q, rest) == Filter((e: TokenEvent) => InLookup(q, e), rest);
      AnswerNext(q, rest, e);
      assert store == rest + [e];
      if InLookup(q, e) { assert (Answer(q, rest) + [e])[..|Answer(q, rest)|] == Answer(q, rest); }
    }
  }

  lemma AnswerNext(q: Lookup, store: seq<TokenEvent>, e: TokenEvent)
    ensures Answer(q, store + [e]) == if InLookup(q, e) then Answer(q, store) + [e] else Answer(q, store)
  {
    assert (store + [e])[..|store|] == store;
  }

  lemma {:induction false} AnswerHasNone(es: seq<TokenEvent>, key: string)
    requires forall e :: e in es ==> e.id != key
    ensures LastWith(es, key) == None
  {
    if es != [] { AnswerHasNone(es[..|es| - 1], key); }
  }

  /** One batch finds, for each of its receipts, what all events say, and leaves the others alone. */
  lemma BatchFinds(out: Counts, batch: seq<Receipt>, store: seq<TokenEvent>, id: string, typ: string)
    requires ':' !in typ && forall r :: r in batch ==> SameSecond(r, store)
    ensures Found(PutEvents(out, Answer(QueryOf(batch), store)), id, typ) ==
              if Asked(batch, id) && typ in TOKEN_TYPES && LastWith(store, Joined(id, typ)).Some?
              then LastWith(store, Joined(id, typ)) else Found(out, id, typ)
  {
    var q, key := QueryOf(batch), Joined(id, typ);
    FoundInEvents(out, Answer(q, store), id, typ);
    QueryCovers(batch, id, typ);
    FilterMember((e: TokenEvent) => InLookup(q, e), store);
    if key in q.ids {
      var r :| r in batch && r.id == id;
      assert SameSecond(r, store);
      forall e | e in store && e.id == key ensures q.since * MILLISECOND <= e.at < q.before * MILLISECOND {}
      AnswerHasAll(q, store, key);
    } else {
      assert forall e :: e in Answer(q, store) ==> e.id in q.ids;
      AnswerHasNone(Answer(q, store), key);
    }
  }

  lemma {:induction false} TokensFromFinds(out: Counts, rs: seq<Receipt>, store: seq<TokenEvent>, id: string,
                                           typ: string)
    requires ':' !in typ && forall r :: r in rs ==> SameSecond(r, store)
    ensures Found(TokensFrom(out, rs, store), id, typ) ==
              if Asked(rs, id) && typ in TOKEN_TYPES && LastWith(store, Joined(id, typ)).Some?
              then LastWith(store, Joined(id, typ)) else Found(out, id, typ)
    decreases |rs|
  {
    hide PutEvents, QueryOf, Answer, LastWith, Found;
    if rs != [] {
      var batch, rest := rs[..Size(rs)], rs[Size(rs)..];
      var next := PutEvents(out, Answer(QueryOf(batch), store));
      BatchFinds(out, batch, store, id, typ);
      TokensFromFinds(next, rest, store, id, typ);
      assert rs == batch + rest;
      assert Asked(rs, id) <==> Asked(batch, id) || Asked(rest, id) by {
        assert forall r :: r in rs <==> r in batch || r in rest;
      }
    }
  }

  /** Batched or one by one, every receipt gets the same count of every type. */
  lemma BatchedIsSeparate(rs: seq<Receipt>, store: seq<TokenEvent>, r: Receipt, typ: string)
    requires r in rs && typ in TOKEN_TYPES && forall x :: x in rs ==> SameSecond(x, store)
    ensures Found(TokensFrom(map[], rs, store), r.id, typ) == Found(TokensFrom(map[], [r], store), r.id, typ)
            == LastWith(store, Joined(r.id, typ))
  {
    TypesHaveNoColon(typ);
    TokensFromFinds(map[], rs, store, r.id, typ);
    TokensFromFinds(map[], [r], store, r.id, typ);
    assert Asked(rs, r.id) && Asked([r], r.id);
  }

  /** Nothing is found for a receipt that was not asked for. */
  lemma OnlyAsked(rs: seq<Receipt>, store: seq<TokenEvent>, id: string, typ: string)
    requires ':' !in typ && forall x :: x in rs ==> SameSecond(x, store)
    ensures Found(TokensFrom(map[], rs, store), id, typ).Some? ==> Asked(rs, id) && typ in TOKEN_TYPES
  {
    TokensFromFinds(map[], rs, store, id, typ);
  }

  /** A count sent a second late is found only in company: without the hypothesis the two lookups differ. */
  lemma LateTokensDiffer(fields: Fields)
    ensures var a, b := Receipt("a", 0, fields), Receipt("b", 1000, fields);
            var store := [TokenEvent("a:input", 1000 * MILLISECOND, 7)];
            Found(TokensFrom(map[], [a, b], store), "a", "input") == Some(7)
            && Found(TokensFrom(map[], [a], store), "a", "input") == None
  {
    var a, b := Receipt("a", 0, fields), Receipt("b", 1000, fields);
    var e := TokenEvent("a:input", 1000 * MILLISECOND, 7);
    assert TOKEN_TYPES[0] == "input" && Joined("a", "input") == "a:input";
    TypesHaveNoColon("input");
    hide TokensFrom, QueryOf, LastColon, InLookup;
    OneBatch([a, b], [e]);
    OneBatch([a], [e]);
    FoundIfAnswered(QueryOf([a, b]), e, "a", "input");
    FoundIfAnswered(QueryOf([a]), e, "a", "input");
    InPair(a, b, e);
    NotAlone(a, e);
  }

  lemma InPair(a: Receipt, b: Receipt, e: TokenEvent)
    requires a.ts == 0 && b.ts == 1000 && e.id == Joined(a.id, "input") && e.at == 1000 * MILLISECOND
    ensures InLookup(QueryOf([a, b]), e)
  {
    assert TOKEN_TYPES[0] == "input";
    TypesHaveNoColon("input");
    QueryCovers([a, b], a.id, "input");
    assert a in [a, b] && b in [a, b] && Asked([a, b], a.id);
    hide QueryOf;
  }

  lemma NotAlone(a: Receipt, e: TokenEvent)
    requires a.ts == 0 && e.at == 1000 * MILLISECOND
    ensures !InLookup(QueryOf([a]), e)
  {
    assert [a][..0] == [];
    assert QueryOf([a]) == Widen(QueryOf([]), true, a);
  }

  lemma OneBatch(rs: seq<Receipt>, store: seq<TokenEvent>)
    requires 0 < |rs| <= BATCH
    ensures TokensFrom(map[], rs, store) == PutEvents(map[], Answer(QueryOf(rs), store))
  {
    assert rs[..Size(rs)] == rs && rs[Size(rs)..] == [];
    hide PutEvents, Answer, QueryOf;
  }

  lemma FoundIfAnswered(q: Lookup, e: TokenEvent, id: string, typ: string)
    requires ':' !in typ && e.id == Joined(id, typ)
    ensures Found(PutEvents(map[], Answer(q, [e])), id, typ) == if InLookup(q, e) then Some(e.tokens) else None
  {
    AnswerNext(q, [], e);
    assert [] + [e] == [e];
    FoundInEvents(map[], Answer(q, [e]), id, typ);
  }

  // ---- Exactly when company changes a count ----

  /** The batch a receipt is looked up in. */
  ghost function BatchOf(rs: seq<Receipt>, id: string): seq<Receipt>
    decreases |rs|
  {
    if rs == [] then []
    else if Asked(rs[..Size(rs)], id) then rs[..Size(rs)]
    else BatchOf(rs[Size(rs)..], id)
  }

  function LastEvent(es: seq<TokenEvent>, key: string): Option<TokenEvent> {
    if es == [] then None
    else if es[|es| - 1].id == key then Some(es[|es| - 1])
    else LastEvent(es[..|es| - 1], key)
  }

  lemma {:induction false} LastHasTokens(es: seq<TokenEvent>, key: string)
    ensures var e := LastEvent(es, key);
            LastWith(es, key) == (if e.Some? then Some(e.value.tokens) else None) && (e.Some? ==> e.value.id == key)
  {
    if es != [] { LastHasTokens(es[..|es| - 1], key); }
  }

  /** A narrower query finds the same last event if it covers it, and nothing where the wider one does. */
  lemma {:induction false} LastInNarrower(wide: Lookup, narrow: Lookup, store: seq<TokenEvent>, key: string)
    requires forall e: TokenEvent :: e.id == key && InLookup(narrow, e) ==> InLookup(wide, e)
    ensures var e := LastEvent(Answer(wide, store), key);
            && (e.None? ==> LastEvent(Answer(narrow, store), key).None?)
            && (e.Some? && InLookup(narrow, e.value) ==> LastEvent(Answer(narrow, store), key) == e)
  {
    if store != [] {
      var rest, e := store[..|store| - 1], store[|store| - 1];
      LastInNarrower(wide, narrow, rest, key);
      assert store == rest + [e];
      AnswerNext(wide, rest, e);
      AnswerNext(narrow, rest, e);
      hide Answer, InLookup;
      LastNext(Answer(wide, rest), e, key);
      LastNext(Answer(narrow, rest), e, key);
    }
  }

  lemma LastNext(es: seq<TokenEvent>, e: TokenEvent, key: string)
    ensures LastEvent(es + [e], key) == if e.id == key then Some(e) else LastEvent(es, key)
  {
    assert (es + [e])[..|es|] == es;
  }

  lemma NotAskedNotAnswered(batch: seq<Receipt>, store: seq<TokenEvent>, id: string, typ: string)
    requires ':' !in typ && !(Asked(batch, id) && typ in TOKEN_TYPES)
    ensures LastWith(Answer(QueryOf(batch), store), Joined(id, typ)) == None
  {
    var q := QueryOf(batch);
    QueryCovers(batch, id, typ);
    FilterMember((e: TokenEvent) => InLookup(q, e), store);
    AnswerHasNone(Answer(q, store), Joined(id, typ));
  }

  /** What is found for a receipt is what its own batch's query answers. */
  lemma {:induction false} FoundByItsBatch(out: Counts, rs: seq<Receipt>, store: seq<TokenEvent>, id: string,
                                           typ: string)
    requires ':' !in typ && DistinctBy(ReceiptId, rs)
    ensures var last := LastWith(Answer(QueryOf(BatchOf(rs, id)), store), Joined(id, typ));
            Found(TokensFrom(out, rs, store), id, typ) ==
              if Asked(rs, id) && last.Some? then last else Found(out, id, typ)
    decreases |rs|
  {
    if rs != [] {
      var batch, rest := rs[..Size(rs)], rs[Size(rs)..];
      var answer := Answer(QueryOf(batch), store);
      FoundInEvents(out, answer, id, typ);
      FoundByItsBatch(PutEvents(out, answer), rest, store, id, typ);
      if !Asked(batch, id) { NotAskedNotAnswered(batch, store, id, typ); }
      assert rs == batch + rest;
      assert Asked(rs, id) <==> Asked(batch, id) || Asked(rest, id) by {
        assert forall r :: r in rs <==> r in batch || r in rest;
      }
      assert !(Asked(batch, id) && Asked(rest, id)) by { OneBatchAsks(rs, Size(rs), id); }
      hide PutEvents, QueryOf, Answer, LastWith, Found, Asked, DistinctBy;
    }
  }

  lemma OneBatchAsks(rs: seq<Receipt>, n: nat, id: string)
    requires DistinctBy(ReceiptId, rs) && n <= |rs|
    ensures !(Asked(rs[..n], id) && Asked(rs[n..], id))
  {
    forall i, j | 0 <= i < n <= j < |rs| && rs[i].id == id ensures rs[j].id != id {}
  }

  predicate InSecond(r: Receipt, e: TokenEvent) {
    Second(r.ts) * MILLISECOND <= e.at < (Second(r.ts) + 1000) * MILLISECOND
  }

  lemma AloneIsItsSecond(r: Receipt, e: TokenEvent, typ: string)
    requires typ in TOKEN_TYPES && e.id == Joined(r.id, typ)
    ensures InLookup(QueryOf([r]), e) <==> InSecond(r, e)
  {
    TypesHaveNoColon(typ);
    QueryCovers([r], r.id, typ);
    assert r in [r];
    assert [r][..0] == [];
    assert QueryOf([r]) == Widen(QueryOf([]), true, r);
  }

  lemma {:induction false} ItsBatchHasIt(rs: seq<Receipt>, r: Receipt)
    requires r in rs && DistinctBy(ReceiptId, rs)
    ensures r in BatchOf(rs, r.id)
    decreases |rs|
  {
    var batch, rest := rs[..Size(rs)], rs[Size(rs)..];
    assert rs == batch + rest;
    if r in rest {
      assert Asked(rest, r.id);
      OneBatchAsks(rs, Size(rs), r.id);
      ItsBatchHasIt(rest, r);
    }
  }

  lemma BatchIsWider(rs: seq<Receipt>, r: Receipt, typ: string, e: TokenEvent)
    requires r in rs && DistinctBy(ReceiptId, rs) && typ in TOKEN_TYPES && e.id == Joined(r.id, typ) && InSecond(r, e)
    ensures InLookup(QueryOf(BatchOf(rs, r.id)), e)
  {
    TypesHaveNoColon(typ);
    ItsBatchHasIt(rs, r);
    var batch := BatchOf(rs, r.id);
    QueryCovers(batch, r.id, typ);
    assert Asked(batch, r.id);
    hide QueryOf, BatchOf;
  }

  /**
   For any events: looked up in company or alone, a receipt of a list that holds each once gets the same count
   if and only if the last event its batch's query finds for it, if any, is of its own second, or the last
   one of its own second happens to carry the same count.
   */
  lemma BatchedIsSeparateExactly(rs: seq<Receipt>, store: seq<TokenEvent>, r: Receipt, typ: string)
    requires r in rs && typ in TOKEN_TYPES && DistinctBy(ReceiptId, rs)
    ensures var e := LastEvent(Answer(QueryOf(BatchOf(rs, r.id)), store), Joined(r.id, typ));
            Found(TokensFrom(map[], rs, store), r.id, typ) == Found(TokensFrom(map[], [r], store), r.id, typ)
            <==> e.None? || InSecond(r, e.value)
                 || LastWith(Answer(QueryOf([r]), store), Joined(r.id, typ)) == Some(e.value.tokens)
  {
    var key, wide, narrow := Joined(r.id, typ), QueryOf(BatchOf(rs, r.id)), QueryOf([r]);
    TypesHaveNoColon(typ);
    FoundByItsBatch(map[], rs, store, r.id, typ);
    FoundByItsBatch(map[], [r], store, r.id, typ);
    assert Asked(rs, r.id) && Asked([r], r.id) && [r][..Size([r])] == [r] && BatchOf([r], r.id) == [r];
    forall e: TokenEvent | e.id == key ensures InLookup(narrow, e) <==> InSecond(r, e) { AloneIsItsSecond(r, e, typ); }
    forall e: TokenEvent | e.id == key && InSecond(r, e) ensures InLookup(wide, e) { BatchIsWider(rs, r, typ, e); }
    LastInNarrower(wide, narrow, store, key);
    LastHasTokens(Answer(wide, store), key);
    LastHasTokens(Answer(narrow, store), key);
    hide TokensFrom, QueryOf, BatchOf, Answer, LastWith, LastEvent, InLookup, InSecond, Asked, DistinctBy, Joined;
  }
}
