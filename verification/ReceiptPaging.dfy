/**
 Traffic's list over a closed window: the first page, then older pages as the user scrolls. Pages are
 asked for by time, overlap by the millisecond they stopped in, and may come back short because the
 server stopped looking; the list drops what it already has. Events are fixed while it loads.
 */
module ReceiptPaging {
  import opened Common
  import opened Receipts
  import opened ReceiptScan

  const PAGE := 200

  predicate InWindow(since: int, before: int, e: RequestEvent) {
    (since > 0 ==> e.at >= since * MILLISECOND) && (before > 0 ==> e.at < before * MILLISECOND)
  }

  /** What the event query returns: the window's events, newest first as the server keeps them. */
  function Query(all: seq<RequestEvent>, since: int, before: int): seq<RequestEvent> {
    Filter((e: RequestEvent) => InWindow(since, before, e), all)
  }

  ghost predicate NewestFirst(es: seq<RequestEvent>) {
    forall i, j :: 0 <= i < j < |es| ==> es[i].at >= es[j].at
  }

  function At(es: seq<RequestEvent>, t: int): seq<RequestEvent> { Filter((e: RequestEvent) => Millis(e.at) == t, es) }

  /** No millisecond holds as many events as one read looks through, or as many matches as one page. */
  ghost predicate Spread(atoi: Atoi, f: ReceiptFilter, es: seq<RequestEvent>) {
    forall t: int :: |At(es, t)| < SCAN_CAP && |MatchingReceipts(atoi, f, At(es, t))| < PAGE
  }

  function Ids(rows: seq<Receipt>): set<string> { set r | r in rows :: r.id }

  /** rows.filter((r) => !seen.has(r.id)). */
  function Unseen(seen: set<string>, rows: seq<Receipt>): seq<Receipt> { Filter((r: Receipt) => r.id !in seen, rows) }

  // ---- The list while it loads ----

  /** A filtered list over the window [since, before) of all events. */
  datatype Listing = Listing(atoi: Atoi, filter: ReceiptFilter, all: seq<RequestEvent>, since: int, before: int)

  function Window(q: Listing): seq<RequestEvent> { Query(q.all, q.since, q.before) }

  /** The window has an end, and the server keeps its events newest first and each once. */
  ghost predicate Closed(q: Listing) { q.before > 0 && NewestFirst(q.all) && DistinctBy(EventId, q.all) }

  /** What the whole list holds. */
  function Wanted(q: Listing): seq<Receipt> { MatchingReceipts(q.atoi, q.filter, Window(q)) }

  /** An event of the window that the filter asks for, in the event's own terms. */
  ghost predicate Expected(q: Listing, e: RequestEvent) {
    && (q.since > 0 ==> e.at >= q.since * 1_000_000) && (q.before > 0 ==> e.at < q.before * 1_000_000)
    && AskedFor(q.atoi, q.filter, e.group)
  }

  /** Rows that show exactly the expected events, newest first and each once. */
  ghost predicate ShowsExpected(q: Listing, rows: seq<Receipt>) {
    && (forall i, j :: 0 <= i < j < |rows| ==> rows[i].ts >= rows[j].ts && rows[i].id != rows[j].id)
    && (forall r :: r in rows ==> exists e :: e in q.all && Shows(q.atoi, r, e))
    && (forall e :: e in q.all ==> ((exists r :: r in rows && Shows(q.atoi, r, e)) <==> Expected(q, e)))
  }

  /** GET /receipts: one scan of the events in [since, until). */
  function Page(q: Listing, until: int): Scanned { Scan(q.atoi, q.filter, PAGE, Query(q.all, q.since, until)) }

  /** The list: its rows, whether its end was reached, and where the server stopped looking, if it did. */
  datatype Loaded = Loaded(rows: seq<Receipt>, ended: bool, more: Option<int>)

  function More(r: Scanned): Option<int> { if r.continueBefore > 0 then Some(r.continueBefore) else None }

  function FirstOf(r: Scanned): Loaded { Loaded(r.out, |r.out| < PAGE && More(r).None?, More(r)) }

  /** Where older rows are asked from: where the server stopped looking, or just after the oldest row. */
  function NextBefore(p: Loaded): Option<int> {
    if p.more.Some? then p.more else if p.rows == [] then None else Some(p.rows[|p.rows| - 1].ts + 1)
  }

  /** One more page, of which only what is not there yet is kept. */
  function Extended(p: Loaded, r: Scanned): Loaded {
    var older := Unseen(Ids(p.rows), r.out);
    Loaded(p.rows + older, More(r).None? && (|r.out| < PAGE || older == []), More(r))
  }

  function Next(q: Listing, p: Loaded): Loaded {
    if p.ended || NextBefore(p).None? then p else Extended(p, Page(q, NextBefore(p).value))
  }

  /** After the first page and n times scrolling to its end. */
  function Scrolled(q: Listing, n: nat): Loaded {
    if n == 0 then FirstOf(Page(q, q.before)) else Next(q, Scrolled(q, n - 1))
  }

  // ---- Milliseconds too crowded to get past ----

  predicate Heads(es: seq<RequestEvent>, c: nat) {
    c < |es| && (c == 0 || Millis(es[c - 1].at) != Millis(es[c].at))
  }

  function ScanAt(atoi: Atoi, f: ReceiptFilter, es: seq<RequestEvent>, c: nat): Scanned
    requires c <= |es|
  {
    Scan(atoi, f, PAGE, es[c..])
  }

  predicate IsCapped(r: Scanned) { r.continueBefore > 0 }
  predicate IsFull(r: Scanned) { r.continueBefore <= 0 && |r.out| >= PAGE }

  /** A scan from the first event of a millisecond, at c, stops inside that millisecond. */
  predicate Traps(atoi: Atoi, f: ReceiptFilter, es: seq<RequestEvent>, c: nat) {
    && Heads(es, c)
    && var r := ScanAt(atoi, f, es, c);
       (IsCapped(r) || IsFull(r)) && 0 < r.scanned <= |es| - c && Millis(es[c + r.scanned - 1].at) == Millis(es[c].at)
  }

  function Stop(atoi: Atoi, f: ReceiptFilter, es: seq<RequestEvent>, c: nat): nat
    requires c <= |es|
  {
    c + ScanAt(atoi, f, es, c).scanned
  }

  /** The first such millisecond of the window, newest first. */
  ghost predicate FirstTrap(q: Listing, c: nat) {
    Traps(q.atoi, q.filter, Window(q), c) && forall b: nat :: b < c ==> !Traps(q.atoi, q.filter, Window(q), b)
  }

  function TrapScan(q: Listing, c: nat): Scanned
    requires c <= |Window(q)|
  {
    ScanAt(q.atoi, q.filter, Window(q), c)
  }

  /** It is a page that stops the scan there, or the cap. */
  ghost predicate FullTrap(q: Listing, c: nat) { FirstTrap(q, c) && IsFull(TrapScan(q, c)) }
  ghost predicate CappedTrap(q: Listing, c: nat) { FirstTrap(q, c) && IsCapped(TrapScan(q, c)) }

  /** The matches behind the place where the scan from c stops. */
  function Behind(q: Listing, c: nat): seq<Receipt> {
    if c <= |Window(q)| && Stop(q.atoi, q.filter, Window(q), c) <= |Window(q)|
    then MatchingReceipts(q.atoi, q.filter, Window(q)[Stop(q.atoi, q.filter, Window(q), c)..])
    else []
  }

  // ---- The feed's code ----

  class Feed {
    const q: Listing
    var rows: seq<Receipt>
    var loaded: bool
    var reachedEnd: bool
    var continueBefore: Option<int>

    constructor (q: Listing)
      ensures this.q == q && rows == [] && !loaded && !reachedEnd && continueBefore == None
    {
      this.q, rows, loaded, reachedEnd, continueBefore := q, [], false, false, None;
    }

    function View(): Loaded
      reads this
    {
      Loaded(rows, reachedEnd, continueBefore)
    }

    method Fetch(until: int) returns (page: seq<Receipt>, more: Option<int>)
      ensures page == Page(q, until).out && more == More(Page(q, until))
    {
      var r := Page(q, until);
      page := r.out;
      more := if r.continueBefore > 0 then Some(r.continueBefore) else None;
    }

    /** The rows are the matches among the window's first k events. */
    method FirstPage() returns (ghost k: nat)
      modifies this
      ensures loaded && View() == Scrolled(q, 0)
      ensures Closed(q) ==> Reached(q, View(), k)
    {
      hide Page, Reached, Closed;
      var page, more := Fetch(q.before);
      rows, loaded, continueBefore := page, true, more;
      reachedEnd := |page| < PAGE && more.None?;
      k := 0;
      if Closed(q) { k := StartsLoaded(q); }
    }

    /** loadOlder: the rows stay, and the matches of further events are added, unless a millisecond traps it. */
    method LoadOlder(ghost k: nat) returns (ghost k': nat)
      requires Closed(q) && loaded ==> Reached(q, View(), k)
      modifies this
      ensures loaded == old(loaded) && View() == (if loaded then Next(q, old(View())) else old(View()))
      ensures old(rows) <= rows
      ensures Closed(q) && loaded ==> Reached(q, View(), k') && k <= k'
      ensures Closed(q) && loaded && k' == k ==>
                reachedEnd || exists c :: CappedTrap(q, c)
    {
      hide Page, Reached, Closed, Unseen, CappedTrap;
      k' := k;
      if Closed(q) && loaded { k' := NextLoads(q, View(), k); }
      var from := NextBefore(View());
      if reachedEnd || !loaded || from.None? { return; }
      var page, more := Fetch(from.value);
      var older := Unseen(Ids(rows), page);
      rows := rows + older;
      reachedEnd := more.None? && (|page| < PAGE || older == []);
      continueBefore := more;
    }

    /** Scrolling n times. */
    method Scroll(n: nat)
      modifies this
      ensures loaded && View() == Scrolled(q, n)
    {
      hide Page, Reached, Closed, Next;
      ghost var k := FirstPage();
      for i := 0 to n
        invariant loaded && View() == Scrolled(q, i) && (Closed(q) ==> Reached(q, View(), k))
      {
        k := LoadOlder(k);
      }
    }

    /** Scrolling to the end: where no millisecond traps it, or only the last page does, it gets every match. */
    method LoadAll()
      requires Closed(q) && Passable(q)
      modifies this
      ensures reachedEnd && rows == Wanted(q) && ShowsExpected(q, rows)
    {
      hide Wanted, ShowsExpected, Closed, Reached, Passable, Next, Page;
      ghost var k := FirstPage();
      ghost var n := 0;
      while !reachedEnd
        invariant loaded && View() == Scrolled(q, n) && Reached(q, View(), k) && n <= |Window(q)|
        decreases |Window(q)| - n
      {
        MustEnd(q, n);
        k := LoadOlder(k);
        n := n + 1;
      }
      EndsWithAll(q, n);
      WantedIsExpected(q);
    }
  }

  lemma LastMatch(atoi: Atoi, f: ReceiptFilter, es: seq<RequestEvent>)
    requires es != [] && Matches(atoi, f, es[|es| - 1])
    ensures var rs := MatchingReceipts(atoi, f, es); rs != [] && rs[|rs| - 1] == ReceiptFrom(atoi, es[|es| - 1])
  {
  }

  // ---- Filters of sorted lists ----

  lemma {:induction false} FilterKeepsOrder(p: RequestEvent -> bool, es: seq<RequestEvent>)
    requires NewestFirst(es) && DistinctBy(EventId, es)
    ensures NewestFirst(Filter(p, es)) && DistinctBy(EventId, Filter(p, es))
  {
    if es != [] {
      var n := |es| - 1;
      FilterKeepsOrder(p, es[..n]);
      FilterMember(p, es[..n]);
      var rest := Filter(p, es[..n]);
      forall i | 0 <= i < |rest| ensures rest[i].at >= es[n].at && rest[i].id != es[n].id {
        assert rest[i] in rest;
        var m :| 0 <= m < n && es[..n][m] == rest[i];
      }
    }
  }

  /** The list's rows show exactly the events of the window that the filter asks for. */
  lemma WantedIsExpected(q: Listing)
    requires Closed(q)
    ensures ShowsExpected(q, Wanted(q))
  {
    var es := Window(q);
    var p := (e: RequestEvent) => InWindow(q.since, q.before, e);
    FilterKeepsOrder(p, q.all);
    FilterMember(p, q.all);
    MatchingListsAsked(q.atoi, q.filter, es);
    var at :| ListedAt(q.atoi, q.filter, es, Wanted(q), at);
    hide Filter, AskedFor, MatchingReceipts;
    ListedAreExpected(q, es, Wanted(q), at);
  }

  /** es is the events of the window, and at says which of them each row shows. */
  ghost predicate ListsWindow(q: Listing, es: seq<RequestEvent>, rows: seq<Receipt>, at: seq<nat>) {
    && Closed(q) && NewestFirst(es) && DistinctBy(EventId, es) && ListedAt(q.atoi, q.filter, es, rows, at)
    && forall e :: e in es <==> e in q.all && InWindow(q.since, q.before, e)
  }

  lemma ListedAreExpected(q: Listing, es: seq<RequestEvent>, rows: seq<Receipt>, at: seq<nat>)
    requires ListsWindow(q, es, rows, at)
    ensures ShowsExpected(q, rows)
  {
    hide AskedFor, Shows, ListsWindow, Expected;
    forall e | e in q.all ensures (exists r :: r in rows && Shows(q.atoi, r, e)) <==> Expected(q, e) {
      if r :| r in rows && Shows(q.atoi, r, e) { ShownIsExpected(q, es, rows, at, r, e); }
      if Expected(q, e) { ExpectedIsShown(q, es, rows, at, e); }
    }
    forall r | r in rows ensures exists e :: e in q.all && Shows(q.atoi, r, e) { RowShowsEvent(q, es, rows, at, r); }
    forall i, j | 0 <= i < j < |rows| ensures rows[i].ts >= rows[j].ts && rows[i].id != rows[j].id {
      RowsAreSorted(q, es, rows, at, i, j);
    }
  }

  lemma RowShowsEvent(q: Listing, es: seq<RequestEvent>, rows: seq<Receipt>, at: seq<nat>, r: Receipt)
    requires ListsWindow(q, es, rows, at) && r in rows
    ensures exists e :: e in q.all && Shows(q.atoi, r, e)
  {
    hide AskedFor, Shows, NewestFirst, Closed;
    var i :| 0 <= i < |rows| && rows[i] == r;
    assert es[at[i]] in es;
  }

  lemma ShownIsExpected(q: Listing, es: seq<RequestEvent>, rows: seq<Receipt>, at: seq<nat>, r: Receipt,
                        e: RequestEvent)
    requires ListsWindow(q, es, rows, at) && r in rows && e in q.all && Shows(q.atoi, r, e)
    ensures Expected(q, e)
  {
    hide AskedFor, NewestFirst, HasVerdict;
    var i :| 0 <= i < |rows| && rows[i] == r;
    assert es[at[i]] in es;
    SameEvent(q.all, e, es[at[i]]);
  }

  lemma ExpectedIsShown(q: Listing, es: seq<RequestEvent>, rows: seq<Receipt>, at: seq<nat>, e: RequestEvent)
    requires ListsWindow(q, es, rows, at) && e in q.all && Expected(q, e)
    ensures exists r :: r in rows && Shows(q.atoi, r, e)
  {
    hide AskedFor, Shows, NewestFirst, Closed;
    var n :| 0 <= n < |es| && es[n] == e;
    assert n in at;
    var i :| 0 <= i < |at| && at[i] == n;
    assert rows[i] in rows;
  }

  lemma RowsAreSorted(q: Listing, es: seq<RequestEvent>, rows: seq<Receipt>, at: seq<nat>, i: nat, j: nat)
    requires ListsWindow(q, es, rows, at) && i < j < |rows|
    ensures rows[i].ts >= rows[j].ts && rows[i].id != rows[j].id
  {
    hide AskedFor, HasVerdict, Closed;
    assert at[i] < at[j];
    assert EventId(es[at[i]]) != EventId(es[at[j]]);
    MillisMono(es[at[j]].at, es[at[i]].at);
  }

  lemma SameEvent(es: seq<RequestEvent>, d: RequestEvent, e: RequestEvent)
    requires DistinctBy(EventId, es) && d in es && e in es && d.id == e.id
    ensures d == e
  {
    var i :| 0 <= i < |es| && es[i] == d;
    var j :| 0 <= j < |es| && es[j] == e;
    assert i < j ==> EventId(es[i]) != EventId(es[j]);
    assert j < i ==> EventId(es[j]) != EventId(es[i]);
  }

  lemma {:induction false} CutAt(es: seq<RequestEvent>, t: int) returns (j: nat)
    requires NewestFirst(es)
    ensures j <= |es|
    ensures forall i :: 0 <= i < j ==> es[i].at >= t * MILLISECOND
    ensures forall i :: j <= i < |es| ==> es[i].at < t * MILLISECOND
  {
    j := 0;
    if es != [] && es[0].at >= t * MILLISECOND {
      var rest := CutAt(es[1..], t);
      j := rest + 1;
      assert forall i :: 1 <= i < |es| ==> es[i] == es[1..][i - 1];
    }
  }

  /** Asking only up to a millisecond t of a sorted list gives a suffix of it. */
  lemma CutIsSuffix(es: seq<RequestEvent>, t: int) returns (j: nat)
    requires NewestFirst(es)
    ensures j <= |es| && Filter((e: RequestEvent) => e.at < t * MILLISECOND, es) == es[j..]
    ensures forall i :: 0 <= i < j ==> es[i].at >= t * MILLISECOND
    ensures forall i :: j <= i < |es| ==> es[i].at < t * MILLISECOND
  {
    j := CutAt(es, t);
    hide Filter, NewestFirst;
    var p := (e: RequestEvent) => e.at < t * MILLISECOND;
    assert es == es[..j] + es[j..];
    FilterAppend(p, es[..j], es[j..]);
    FilterNone(p, es[..j]);
    FilterEvery(p, es[j..]);
  }

  lemma {:induction false} QueryNarrows(all: seq<RequestEvent>, since: int, before: int, t: int)
    requires 0 < t <= before
    ensures Query(all, since, t) == Filter((e: RequestEvent) => e.at < t * MILLISECOND, Query(all, since, before))
  {
    if all != [] {
      QueryNarrows(all[..|all| - 1], since, before, t);
      var rest := Query(all[..|all| - 1], since, before);
      var e := all[|all| - 1];
      if InWindow(since, before, e) {
        assert Query(all, since, before) == rest + [e];
        assert (rest + [e])[..|rest + [e]| - 1] == rest;
      }
    }
  }

  /** The next query's events are the window's from some j on, and those between j and k share k's millisecond. */
  lemma Suffix(all: seq<RequestEvent>, since: int, before: int, k: nat) returns (j: nat)
    requires NewestFirst(all) && DistinctBy(EventId, all) && before > 0
    requires 0 < k <= |Query(all, since, before)|
    ensures var es := Query(all, since, before);
            var t := Millis(es[k - 1].at);
            && j < k && Query(all, since, t + 1) == es[j..] && NewestFirst(es) && DistinctBy(EventId, es)
            && (forall i :: j <= i < k ==> Millis(es[i].at) == t) && Heads(es, j)
  {
    var es := Query(all, since, before);
    var p := (e: RequestEvent) => InWindow(since, before, e);
    FilterKeepsOrder(p, all);
    FilterMember(p, all);
    var t := Millis(es[k - 1].at);
    assert es[k - 1] in es;
    assert t + 1 <= before;
    QueryNarrows(all, since, before, t + 1);
    j := CutIsSuffix(es, t + 1);
    forall i | j <= i < k ensures Millis(es[i].at) == t {
      assert es[i].at < (t + 1) * MILLISECOND && es[i].at >= es[k - 1].at;
    }
  }

  lemma {:induction false} AllAt(es: seq<RequestEvent>, t: int)
    requires forall e :: e in es ==> Millis(e.at) == t
    ensures At(es, t) == es
  {
    if es != [] {
      AllAt(es[..|es| - 1], t);
      assert es == es[..|es| - 1] + [es[|es| - 1]];
    }
  }

  /** Events in a row that share a millisecond are fewer than the cap, and their matches than a page. */
  lemma RunIsShort(atoi: Atoi, f: ReceiptFilter, es: seq<RequestEvent>, j: nat, k: nat, t: int)
    requires Spread(atoi, f, es) && j <= k <= |es| && forall i :: j <= i < k ==> Millis(es[i].at) == t
    ensures k - j < SCAN_CAP && |MatchingReceipts(atoi, f, es[j..k])| < PAGE
  {
    var p := (e: RequestEvent) => Millis(e.at) == t;
    assert es == es[..j] + (es[j..k] + es[k..]);
    FilterAppend(p, es[..j], es[j..k] + es[k..]);
    FilterAppend(p, es[j..k], es[k..]);
    AllAt(es[j..k], t);
    var before, after := At(es[..j], t), At(es[k..], t);
    assert At(es, t) == before + (es[j..k] + after);
    MatchingAppend(atoi, f, before, es[j..k] + after);
    MatchingAppend(atoi, f, es[j..k], after);
  }

  lemma {:induction false} MatchingIds(atoi: Atoi, f: ReceiptFilter, es: seq<RequestEvent>)
    ensures forall r :: r in MatchingReceipts(atoi, f, es) ==> exists i :: 0 <= i < |es| && es[i].id == r.id
    ensures forall i :: 0 <= i < |es| && Matches(atoi, f, es[i]) ==> es[i].id in Ids(MatchingReceipts(atoi, f, es))
  {
    if es != [] {
      var n := |es| - 1;
      MatchingIds(atoi, f, es[..n]);
      var rest := MatchingReceipts(atoi, f, es[..n]);
      var rs := MatchingReceipts(atoi, f, es);
      forall i | 0 <= i < |es| && Matches(atoi, f, es[i]) ensures es[i].id in Ids(rs) {
        if i < n {
          assert es[..n][i].id in Ids(rest);
          var r :| r in rest && r.id == es[i].id;
          assert r in rs;
        } else {
          assert rs[|rs| - 1].id == es[n].id;
        }
      }
    }
  }

  lemma LaterIdsAreNew(atoi: Atoi, f: ReceiptFilter, es: seq<RequestEvent>, k: nat, k': nat)
    requires DistinctBy(EventId, es) && k <= k' <= |es|
    ensures forall r, q :: r in MatchingReceipts(atoi, f, es[k..k']) && q in MatchingReceipts(atoi, f, es[..k]) ==>
              r.id != q.id
  {
    hide MatchingReceipts;
    MatchingIds(atoi, f, es[k..k']);
    MatchingIds(atoi, f, es[..k]);
    forall r, q | r in MatchingReceipts(atoi, f, es[k..k']) && q in MatchingReceipts(atoi, f, es[..k])
      ensures r.id != q.id
    {
      var i :| 0 <= i < |es[k..k']| && es[k..k'][i].id == r.id;
      var m :| 0 <= m < |es[..k]| && es[..k][m].id == q.id;
      assert es[m].id == q.id && es[k + i].id == r.id;
    }
  }

  /** Dropping the rows of the first k events from the matches of events j.. leaves those of events k... */
  lemma UnseenAreLater(atoi: Atoi, f: ReceiptFilter, es: seq<RequestEvent>, j: nat, k: nat, k': nat)
    requires DistinctBy(EventId, es) && j <= k <= k' <= |es|
    ensures Unseen(Ids(MatchingReceipts(atoi, f, es[..k])), MatchingReceipts(atoi, f, es[j..k'])) ==
              MatchingReceipts(atoi, f, es[k..k'])
  {
    hide MatchingReceipts, Filter, DistinctBy;
    var seen := Ids(MatchingReceipts(atoi, f, es[..k]));
    var p := (r: Receipt) => r.id !in seen;
    assert es[j..k'] == es[j..k] + es[k..k'];
    MatchingAppend(atoi, f, es[j..k], es[k..k']);
    FilterAppend(p, MatchingReceipts(atoi, f, es[j..k]), MatchingReceipts(atoi, f, es[k..k']));
    assert es[..k] == es[..j] + es[j..k];
    MatchingAppend(atoi, f, es[..j], es[j..k]);
    FilterNone(p, MatchingReceipts(atoi, f, es[j..k]));
    LaterIdsAreNew(atoi, f, es, k, k');
    FilterEvery(p, MatchingReceipts(atoi, f, es[k..k']));
  }

  // ---- Where scans stop ----

  lemma ScanStops(atoi: Atoi, f: ReceiptFilter, es: seq<RequestEvent>, c: nat) returns (why: Ending)
    requires c <= |es|
    ensures Explains(atoi, f, PAGE, es[c..], ScanAt(atoi, f, es, c), why)
    ensures var r, stop := ScanAt(atoi, f, es, c), Stop(atoi, f, es, c);
            && stop <= |es| && (c < |es| ==> c < stop) && r.out == MatchingReceipts(atoi, f, es[c..stop])
            && (why.Capped? <==> IsCapped(r)) && (why.Full? <==> IsFull(r)) && (why.Exhausted? ==> stop == |es|)
  {
    why := ScanExplained(atoi, f, PAGE, es[c..]);
    hide Scan, MatchingReceipts;
    assert es[c..][..ScanAt(atoi, f, es, c).scanned] == es[c..Stop(atoi, f, es, c)];
  }

  /** A full page's last event is a match. */
  lemma LastRow(atoi: Atoi, f: ReceiptFilter, es: seq<RequestEvent>, j: nat, k: nat)
    requires j <= |es| && j <= k < Stop(atoi, f, es, j) && IsFull(ScanAt(atoi, f, es, j))
    ensures Stop(atoi, f, es, j) <= |es|
    ensures var rs := MatchingReceipts(atoi, f, es[k..Stop(atoi, f, es, j)]);
            rs != [] && rs[|rs| - 1].ts == Millis(es[Stop(atoi, f, es, j) - 1].at)
  {
    var why := ScanStops(atoi, f, es, j);
    var k' := Stop(atoi, f, es, j);
    hide Scan, MatchingReceipts;
    assert es[k..k'][k' - k - 1] == es[k' - 1] == es[j..][k' - j - 1];
    LastMatch(atoi, f, es[k..k']);
  }

  /** Before the place where a scan stops there is neither a page of matches nor the cap. */
  lemma Unfinished(atoi: Atoi, f: ReceiptFilter, es: seq<RequestEvent>, c: nat, i: nat)
    requires c <= i <= |es| && i < Stop(atoi, f, es, c)
    ensures |MatchingReceipts(atoi, f, es[c..i])| < PAGE && i - c < SCAN_CAP
  {
    var why := ScanStops(atoi, f, es, c);
    var r, stop := ScanAt(atoi, f, es, c), Stop(atoi, f, es, c);
    assert r.scanned <= SCAN_CAP && |r.out| <= PAGE && (!IsFull(r) ==> |r.out| < PAGE);
    if IsFull(r) { LastRow(atoi, f, es, c, i); }
    hide Scan, ScanAt, MatchingReceipts, Explains;
    assert es[c..stop] == es[c..i] + es[i..stop];
    MatchingAppend(atoi, f, es[c..i], es[i..stop]);
  }

  /** A scan from further back does not stop before a scan from nearer, unless it runs out of events. */
  lemma EarlierStopsEarlier(atoi: Atoi, f: ReceiptFilter, es: seq<RequestEvent>, j: nat, c: nat)
    requires j <= c < |es| && (IsCapped(ScanAt(atoi, f, es, c)) || IsFull(ScanAt(atoi, f, es, c)))
    ensures Stop(atoi, f, es, j) <= Stop(atoi, f, es, c)
  {
    var why := ScanStops(atoi, f, es, c);
    hide Scan, MatchingReceipts;
    var stop := Stop(atoi, f, es, c);
    assert es[j..stop] == es[j..c] + es[c..stop];
    MatchingAppend(atoi, f, es[j..c], es[c..stop]);
    if stop < Stop(atoi, f, es, j) { Unfinished(atoi, f, es, j, stop); }
  }

  lemma MillisMono(a: nat, b: nat)
    requires a <= b
    ensures Millis(a) <= Millis(b)
  {
  }

  /** Nothing between two events of one millisecond heads another. */
  lemma SameMillisecond(es: seq<RequestEvent>, c: nat, e: nat, j: nat)
    requires NewestFirst(es) && c < j <= e < |es| && Millis(es[c].at) == Millis(es[e].at)
    ensures Millis(es[j].at) == Millis(es[c].at) && !Heads(es, j)
  {
    MillisMono(es[e].at, es[j].at);
    MillisMono(es[j].at, es[j - 1].at);
    MillisMono(es[j - 1].at, es[c].at);
  }

  /** No trap's place is behind the first k events. */
  ghost predicate NotPast(atoi: Atoi, f: ReceiptFilter, es: seq<RequestEvent>, k: nat) {
    forall c :: Traps(atoi, f, es, c) ==> k <= Stop(atoi, f, es, c)
  }

  lemma FirstNotPast(atoi: Atoi, f: ReceiptFilter, es: seq<RequestEvent>)
    ensures NotPast(atoi, f, es, Stop(atoi, f, es, 0))
  {
    hide Stop, ScanAt;
    forall c | Traps(atoi, f, es, c) ensures Stop(atoi, f, es, 0) <= Stop(atoi, f, es, c) {
      EarlierStopsEarlier(atoi, f, es, 0, c);
    }
  }

  /** A page asked for from the millisecond reached does not get past any trap. */
  lemma NextNotPast(atoi: Atoi, f: ReceiptFilter, es: seq<RequestEvent>, j: nat, k: nat)
    requires NewestFirst(es) && NotPast(atoi, f, es, k) && j < k <= |es| && Heads(es, j)
    ensures NotPast(atoi, f, es, Stop(atoi, f, es, j))
  {
    hide ScanAt, NewestFirst, Heads;
    forall c | Traps(atoi, f, es, c) ensures Stop(atoi, f, es, j) <= Stop(atoi, f, es, c) {
      if j <= c {
        EarlierStopsEarlier(atoi, f, es, j, c);
      } else {
        SameMillisecond(es, c, Stop(atoi, f, es, c) - 1, j);
      }
    }
  }

  /** Nor does it fall back; and where it stays it is trapped, or the window is over. */
  lemma NoStepBack(atoi: Atoi, f: ReceiptFilter, es: seq<RequestEvent>, j: nat, k: nat)
    requires NotPast(atoi, f, es, k) && j < k <= |es| && Heads(es, j)
    requires forall i :: j <= i < k ==> Millis(es[i].at) == Millis(es[k - 1].at)
    ensures k <= Stop(atoi, f, es, j)
    ensures Stop(atoi, f, es, j) == k && (IsCapped(ScanAt(atoi, f, es, j)) || IsFull(ScanAt(atoi, f, es, j))) ==>
              Traps(atoi, f, es, j)
  {
    var why := ScanStops(atoi, f, es, j);
    hide ScanAt, Heads, Explains;
    if Stop(atoi, f, es, j) <= k && !why.Exhausted? { assert Traps(atoi, f, es, j); }
  }

  lemma NotPastIsFirst(atoi: Atoi, f: ReceiptFilter, es: seq<RequestEvent>, j: nat)
    requires NewestFirst(es) && Traps(atoi, f, es, j) && NotPast(atoi, f, es, Stop(atoi, f, es, j))
    ensures forall b: nat :: b < j ==> !Traps(atoi, f, es, b)
  {
    hide ScanAt, NewestFirst;
    forall b: nat | b < j && Traps(atoi, f, es, b) ensures false {
      SameMillisecond(es, b, Stop(atoi, f, es, b) - 1, j);
    }
  }

  /** A scan that runs out of events leaves no trap where it looked. */
  lemma ExhaustedSeesNoTrap(atoi: Atoi, f: ReceiptFilter, es: seq<RequestEvent>, j: nat, c: nat)
    requires j <= c < |es| && !IsCapped(ScanAt(atoi, f, es, j)) && !IsFull(ScanAt(atoi, f, es, j))
    ensures !IsCapped(ScanAt(atoi, f, es, c)) && !IsFull(ScanAt(atoi, f, es, c))
  {
    var why := ScanStops(atoi, f, es, j);
    var whyLater := ScanStops(atoi, f, es, c);
    var r, later, stop := ScanAt(atoi, f, es, j), ScanAt(atoi, f, es, c), Stop(atoi, f, es, c);
    assert r.scanned == |es| - j < SCAN_CAP && |r.out| < PAGE;
    assert (IsCapped(later) ==> stop - c == SCAN_CAP) && (IsFull(later) ==> |later.out| == PAGE);
    hide Scan, ScanAt, Stop, Explains, MatchingReceipts, IsCapped, IsFull;
    assert es[j..|es|] == es[j..c] + es[c..stop] + es[stop..];
    MatchingAppend(atoi, f, es[j..c], es[c..stop]);
    MatchingAppend(atoi, f, es[j..c] + es[c..stop], es[stop..]);
  }

  // ---- How far the list gets ----

  /** It ended on a page that the window's end cut short, or on a full one that brought nothing new. */
  ghost predicate EndedAt(q: Listing, k: nat) {
    exists j :: 0 <= j <= |Window(q)| && EndedFrom(q, j, k)
  }

  ghost predicate EndedFrom(q: Listing, j: nat, k: nat)
    requires j <= |Window(q)|
  {
    && Stop(q.atoi, q.filter, Window(q), j) == k && !IsCapped(TrapScan(q, j)) && (j == 0 || Heads(Window(q), j))
    && (IsFull(TrapScan(q, j)) ==> Traps(q.atoi, q.filter, Window(q), j))
  }

  /**
   The first k events of the window have been looked through: their matches are the rows, no trap has been
   passed, and the next page starts in the last one's millisecond, unless the end is reached.
   */
  ghost predicate Reached(q: Listing, p: Loaded, k: nat) {
    var es := Window(q);
    && k <= |es| && p.rows == MatchingReceipts(q.atoi, q.filter, es[..k]) && NotPast(q.atoi, q.filter, es, k)
    && if p.ended then EndedAt(q, k) else k > 0 && NextBefore(p) == Some(Millis(es[k - 1].at) + 1)
  }

  lemma StartsLoaded(q: Listing) returns (k: nat)
    requires Closed(q)
    ensures Reached(q, Scrolled(q, 0), k)
  {
    var atoi, f, es := q.atoi, q.filter, Window(q);
    k := Stop(atoi, f, es, 0);
    var why := ScanStops(atoi, f, es, 0);
    FirstNotPast(atoi, f, es);
    FirstIsFromStart(q);
    assert es[0..k] == es[..k];
    if IsCapped(TrapScan(q, 0)) { CappedFrom(atoi, f, es, 0); }
    if IsFull(TrapScan(q, 0)) { LastRow(atoi, f, es, 0, 0); }
    hide Scan, ScanAt, Stop, MatchingReceipts, Query, NotPast, Window, Explains, Traps;
    if why.Exhausted? { assert EndedFrom(q, 0, k); }
  }

  lemma FirstIsFromStart(q: Listing)
    ensures Scrolled(q, 0) == FirstOf(TrapScan(q, 0))
  {
    assert Window(q)[0..] == Window(q);
    hide Scan;
  }

  /** What a scan from j adds to the matches of the first k events. */
  lemma NewRows(atoi: Atoi, f: ReceiptFilter, es: seq<RequestEvent>, j: nat, k: nat)
    requires DistinctBy(EventId, es) && j < k <= |es| && k <= Stop(atoi, f, es, j)
    ensures var r, k' := ScanAt(atoi, f, es, j), Stop(atoi, f, es, j);
            && k' <= |es|
            && Unseen(Ids(MatchingReceipts(atoi, f, es[..k])), r.out) == MatchingReceipts(atoi, f, es[k..k'])
            && MatchingReceipts(atoi, f, es[..k']) ==
                 MatchingReceipts(atoi, f, es[..k]) + MatchingReceipts(atoi, f, es[k..k'])
  {
    hide *;
    var why := ScanStops(atoi, f, es, j);
    var k' := Stop(atoi, f, es, j);
    UnseenAreLater(atoi, f, es, j, k, k');
    assert es[..k'] == es[..k] + es[k..k'];
    MatchingAppend(atoi, f, es[..k], es[k..k']);
  }

  /** Where a scan that the cap stops carries on. */
  lemma CappedFrom(atoi: Atoi, f: ReceiptFilter, es: seq<RequestEvent>, j: nat)
    requires j <= |es| && IsCapped(ScanAt(atoi, f, es, j))
    ensures j < Stop(atoi, f, es, j) <= |es|
    ensures ScanAt(atoi, f, es, j).continueBefore == Millis(es[Stop(atoi, f, es, j) - 1].at) + 1
  {
    var why := ScanStops(atoi, f, es, j);
    hide Scan, MatchingReceipts;
    assert es[j..][ScanAt(atoi, f, es, j).scanned - 1] == es[Stop(atoi, f, es, j) - 1];
  }

  /** What a page from the millisecond of the k-th event adds: the matches up to where its scan stops, and no more. */
  lemma PageAdds(q: Listing, p: Loaded, k: nat, j: nat)
    requires Reached(q, p, k) && !p.ended && NewestFirst(Window(q)) && DistinctBy(EventId, Window(q))
    requires j < k && Heads(Window(q), j)
    requires forall i :: j <= i < k ==> Millis(Window(q)[i].at) == Millis(Window(q)[k - 1].at)
    ensures Added(q, p, k, j)
  {
    var atoi, f, es := q.atoi, q.filter, Window(q);
    NoStepBack(atoi, f, es, j, k);
    NextNotPast(atoi, f, es, j, k);
    NewRows(atoi, f, es, j, k);
    hide Scan, ScanAt, Stop, MatchingReceipts, Query, Window, Unseen, NewestFirst, DistinctBy, Ids, Traps, NotPast;
    hide Heads, EndedAt;
  }

  lemma PageReaches(q: Listing, p: Loaded, k: nat, j: nat)
    requires Reached(q, p, k) && !p.ended && NewestFirst(Window(q)) && DistinctBy(EventId, Window(q))
    requires j < k && Heads(Window(q), j)
    requires forall i :: j <= i < k ==> Millis(Window(q)[i].at) == Millis(Window(q)[k - 1].at)
    ensures var k', t := Stop(q.atoi, q.filter, Window(q), j), Extended(p, TrapScan(q, j));
            && k <= k' && Reached(q, t, k')
            && (k' == k ==> t.ended || CappedTrap(q, j))
  {
    var atoi, f, es := q.atoi, q.filter, Window(q);
    var k', r := Stop(atoi, f, es, j), TrapScan(q, j);
    PageAdds(q, p, k, j);
    NoStepBack(atoi, f, es, j, k);
    if k' == k && IsCapped(r) { NotPastIsFirst(atoi, f, es, j); }
    hide Scan, ScanAt, Stop, MatchingReceipts, Query, Window, Unseen, NewestFirst, DistinctBy, Ids, Traps, NotPast;
    hide Heads, Reached, Extended;
    if IsCapped(r) {
      CapReaches(q, p, k, j);
    } else if IsFull(r) && k < k' {
      PageFills(q, p, k, j);
    } else {
      PageEnds(q, p, k, j);
    }
  }

  /** A scan from j, once the list has its rows and no trap is passed. */
  ghost predicate Added(q: Listing, p: Loaded, k: nat, j: nat) {
    && j < k <= |Window(q)| && k <= Stop(q.atoi, q.filter, Window(q), j) <= |Window(q)|
    && p.rows == MatchingReceipts(q.atoi, q.filter, Window(q)[..k])
    && Extended(p, TrapScan(q, j)).rows ==
         MatchingReceipts(q.atoi, q.filter, Window(q)[..Stop(q.atoi, q.filter, Window(q), j)])
    && Unseen(Ids(p.rows), TrapScan(q, j).out) ==
         MatchingReceipts(q.atoi, q.filter, Window(q)[k..Stop(q.atoi, q.filter, Window(q), j)])
    && NotPast(q.atoi, q.filter, Window(q), Stop(q.atoi, q.filter, Window(q), j))
  }

  lemma CapReaches(q: Listing, p: Loaded, k: nat, j: nat)
    requires Added(q, p, k, j) && IsCapped(TrapScan(q, j))
    ensures Reached(q, Extended(p, TrapScan(q, j)), Stop(q.atoi, q.filter, Window(q), j))
  {
    CappedFrom(q.atoi, q.filter, Window(q), j);
    hide Scan, ScanAt, Stop, MatchingReceipts, Query, Window, Unseen, Ids, NotPast;
  }

  lemma PageFills(q: Listing, p: Loaded, k: nat, j: nat)
    requires Added(q, p, k, j) && IsFull(TrapScan(q, j)) && k < Stop(q.atoi, q.filter, Window(q), j)
    ensures Reached(q, Extended(p, TrapScan(q, j)), Stop(q.atoi, q.filter, Window(q), j))
  {
    LastRow(q.atoi, q.filter, Window(q), j, k);
    hide Scan, ScanAt, Stop, MatchingReceipts, Query, Window, Unseen, Ids, NotPast;
  }

  lemma PageEnds(q: Listing, p: Loaded, k: nat, j: nat)
    requires Added(q, p, k, j) && Heads(Window(q), j) && !IsCapped(TrapScan(q, j))
    requires IsFull(TrapScan(q, j)) ==> Traps(q.atoi, q.filter, Window(q), j)
    requires IsFull(TrapScan(q, j)) ==> k == Stop(q.atoi, q.filter, Window(q), j)
    ensures var t := Extended(p, TrapScan(q, j)); t.ended && Reached(q, t, Stop(q.atoi, q.filter, Window(q), j))
  {
    EndsFrom(q, j);
    assert Window(q)[k..k] == [];
    hide Scan, ScanAt, Stop, Query, Window, Unseen, Ids, NotPast, EndedFrom, Traps, Heads;
  }

  lemma EndsFrom(q: Listing, j: nat)
    requires Heads(Window(q), j) && !IsCapped(TrapScan(q, j))
    requires IsFull(TrapScan(q, j)) ==> Traps(q.atoi, q.filter, Window(q), j)
    ensures EndedFrom(q, j, Stop(q.atoi, q.filter, Window(q), j))
  {
    hide ScanAt, Traps;
  }

  /** One more page: every event looked through stays so, and more are, unless it has ended or is trapped for good. */
  lemma NextLoads(q: Listing, p: Loaded, k: nat) returns (k': nat)
    requires Closed(q) && Reached(q, p, k)
    ensures Reached(q, Next(q, p), k') && k <= k'
    ensures k' == k ==> Next(q, p).ended || exists c :: CappedTrap(q, c)
  {
    k' := k;
    if !p.ended {
      assert Window(q) == Query(q.all, q.since, q.before);
      var j := Suffix(q.all, q.since, q.before, k);
      hide Scan, MatchingReceipts, Query, Unseen, NewestFirst, DistinctBy, Extended, FirstTrap, Heads, NotPast;
      PageReaches(q, p, k, j);
      k' := Stop(q.atoi, q.filter, Window(q), j);
    }
  }

  /** After n scrolls the list has ended, or is more than n events into the window, or is trapped for good. */
  lemma {:induction false} ScrolledReaches(q: Listing, n: nat) returns (k: nat)
    requires Closed(q)
    ensures Reached(q, Scrolled(q, n), k)
    ensures Scrolled(q, n).ended || k > n || exists c :: CappedTrap(q, c)
  {
    if n == 0 {
      k := StartsLoaded(q);
    } else {
      var before := ScrolledReaches(q, n - 1);
      k := NextLoads(q, Scrolled(q, n - 1), before);
    }
    hide Closed, FirstTrap, TrapScan, Page;
  }

  /** A list that has ended holds everything and met no trap, or is caught by the first trap, a full page. */
  lemma EndedMeans(q: Listing, p: Loaded, k: nat)
    requires Closed(q) && Reached(q, p, k) && p.ended
    ensures ((forall c :: !FirstTrap(q, c)) && p.rows == Wanted(q))
            || exists c :: FullTrap(q, c) && Wanted(q) == p.rows + Behind(q, c)
  {
    var atoi, f, es := q.atoi, q.filter, Window(q);
    var j :| 0 <= j <= |es| && EndedFrom(q, j, k);
    WindowIsSorted(q);
    assert p.rows == MatchingReceipts(atoi, f, es[..k]) && Wanted(q) == MatchingReceipts(atoi, f, es);
    if IsFull(TrapScan(q, j)) {
      TrappedAt(q, j, k);
      assert FullTrap(q, j);
    } else {
      NoneIsLeft(q, j, k);
    }
    hide *;
  }

  lemma TrappedAt(q: Listing, j: nat, k: nat)
    requires NewestFirst(Window(q)) && NotPast(q.atoi, q.filter, Window(q), k) && j <= |Window(q)|
    requires k <= |Window(q)| && EndedFrom(q, j, k) && IsFull(TrapScan(q, j))
    ensures FirstTrap(q, j)
    ensures Wanted(q) == MatchingReceipts(q.atoi, q.filter, Window(q)[..k]) + Behind(q, j)
  {
    var es := Window(q);
    NotPastIsFirst(q.atoi, q.filter, es, j);
    assert es == es[..k] + es[k..];
    MatchingAppend(q.atoi, q.filter, es[..k], es[k..]);
    hide Scan, ScanAt, MatchingReceipts, Query, Window, NewestFirst, NotPast, Traps, Heads;
  }

  lemma NoneIsLeft(q: Listing, j: nat, k: nat)
    requires NewestFirst(Window(q)) && NotPast(q.atoi, q.filter, Window(q), k) && j <= |Window(q)|
    requires k <= |Window(q)| && EndedFrom(q, j, k) && !IsFull(TrapScan(q, j))
    ensures forall c :: !FirstTrap(q, c)
    ensures MatchingReceipts(q.atoi, q.filter, Window(q)[..k]) == Wanted(q)
  {
    var es := Window(q);
    var why := ScanStops(q.atoi, q.filter, es, j);
    assert why.Exhausted?;
    hide Scan, ScanAt, MatchingReceipts, Query, Window, NewestFirst, NotPast, Traps, Heads, EndedFrom, Explains;
    assert k == |es| by { assert EndedFrom(q, j, k); }
    assert es[..k] == es;
    forall c: nat ensures !FirstTrap(q, c) { ExhaustedMeansNoTrap(q, j, k, c); }
  }

  lemma ExhaustedMeansNoTrap(q: Listing, j: nat, k: nat, c: nat)
    requires NewestFirst(Window(q)) && NotPast(q.atoi, q.filter, Window(q), k) && k == |Window(q)|
    requires j <= k && EndedFrom(q, j, k) && !IsFull(TrapScan(q, j))
    ensures !Traps(q.atoi, q.filter, Window(q), c)
  {
    var es := Window(q);
    hide Scan, Query, Window, NewestFirst;
    if Traps(q.atoi, q.filter, es, c) {
      if j <= c {
        ExhaustedSeesNoTrap(q.atoi, q.filter, es, j, c);
      } else {
        SameMillisecond(es, c, Stop(q.atoi, q.filter, es, c) - 1, j);
      }
    }
  }

  lemma WindowIsSorted(q: Listing)
    requires Closed(q)
    ensures NewestFirst(Window(q)) && DistinctBy(EventId, Window(q))
  {
    FilterKeepsOrder((e: RequestEvent) => InWindow(q.since, q.before, e), q.all);
  }

  // ---- What scrolling comes to, exactly ----

  lemma FirstTrapIsOne(q: Listing)
    ensures forall c, d :: FirstTrap(q, c) && FirstTrap(q, d) ==> c == d
  {
  }

  lemma EndsOrIsTrapped(q: Listing, n: nat)
    requires Closed(q) && n >= |Window(q)|
    ensures Scrolled(q, n).ended || exists c :: CappedTrap(q, c)
  {
    var k := ScrolledReaches(q, n);
    hide Closed, Scrolled, CappedTrap, Window;
  }

  lemma HowItEnded(q: Listing, n: nat)
    requires Closed(q) && Scrolled(q, n).ended
    ensures ((forall c :: !FirstTrap(q, c)) && Scrolled(q, n).rows == Wanted(q))
            || exists c :: FullTrap(q, c) && Wanted(q) == Scrolled(q, n).rows + Behind(q, c)
  {
    var k := ScrolledReaches(q, n);
    EndedMeans(q, Scrolled(q, n), k);
    hide *;
  }

  lemma FullIsNotCapped(q: Listing)
    ensures forall c :: FullTrap(q, c) ==> FirstTrap(q, c) && !CappedTrap(q, c)
    ensures forall c :: CappedTrap(q, c) ==> FirstTrap(q, c)
  {
  }

  /** No trap, or one that holds the window's last matches. */
  ghost predicate Passable(q: Listing) { forall c :: FirstTrap(q, c) ==> FullTrap(q, c) && Behind(q, c) == [] }

  lemma MustEnd(q: Listing, n: nat)
    requires Closed(q) && Passable(q) && !Scrolled(q, n).ended
    ensures n < |Window(q)|
  {
    if n >= |Window(q)| { EndsOrIsTrapped(q, n); }
    FullIsNotCapped(q);
    hide FirstTrap, FullTrap, CappedTrap, Closed, Scrolled, Behind;
  }

  lemma EndsWithAll(q: Listing, n: nat)
    requires Closed(q) && Passable(q) && Scrolled(q, n).ended
    ensures Scrolled(q, n).rows == Wanted(q)
  {
    HowItEnded(q, n);
    FullIsNotCapped(q);
    hide FirstTrap, FullTrap, CappedTrap, Closed, Scrolled, Behind, Wanted;
  }

  /** Scrolling gets every match if and only if no millisecond traps it, or the first that does holds the last page. */
  lemma LoadsAllExactly(q: Listing)
    requires Closed(q)
    ensures (exists n :: Scrolled(q, n).ended && Scrolled(q, n).rows == Wanted(q)) <==> Passable(q)
  {
    if n: nat :| Scrolled(q, n).ended && Scrolled(q, n).rows == Wanted(q) {
      HowItEnded(q, n);
      FirstTrapIsOne(q);
      FullIsNotCapped(q);
      hide FirstTrap, FullTrap, CappedTrap, Closed, Scrolled, Behind, Wanted;
    } else if Passable(q) && !Scrolled(q, |Window(q)|).ended {
      MustEnd(q, |Window(q)|);
    } else if Passable(q) {
      EndsWithAll(q, |Window(q)|);
    }
  }

  /** It ends short if and only if the first trap is a full page with matches behind it. */
  lemma EndsShortExactly(q: Listing)
    requires Closed(q)
    ensures (exists n :: Scrolled(q, n).ended && Scrolled(q, n).rows != Wanted(q))
            <==> exists c :: FullTrap(q, c) && Behind(q, c) != []
  {
    FirstTrapIsOne(q);
    FullIsNotCapped(q);
    if n: nat :| Scrolled(q, n).ended && Scrolled(q, n).rows != Wanted(q) { HowItEnded(q, n); }
    if c :| FullTrap(q, c) && Behind(q, c) != [] {
      EndsOrIsTrapped(q, |Window(q)|);
      if Scrolled(q, |Window(q)|).ended { HowItEnded(q, |Window(q)|); }
    }
    hide FirstTrap, FullTrap, CappedTrap, Closed, Scrolled, Behind, Wanted;
  }

  /** It never ends if and only if the first trap holds a whole scan's events, with less than a page of matches. */
  lemma NeverEndsExactly(q: Listing)
    requires Closed(q)
    ensures (forall n :: !Scrolled(q, n).ended) <==> exists c :: CappedTrap(q, c)
  {
    FirstTrapIsOne(q);
    FullIsNotCapped(q);
    EndsOrIsTrapped(q, |Window(q)|);
    if c :| CappedTrap(q, c) {
      forall n ensures !Scrolled(q, n).ended { if Scrolled(q, n).ended { HowItEnded(q, n); } }
    }
    hide FirstTrap, FullTrap, CappedTrap, Closed, Scrolled, Behind, Wanted;
  }

  /** A window without a crowded millisecond has no trap. */
  lemma SpreadIsPassable(q: Listing)
    requires Closed(q) && Spread(q.atoi, q.filter, Window(q))
    ensures Passable(q)
  {
    WindowIsSorted(q);
    forall c: nat | FirstTrap(q, c) ensures false {
      var es := Window(q);
      var stop := Stop(q.atoi, q.filter, es, c);
      var why := ScanStops(q.atoi, q.filter, es, c);
      hide Scan, MatchingReceipts, Query, Spread, Heads;
      forall i | c <= i < stop ensures Millis(es[i].at) == Millis(es[c].at) {
        if i > c { SameMillisecond(es, c, stop - 1, i); }
      }
      RunIsShort(q.atoi, q.filter, es, c, stop, Millis(es[c].at));
    }
  }

  // ---- Windows that begin with a crowded millisecond ----

  /** The events of one millisecond, and older ones behind. */
  ghost predicate Crowd(q: Listing, es: seq<RequestEvent>, older: seq<RequestEvent>, t: nat) {
    && Closed(q) && q.all == es + older && q.since == 0 && q.before == t + 1
    && (forall e :: e in es ==> Millis(e.at) == t) && forall e :: e in older ==> Millis(e.at) < t
  }

  lemma CrowdHeads(q: Listing, es: seq<RequestEvent>, older: seq<RequestEvent>, t: nat)
    requires Crowd(q, es, older, t) && es != []
    ensures Window(q) == es + older && Heads(Window(q), 0) && Millis(Window(q)[0].at) == t
    ensures TrapScan(q, 0) == Scan(q.atoi, q.filter, PAGE, es + older)
  {
    QueryAll(es + older, t);
    assert (es + older)[0..] == es + older && (es + older)[0] == es[0] && es[0] in es;
    hide Scan, Query;
  }

  lemma CrowdIsFull(atoi: Atoi, f: ReceiptFilter, es: seq<RequestEvent>, older: seq<RequestEvent>, t: nat)
    requires |es| >= PAGE && forall e :: e in es ==> Matches(atoi, f, e) && Millis(e.at) == t
    requires |es| > PAGE || MatchingReceipts(atoi, f, older) != []
    ensures var all := es + older;
            Traps(atoi, f, all, 0) && IsFull(ScanAt(atoi, f, all, 0)) && Stop(atoi, f, all, 0) == PAGE
            && MatchingReceipts(atoi, f, all[PAGE..]) != []
  {
    var all := es + older;
    assert all[0..] == all && all[..PAGE] == es[..PAGE] && all == all[..PAGE] + all[PAGE..];
    var why := ScanExplained(atoi, f, PAGE, all);
    hide Scan, MatchingReceipts;
    PageOfMatches(atoi, f, es, older, ScanAt(atoi, f, all, 0), why);
    FirstsShareTime(atoi, f, es, PAGE);
    assert all[PAGE - 1] == es[PAGE - 1] && es[PAGE - 1] in es && all[0] == es[0] && es[0] in es;
    AllMatch(atoi, f, es);
    MatchingAppend(atoi, f, es, older);
    MatchingAppend(atoi, f, all[..PAGE], all[PAGE..]);
  }

  /** A page of matches or more in one millisecond, with more matches there or behind: the list ends short. */
  lemma CrowdedMillisecondEndsShort(q: Listing, es: seq<RequestEvent>, older: seq<RequestEvent>, t: nat)
    requires Crowd(q, es, older, t) && |es| >= PAGE && forall e :: e in es ==> Matches(q.atoi, q.filter, e)
    requires |es| > PAGE || MatchingReceipts(q.atoi, q.filter, older) != []
    ensures exists n :: Scrolled(q, n).ended && Scrolled(q, n).rows != Wanted(q)
  {
    CrowdHeads(q, es, older, t);
    CrowdIsFull(q.atoi, q.filter, es, older, t);
    hide Scan, Query, Crowd, Closed, MatchingReceipts;
    assert FullTrap(q, 0) && Behind(q, 0) != [];
    EndsShortExactly(q);
  }

  /** A scan whose first events all match stops at the page's last one. */
  lemma PageOfMatches(atoi: Atoi, f: ReceiptFilter, es: seq<RequestEvent>, older: seq<RequestEvent>, r: Scanned,
                      why: Ending)
    requires |es| >= PAGE && (forall e :: e in es ==> Matches(atoi, f, e))
             && Explains(atoi, f, PAGE, es + older, r, why)
    ensures r.scanned == PAGE && r.continueBefore == 0 && r.out == MatchingReceipts(atoi, f, es[..PAGE])
  {
    hide MatchingReceipts;
    var all, n := es + older, if r.scanned < PAGE then r.scanned else PAGE;
    var rest := all[n..r.scanned];
    assert all[..n] == es[..n] && forall e :: e in es[..n] ==> e in es;
    AllMatch(atoi, f, all[..n]);
    assert all[..r.scanned] == all[..n] + rest;
    MatchingAppend(atoi, f, all[..n], rest);
    if n < r.scanned && why.Full? {
      assert rest[|rest| - 1] == all[r.scanned - 1];
      LastMatch(atoi, f, rest);
    }
  }

  lemma FirstsShareTime(atoi: Atoi, f: ReceiptFilter, es: seq<RequestEvent>, n: nat)
    requires n <= |es| && forall e :: e in es ==> Matches(atoi, f, e)
    ensures var rs := MatchingReceipts(atoi, f, es[..n]);
            |rs| == n && forall i :: 0 <= i < n ==> rs[i].ts == Millis(es[i].at)
  {
    assert forall e :: e in es[..n] ==> e in es;
    AllMatch(atoi, f, es[..n]);
  }

  /** As many events in one millisecond as a scan reads, with less than a page of matches among them: it never ends. */
  lemma CrowdedMillisecondNeverEnds(q: Listing, es: seq<RequestEvent>, older: seq<RequestEvent>, t: nat)
    requires Crowd(q, es, older, t) && |es| >= SCAN_CAP
    requires |MatchingReceipts(q.atoi, q.filter, es[..SCAN_CAP])| < PAGE
    ensures forall n :: !Scrolled(q, n).ended
  {
    var all := es + older;
    CrowdHeads(q, es, older, t);
    var why := ScanExplained(q.atoi, q.filter, PAGE, all);
    hide Scan, Query, Crowd, Closed, MatchingReceipts;
    assert all[..SCAN_CAP] == es[..SCAN_CAP] && all[SCAN_CAP - 1] == es[SCAN_CAP - 1] && es[SCAN_CAP - 1] in es;
    CapIsReached(q.atoi, q.filter, all, TrapScan(q, 0), why);
    assert Traps(q.atoi, q.filter, all, 0);
    assert CappedTrap(q, 0);
    NeverEndsExactly(q);
  }

  lemma CapIsReached(atoi: Atoi, f: ReceiptFilter, es: seq<RequestEvent>, r: Scanned, why: Ending)
    requires |es| >= SCAN_CAP && |MatchingReceipts(atoi, f, es[..SCAN_CAP])| < PAGE
             && Explains(atoi, f, PAGE, es, r, why)
    ensures why.Capped?
  {
    assert es[..SCAN_CAP] == es[..r.scanned] + es[r.scanned..SCAN_CAP];
    MatchingAppend(atoi, f, es[..r.scanned], es[r.scanned..SCAN_CAP]);
  }

  lemma {:induction false} QueryAll(es: seq<RequestEvent>, t: nat)
    requires forall e :: e in es ==> Millis(e.at) <= t
    ensures Query(es, 0, t + 1) == es
  {
    if es != [] {
      QueryAll(es[..|es| - 1], t);
      assert es[|es| - 1] in es;
      assert es == es[..|es| - 1] + [es[|es| - 1]];
    }
  }
}
