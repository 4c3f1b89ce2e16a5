/**
 scanRequests: the newest matching requests, read event by event from a cursor-paged list, with a cap
 on how many events one read looks through and a point from which a further read continues.
 */
module ReceiptScan {
  import opened Common
  import opened Receipts

  const SCAN_CAP := 5000

  predicate Matches(atoi: Atoi, f: ReceiptFilter, e: RequestEvent) { Match(f, FieldsOf(atoi, e.group)) }

  /** The receipts of the matching events, in order: what a list without pages or caps would hold. */
  function MatchingReceipts(atoi: Atoi, f: ReceiptFilter, es: seq<RequestEvent>): seq<Receipt> {
    if es == [] then []
    else
      var rest := MatchingReceipts(atoi, f, es[..|es| - 1]);
      var e := es[|es| - 1];
      if Matches(atoi, f, e) then rest + [ReceiptFrom(atoi, e)] else rest
  }

  lemma {:induction false} MatchingAppend(atoi: Atoi, f: ReceiptFilter, xs: seq<RequestEvent>, ys: seq<RequestEvent>)
    ensures MatchingReceipts(atoi, f, xs + ys) == MatchingReceipts(atoi, f, xs) + MatchingReceipts(atoi, f, ys)
  {
    if ys == [] {
      assert xs + ys == xs;
    } else {
      assert (xs + ys)[..|xs + ys| - 1] == xs + ys[..|ys| - 1];
      MatchingAppend(atoi, f, xs, ys[..|ys| - 1]);
    }
  }

  lemma ListedNext(atoi: Atoi, f: ReceiptFilter, es: seq<RequestEvent>, rows: seq<Receipt>, at: seq<nat>, r: Receipt)
    requires es != [] && ListedAt(atoi, f, es[..|es| - 1], rows, at) && Shows(atoi, r, es[|es| - 1])
    ensures if AskedFor(atoi, f, es[|es| - 1].group) then ListedAt(atoi, f, es, rows + [r], at + [|es| - 1])
            else ListedAt(atoi, f, es, rows, at)
  {
    hide AskedFor, Shows;
    var n := |es| - 1;
    assert forall k :: 0 <= k < n ==> es[..n][k] == es[k];
    if AskedFor(atoi, f, es[n].group) {
      var at' := at + [n];
      assert at'[|at|] == n;
      assert forall k: nat :: k in at ==> k in at';
    }
  }

  /** Those are the rows of exactly the events asked for. */
  lemma {:induction false} MatchingListsAsked(atoi: Atoi, f: ReceiptFilter, es: seq<RequestEvent>)
    ensures ListsAsked(atoi, f, es, MatchingReceipts(atoi, f, es))
  {
    if es == [] {
      assert ListedAt(atoi, f, es, [], []);
    } else {
      hide AskedFor, Shows, Match, FieldsOf, ReceiptFrom, ListedAt;
      var n := |es| - 1;
      MatchingListsAsked(atoi, f, es[..n]);
      MatchIsAskedFor(atoi, f, es[n].group);
      ReceiptShowsEvent(atoi, es[n]);
      var rows := MatchingReceipts(atoi, f, es[..n]);
      var at :| ListedAt(atoi, f, es[..n], rows, at);
      ListedNext(atoi, f, es, rows, at, ReceiptFrom(atoi, es[n]));
    }
  }

  /** What a scan found, where to continue (0: nothing left to look for), and how many events it read. */
  datatype Scanned = Scanned(out: seq<Receipt>, continueBefore: int, scanned: nat)

  /** One event: the callback's answer is done. */
  function ScanOne(atoi: Atoi, f: ReceiptFilter, limit: nat, s: Scanned, e: RequestEvent): (Scanned, bool) {
    var out := if Matches(atoi, f, e) then s.out + [ReceiptFrom(atoi, e)] else s.out;
    var n := s.scanned + 1;
    if |out| < limit && n >= SCAN_CAP then (Scanned(out, Millis(e.at) + 1, n), true)
    else (Scanned(out, s.continueBefore, n), |out| >= limit)
  }

  function ScanFrom(atoi: Atoi, f: ReceiptFilter, limit: nat, s: Scanned, es: seq<RequestEvent>): Scanned
    decreases |es|
  {
    if es == [] then s
    else
      var (t, done) := ScanOne(atoi, f, limit, s, es[0]);
      if done then t else ScanFrom(atoi, f, limit, t, es[1..])
  }

  const EMPTY := Scanned([], 0, 0)

  function Scan(atoi: Atoi, f: ReceiptFilter, limit: nat, es: seq<RequestEvent>): Scanned {
    ScanFrom(atoi, f, limit, EMPTY, es)
  }

  function Flat(pages: seq<seq<RequestEvent>>): seq<RequestEvent> {
    if pages == [] then [] else pages[0] + Flat(pages[1..])
  }

  /** The pages EachEvent reads: up to the first empty one. */
  function Served(pages: seq<seq<RequestEvent>>): seq<seq<RequestEvent>> {
    if pages == [] || pages[0] == [] then [] else [pages[0]] + Served(pages[1..])
  }

  /** They are read from the first on, and the first empty one ends the list. */
  lemma {:induction false} ServedIsPrefix(pages: seq<seq<RequestEvent>>) returns (n: nat)
    ensures n <= |pages| && Served(pages) == pages[..n]
    ensures (forall i :: 0 <= i < n ==> pages[i] != []) && (n < |pages| ==> pages[n] == [])
  {
    n := 0;
    if pages != [] && pages[0] != [] {
      var m := ServedIsPrefix(pages[1..]);
      n := m + 1;
      assert pages[..n] == [pages[0]] + pages[1..][..m];
      assert forall i :: 1 <= i < n ==> pages[i] == pages[1..][i - 1];
      assert n < |pages| ==> pages[n] == pages[1..][m];
    }
  }

  lemma {:induction false} FlatAppend(pages: seq<seq<RequestEvent>>, page: seq<RequestEvent>)
    ensures Flat([]) == [] && Flat(pages + [page]) == Flat(pages) + page
  {
    if pages == [] {
      assert Flat([page]) == page + Flat([]);
    } else {
      FlatAppend(pages[1..], page);
      assert (pages + [page])[1..] == pages[1..] + [page];
    }
  }

  /** How a scan can end. */
  datatype Ending = Exhausted | Full | Capped

  /**
   A scan returns the matching receipts of the events it read, the newest ones, and stops for one of
   three reasons: no events left; limit matches, the last event read being one; or the cap, with
   continueBefore one past the last event read.
   */
  ghost predicate Explains(atoi: Atoi, f: ReceiptFilter, limit: nat, es: seq<RequestEvent>, r: Scanned, why: Ending) {
    && r.scanned <= |es| && r.scanned <= SCAN_CAP
    && r.out == MatchingReceipts(atoi, f, es[..r.scanned])
    && match why
       case Exhausted => r.scanned == |es| && r.scanned < SCAN_CAP && r.continueBefore == 0 && |r.out| < limit
       case Full => r.continueBefore == 0 && |r.out| == limit && r.scanned > 0 && Matches(atoi, f, es[r.scanned - 1])
       case Capped => |r.out| < limit && r.scanned == SCAN_CAP && r.continueBefore == Millis(es[r.scanned - 1].at) + 1
  }

  lemma {:induction false} ScanExplained(atoi: Atoi, f: ReceiptFilter, limit: nat, es: seq<RequestEvent>)
    returns (why: Ending)
    requires limit > 0
    ensures Explains(atoi, f, limit, es, Scan(atoi, f, limit, es), why)
  {
    assert es[..0] == [] && es[0..] == es;
    why := ScanFromExplained(atoi, f, limit, es, EMPTY);
  }

  lemma {:induction false} ScanFromExplained(atoi: Atoi, f: ReceiptFilter, limit: nat, es: seq<RequestEvent>,
                                             s: Scanned)
    returns (why: Ending)
    requires s.scanned <= |es| && s.scanned < SCAN_CAP && s.continueBefore == 0 && |s.out| < limit
    requires s.out == MatchingReceipts(atoi, f, es[..s.scanned])
    ensures Explains(atoi, f, limit, es, ScanFrom(atoi, f, limit, s, es[s.scanned..]), why)
    decreases |es| - s.scanned
  {
    var n := s.scanned;
    if n == |es| {
      assert es[n..] == [];
      why := Exhausted;
    } else {
      var (t, done) := ScanOne(atoi, f, limit, s, es[n]);
      assert es[n..][0] == es[n] && es[n..][1..] == es[n + 1..];
      assert es[..n + 1][..n] == es[..n];
      if !done {
        why := ScanFromExplained(atoi, f, limit, es, t);
      } else if |t.out| < limit {
        why := Capped;
      } else {
        why := Full;
      }
    }
  }

  /**
   The same in the events' own terms: out lists exactly the events asked for among the first n, and the scan stopped
   there because there are no more events, or because the page is full, or because 5000 were read.
   */
  ghost predicate ReadTo(atoi: Atoi, f: ReceiptFilter, limit: nat, es: seq<RequestEvent>, out: seq<Receipt>,
                         continueBefore: int, n: nat)
  {
    && n <= |es| && n <= 5000 && ListsAsked(atoi, f, es[..n], out)
    && ((n == |es| && n < 5000 && |out| < limit && continueBefore == 0)
        || (n > 0 && AskedFor(atoi, f, es[n - 1].group) && |out| == limit && continueBefore == 0)
        || (n == 5000 && |out| < limit && continueBefore == es[n - 1].at / 1_000_000 + 1))
  }

  lemma ScanReadsTo(atoi: Atoi, f: ReceiptFilter, limit: nat, es: seq<RequestEvent>) returns (n: nat)
    requires limit > 0
    ensures ReadTo(atoi, f, limit, es, Scan(atoi, f, limit, es).out, Scan(atoi, f, limit, es).continueBefore, n)
  {
    hide ScanFrom, AskedFor, Match, FieldsOf, ListsAsked;
    var why := ScanExplained(atoi, f, limit, es);
    n := Scan(atoi, f, limit, es).scanned;
    MatchingListsAsked(atoi, f, es[..n]);
    if n > 0 { MatchIsAskedFor(atoi, f, es[n - 1].group); }
  }

  /** EachEvent with scanRequests' callback: page by page through the cursor, stopping in mid-page. */
  method ScanRequests(atoi: Atoi, f: ReceiptFilter, limit: nat, pages: seq<seq<RequestEvent>>)
    returns (out: seq<Receipt>, continueBefore: int)
    ensures out == Scan(atoi, f, limit, Flat(Served(pages))).out
    ensures continueBefore == Scan(atoi, f, limit, Flat(Served(pages))).continueBefore
    ensures limit > 0 ==> exists n :: ReadTo(atoi, f, limit, Flat(Served(pages)), out, continueBefore, n)
  {
    hide Match, FieldsOf, ReceiptFrom, ReadTo;
    if limit > 0 { var _ := ScanReadsTo(atoi, f, limit, Flat(Served(pages))); }
    out, continueBefore := [], 0;
    var scanned, p := 0, 0;
    ghost var all := Flat(Served(pages));
    while p < |pages|
      invariant 0 <= p <= |pages|
      invariant Scan(atoi, f, limit, all) ==
                  ScanFrom(atoi, f, limit, Scanned(out, continueBefore, scanned), Flat(Served(pages[p..])))
      invariant 0 <= scanned
    {
      var items := pages[p];
      assert pages[p..][0] == items && pages[p..][1..] == pages[p + 1..];
      if items == [] { return; }
      ghost var rest := Flat(Served(pages[p + 1..]));
      assert Flat(Served(pages[p..])) == items + rest;
      var i := 0;
      while i < |items|
        invariant 0 <= i <= |items| && 0 <= scanned
        invariant Scan(atoi, f, limit, all) ==
                    ScanFrom(atoi, f, limit, Scanned(out, continueBefore, scanned), items[i..] + rest)
      {
        var e := items[i];
        assert (items[i..] + rest)[0] == e && (items[i..] + rest)[1..] == items[i + 1..] + rest;
        scanned := scanned + 1;
        if Matches(atoi, f, e) { out := out + [ReceiptFrom(atoi, e)]; }
        if |out| < limit && scanned >= SCAN_CAP {
          continueBefore := Millis(e.at) + 1;
          return;
        }
        if !(|out| < limit) { return; }
        i := i + 1;
      }
      assert items[i..] + rest == rest;
      p := p + 1;
    }
  }

  /** A capped scan of everything (no filter, a limit past the cap) has read at least one row to continue from. */
  lemma CappedScanHasARow(atoi: Atoi, since: int, es: seq<RequestEvent>)
    ensures var r := Scan(atoi, ReceiptFilter([], [], [], [], [], since, 0), SCAN_CAP + 1, es);
            r.continueBefore > 0 ==> |r.out| == SCAN_CAP && r.continueBefore == r.out[SCAN_CAP - 1].ts + 1
  {
    var f := ReceiptFilter([], [], [], [], [], since, 0);
    var why := ScanExplained(atoi, f, SCAN_CAP + 1, es);
    AllMatch(atoi, f, es[..Scan(atoi, f, SCAN_CAP + 1, es).scanned]);
  }

  lemma {:induction false} AllMatch(atoi: Atoi, f: ReceiptFilter, es: seq<RequestEvent>)
    requires forall e :: e in es ==> Matches(atoi, f, e)
    ensures var rs := MatchingReceipts(atoi, f, es);
            |rs| == |es| && forall i :: 0 <= i < |es| ==> rs[i] == ReceiptFrom(atoi, es[i])
  {
    if es != [] { AllMatch(atoi, f, es[..|es| - 1]); }
  }
}
