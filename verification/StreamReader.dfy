/**
 The stream's read of OpenMeter: the requests of the last window up to the scan cap, tokens looked up
 only for receipts not settled yet, and a count of what lies between two capped reads.
 */
module StreamReader {
  import opened Common
  import opened Receipts
  import opened ReceiptScan

  /** A receipt with its token counts in. */
  datatype Entry = Entry(receipt: Receipt, input: nat, output: nat)

  predicate IsSettled(e: Entry) { e.receipt.fields.verdict != ALLOWED || e.input + e.output > 0 }

  /** Times (epoch ms) [from, to) whose requests the stream could not read. */
  datatype Span = Span(from: int, to: int)

  ghost predicate Apart(spans: seq<Span>) {
    && (forall i :: 0 <= i < |spans| ==> spans[i].from < spans[i].to)
    && (forall i, j :: 0 <= i < j < |spans| ==> spans[i].to <= spans[j].from)
  }

  function Total(counts: seq<nat>): nat {
    if counts == [] then 0 else Total(counts[..|counts| - 1]) + counts[|counts| - 1]
  }

  lemma TotalAdds(counts: seq<nat>, n: nat)
    ensures Total([]) == 0 && Total(counts + [n]) == Total(counts) + n
  {
    assert (counts + [n])[..|counts|] == counts;
  }

  /** Everything the outside answers to one read: the window's events, and each call's success. */
  datatype Outside = Outside(since: int, events: seq<RequestEvent>, scanFails: bool,
                             meter: seq<nat>, meterFails: bool, completed: map<string, Entry>, completeFails: bool)

  class Reader {
    const atoi: Atoi
    var settled: map<string, Entry>
    var missedTo: int
    var prevNewest: int
    /** History: every span counted as missed, oldest first. */
    ghost var spans: seq<Span>

    constructor (atoi: Atoi)
      ensures Valid() && spans == [] && settled == map[] && missedTo == prevNewest == 0 && this.atoi == atoi
    {
      this.atoi := atoi;
      settled, missedTo, prevNewest, spans := map[], 0, 0, [];
    }

    ghost predicate Valid()
      reads this
    {
      Apart(spans) && (forall s :: s in spans ==> s.to <= missedTo)
    }

    function Scanned(o: Outside): Scanned {
      Scan(atoi, ReceiptFilter([], [], [], [], [], o.since, 0), SCAN_CAP + 1, o.events)
    }

    /** What one receipt of a read comes out as. */
    function Resolved(o: Outside, r: Receipt): Entry
      reads this
    {
      if r.id in settled then settled[r.id]
      else if r.id in o.completed then o.completed[r.id] else Entry(r, 0, 0)
    }

    /** The span a read leaves out, if any: older in the window than its last row and not seen or counted before. */
    function LeftOut(o: Outside): Option<Span>
      reads this
    {
      var from, to := Max(o.since, Max(missedTo, prevNewest)), OldestTs(Scanned(o).out);
      if Scanned(o).continueBefore > 0 && from < to then Some(Span(from, to)) else None
    }

    /** A span starts where all before it was read or counted, and ends with the scan's last row. */
    predicate Begins(o: Outside, span: Span)
      reads this
    {
      && span.from >= o.since && span.from >= missedTo && span.from >= prevNewest
      && (span.from == o.since || span.from == missedTo || span.from == prevNewest)
      && Scanned(o).out != [] && span.to == Scanned(o).out[|Scanned(o).out| - 1].ts && span.from < span.to
    }

    /** Nothing is left out: the scan saw the whole window, or its last row is no later than what was covered. */
    predicate Covered(o: Outside)
      reads this
    {
      var out := Scanned(o).out;
      Scanned(o).continueBefore <= 0
      || (out != [] && var oldest := out[|out| - 1].ts; oldest <= o.since || oldest <= missedTo || oldest <= prevNewest)
    }

    lemma LeftOutIsExact(o: Outside)
      ensures LeftOut(o).None? <==> Covered(o)
      ensures LeftOut(o).Some? ==> Begins(o, LeftOut(o).value)
    {
      CappedScanHasARow(atoi, o.since, o.events);
      hide Scan;
    }

    /** Counts the left-out span; nothing changes when the meter query fails. */
    method CountMissed(o: Outside) returns (missed: nat, err: bool)
      requires Valid()
      modifies this`missedTo, this`spans
      ensures Valid()
      ensures err <==> old(LeftOut(o)).Some? && o.meterFails
      ensures spans == if old(LeftOut(o)).Some? && !err then old(spans) + [old(LeftOut(o)).value] else old(spans)
      ensures missed == if spans != old(spans) then Total(o.meter) else 0
      ensures missedTo == if spans != old(spans) then spans[|spans| - 1].to else old(missedTo)
      ensures spans == old(spans) <==> old(Covered(o)) || o.meterFails
      ensures spans != old(spans) ==> |spans| == |old(spans)| + 1 && old(spans) <= spans
      ensures spans != old(spans) ==> var span := spans[|spans| - 1]; old(Begins(o, span))
    {
      LeftOutIsExact(o);
      hide Scan;
      missed, err := 0, false;
      var scan := Scanned(o);
      CappedScanHasARow(atoi, o.since, o.events);
      if scan.continueBefore > 0 {
        var from, to := Max(o.since, Max(missedTo, prevNewest)), scan.out[|scan.out| - 1].ts;
        if from < to {
          if o.meterFails { return 0, true; }
          missed := AddUp(o.meter);
          missedTo := to;
          spans := spans + [Span(from, to)];
        }
      }
    }

    /** Fills in tokens: settled receipts as they are, the rest looked up; then keeps this read's settled ones. */
    method Settle(o: Outside, found: seq<Receipt>) returns (rs: seq<Entry>)
      requires DistinctBy(ReceiptId, found)
      modifies this`settled
      ensures |rs| == |found| && forall i :: 0 <= i < |rs| ==> rs[i] == old(Resolved(o, found[i]))
      ensures forall id :: id in settled <==> exists i :: 0 <= i < |rs| && found[i].id == id && IsSettled(rs[i])
      ensures forall i :: 0 <= i < |rs| && IsSettled(rs[i]) ==> settled[found[i].id] == rs[i]
      ensures forall i :: 0 <= i < |rs| ==>
                var r, known := found[i], old(settled);
                && rs[i] == (if r.id in known then known[r.id]
                             else if r.id in o.completed then o.completed[r.id] else Entry(r, 0, 0))
                && (r.id in settled <==>
                      rs[i].receipt.fields.verdict != "allowed" || rs[i].input > 0 || rs[i].output > 0)
    {
      rs := [];
      var next: map<string, Entry> := map[];
      for i := 0 to |found|
        invariant |rs| == i && settled == old(settled)
        invariant forall k :: 0 <= k < i ==> rs[k] == old(Resolved(o, found[k]))
        invariant forall id :: id in next <==> exists k :: 0 <= k < i && found[k].id == id && IsSettled(rs[k])
        invariant forall k :: 0 <= k < i && IsSettled(rs[k]) ==> next[found[k].id] == rs[k]
      {
        var r := found[i];
        var e :=
          if r.id in settled then settled[r.id] else if r.id in o.completed then o.completed[r.id] else Entry(r, 0, 0);
        rs := rs + [e];
        if IsSettled(e) { next := next[r.id := e]; }
      }
      settled := next;
    }

    /**
     One read. Spans counted as missed never overlap over the reader's life: each starts at or after
     the end of the one before, and after everything the previous read saw. When the token lookup fails
     after the count was made the read returns no count, and its span is never counted again.
     */
    method Read(o: Outside) returns (rs: seq<Entry>, missed: nat, err: bool)
      requires Valid() && DistinctBy(ReceiptId, Scanned(o).out)
      modifies this
      ensures Valid()
      ensures err <==> o.scanFails || o.completeFails || (old(LeftOut(o)).Some? && o.meterFails)
      ensures spans ==
                if old(LeftOut(o)).Some? && !o.scanFails && !o.meterFails then old(spans) + [old(LeftOut(o)).value]
                else old(spans)
      ensures missed == if spans != old(spans) && !o.completeFails then Total(o.meter) else 0
      ensures err ==> rs == [] && settled == old(settled)
      ensures !err ==>
                |rs| == |Scanned(o).out| && forall i :: 0 <= i < |rs| ==> rs[i] == old(Resolved(o, Scanned(o).out[i]))
      ensures !err ==>
                forall id ::
                  id in settled <==> exists i :: 0 <= i < |rs| && Scanned(o).out[i].id == id && IsSettled(rs[i])
      ensures !err ==> forall i :: 0 <= i < |rs| && IsSettled(rs[i]) ==> settled[Scanned(o).out[i].id] == rs[i]
      ensures spans == old(spans) <==> o.scanFails || o.meterFails || old(Covered(o))
      ensures spans != old(spans) ==>
                && |spans| == |old(spans)| + 1 && old(spans) <= spans && missedTo == spans[|spans| - 1].to
                && var span := spans[|spans| - 1]; old(Begins(o, span))
      ensures spans == old(spans) ==> missedTo == old(missedTo)
      ensures prevNewest == if Scanned(o).out == [] || o.scanFails || (o.meterFails && !old(Covered(o)))
                            then old(prevNewest) else Scanned(o).out[0].ts
    {
      hide Scan, Total, IsSettled, Covered, Begins, LeftOut, Apart;
      LeftOutIsExact(o);
      rs, missed, err := [], 0, true;
      if o.scanFails { return; }
      var found := Scanned(o).out;
      var failed;
      missed, failed := CountMissed(o);
      if failed { return; }
      if found != [] { prevNewest := found[0].ts; }
      if o.completeFails {
        missed := 0;
        return;
      }
      err := false;
      rs := Settle(o, found);
    }
  }

  function OldestTs(rs: seq<Receipt>): int { if rs == [] then 0 else rs[|rs| - 1].ts }

  method AddUp(counts: seq<nat>) returns (n: nat)
    ensures n == Total(counts)
  {
    n := 0;
    for i := 0 to |counts|
      invariant n == Total(counts[..i])
    {
      assert counts[..i + 1][..i] == counts[..i];
      n := n + counts[i];
    }
    assert counts[..|counts|] == counts;
  }

  /** A settled receipt stays as it is for as long as its request stays in the window: two reads in a row. */
  method TwoReads(reader: Reader, o1: Outside, o2: Outside) returns (first: seq<Entry>, second: seq<Entry>, ok: bool)
    requires reader.Valid()
    requires DistinctBy(ReceiptId, reader.Scanned(o1).out) && DistinctBy(ReceiptId, reader.Scanned(o2).out)
    modifies reader
    ensures ok ==> |first| == |reader.Scanned(o1).out| && |second| == |reader.Scanned(o2).out|
    ensures ok ==> forall i, j :: 0 <= i < |first| && 0 <= j < |second| && IsSettled(first[i]) ==>
                     reader.Scanned(o1).out[i].id == reader.Scanned(o2).out[j].id ==> second[j] == first[i]
  {
    var missed, err;
    first, missed, err := reader.Read(o1);
    second := [];
    if err { return first, second, false; }
    second, missed, err := reader.Read(o2);
    ok := !err;
  }

  // ---- A count made and lost ----

  /** n requests of the first millisecond, told apart by their IDs' lengths. */
  function Busy(n: nat): seq<RequestEvent> {
    seq(n, i requires 0 <= i < n =>
          RequestEvent(seq(i, _ => 'e'), MILLISECOND, Group("key", "team", "model", "resource", "200", "true")))
  }

  /** As many as one scan reads. */
  function BusySecond(meter: seq<nat>, completeFails: bool): Outside {
    Outside(0, Busy(SCAN_CAP), false, meter, false, map[], completeFails)
  }

  lemma BusyRequests(atoi: Atoi, f: ReceiptFilter, n: nat)
    requires f == ReceiptFilter([], [], [], [], [], 0, 0)
    ensures |Busy(n)| == n && forall i :: 0 <= i < n ==> |Busy(n)[i].id| == i && Millis(Busy(n)[i].at) == 1
    ensures forall e :: e in Busy(n) ==> Matches(atoi, f, e)
  {
  }

  /** Exactly a whole scan's events, all of which match. */
  lemma WholeScan(atoi: Atoi, f: ReceiptFilter, es: seq<RequestEvent>)
    requires |es| == SCAN_CAP && forall e :: e in es ==> Matches(atoi, f, e)
    ensures var r := Scan(atoi, f, SCAN_CAP + 1, es);
            && r.continueBefore > 0 && |r.out| == SCAN_CAP
            && forall i :: 0 <= i < SCAN_CAP ==> r.out[i] == ReceiptFrom(atoi, es[i])
  {
    var why := ScanExplained(atoi, f, SCAN_CAP + 1, es);
    var r := Scan(atoi, f, SCAN_CAP + 1, es);
    hide Scan, MatchingReceipts, Matches, ReceiptFrom;
    assert forall e :: e in es[..r.scanned] ==> e in es;
    AllMatch(atoi, f, es[..r.scanned]);
    assert why.Capped?;
  }

  lemma BusyIsLeftOut(reader: Reader, meter: seq<nat>, completeFails: bool)
    requires reader.missedTo == reader.prevNewest == 0
    ensures var o := BusySecond(meter, completeFails);
            DistinctBy(ReceiptId, reader.Scanned(o).out) && reader.LeftOut(o) == Some(Span(0, 1))
  {
    var f := ReceiptFilter([], [], [], [], [], 0, 0);
    BusyRequests(reader.atoi, f, SCAN_CAP);
    hide Busy, Scan, Matches;
    WholeScan(reader.atoi, f, Busy(SCAN_CAP));
    var r := reader.Scanned(BusySecond(meter, completeFails));
    forall i | 0 <= i < SCAN_CAP ensures |r.out[i].id| == i && r.out[i].ts == 1 {}
  }

  /** A read that counts what it leaves out and then fails to fill in: the next read of the same does not count it. */
  method LosesCount(reader: Reader, o: Outside, again: Outside)
    returns (first: nat, failed: bool, second: nat, failedAgain: bool)
    requires reader.Valid() && DistinctBy(ReceiptId, reader.Scanned(o).out) && reader.LeftOut(o).Some?
    requires !o.scanFails && !o.meterFails && o.completeFails
    requires again.since == o.since && again.events == o.events && !again.scanFails && !again.completeFails
    modifies reader
    ensures reader.spans == old(reader.spans) + [old(reader.LeftOut(o)).value]
    ensures failed && first == 0 && !failedAgain && second == 0
  {
    hide Scan, Total;
    ghost var span := reader.LeftOut(o).value;
    var rs;
    rs, first, failed := reader.Read(o);
    assert span in reader.spans;
    assert reader.LeftOut(again).None?;
    rs, second, failedAgain := reader.Read(again);
  }

  /** It happens to a new reader that finds as many requests as one scan reads. */
  method LosesFirstCount(atoi: Atoi, meter: seq<nat>) returns (first: nat, failed: bool, second: nat, failedAgain: bool)
    ensures failed && first == 0 && !failedAgain && second == 0
  {
    var reader := new Reader(atoi);
    BusyIsLeftOut(reader, meter, true);
    hide Scan, Total, Busy;
    first, failed, second, failedAgain := LosesCount(reader, BusySecond(meter, true), BusySecond(meter, false));
  }
}
