/**
 Counting requests from the llm_requests meter's grouped rows: Traffic's count and the Overview chart.
 The meter answers for whole seconds, so both are compared with the plain list of events.
 */
module UsageCounting {
  import opened Common
  import opened Receipts
  import opened ReceiptScan
  import opened ReceiptPaging
  import opened Totals

  const MINUTE := 60 * SECOND
  const HOUR := 60 * MINUTE
  const DAY := 24 * HOUR
  const CATALOG_SPAN := 30 * DAY

  /** An event at or after from and before to, both in milliseconds. */
  predicate Within(from: int, to: int, e: RequestEvent) { from * MILLISECOND <= e.at < to * MILLISECOND }

  /** The meter's window ends as sent: without the fraction of a second. */
  function FloorSecond(ms: nat): nat { ms / 1000 * 1000 }

  function Between(from: int, to: int): RequestEvent -> bool { (e: RequestEvent) => Within(from, to, e) }

  function Matched(atoi: Atoi, f: ReceiptFilter): RequestEvent -> bool { (e: RequestEvent) => Matches(atoi, f, e) }

  // ---- Traffic's count ----

  datatype CountRow = CountRow(group: Group, value: int)

  function CountGroup(r: CountRow): Group { r.group }
  function CountValue(r: CountRow): int { r.value }
  function EventGroup(e: RequestEvent): Group { e.group }

  /** OpenMeter's answer: one row per combination of the grouped fields, with the number of such events. */
  ghost predicate IsCount(rows: seq<CountRow>, es: seq<RequestEvent>) {
    IsGrouping(INTS, rows, CountGroup, CountValue, es, EventGroup, One)
  }

  function From(f: ReceiptFilter, now: nat): int
    requires now >= CATALOG_SPAN
  {
    if f.since > 0 then f.since else (now - CATALOG_SPAN) / MILLISECOND
  }

  function To(f: ReceiptFilter, now: nat): int { if f.before > 0 then f.before else now / MILLISECOND }

  function GroupMatches(atoi: Atoi, f: ReceiptFilter): Group -> bool { g => Match(f, FieldsOf(atoi, g)) }

  lemma GroupMatchesEvent(atoi: Atoi, f: ReceiptFilter, e: RequestEvent)
    ensures Through(EventGroup, GroupMatches(atoi, f))(e) == Matched(atoi, f)(e)
  {
    assert EventGroup(e) == e.group;
    assert GroupMatches(atoi, f)(e.group) == Matches(atoi, f, e) by { hide Match, FieldsOf; }
  }

  lemma CountFromGroups(atoi: Atoi, f: ReceiptFilter, p: RequestEvent -> bool, rows: seq<CountRow>,
                        all: seq<RequestEvent>)
    requires IsCount(rows, Filter(p, all))
    ensures TotalIf(INTS, CountValue, Through(CountGroup, GroupMatches(atoi, f)), rows) ==
              |Filter(Both(p, Matched(atoi, f)), all)|
  {
    hide Match, FieldsOf, Through, GroupMatches, Matched, EventGroup, Filter, TotalIf, IsGrouping;
    var q := Through(EventGroup, GroupMatches(atoi, f));
    GroupedTotal(INTS, rows, CountGroup, CountValue, Filter(p, all), EventGroup, One, GroupMatches(atoi, f));
    TotalOfOnes(q, Filter(p, all));
    FilterTwice(p, q, all);
    forall e | e in all ensures Both(p, q)(e) == Both(p, Matched(atoi, f))(e) { GroupMatchesEvent(atoi, f, e); }
    FilterSame(Both(p, q), Both(p, Matched(atoi, f)), all);
  }

  /** The events at or after from and before to, in nanoseconds, that the filter asks for. */
  ghost function Asked(atoi: Atoi, f: ReceiptFilter, from: int, to: int): RequestEvent -> bool {
    (e: RequestEvent) => from <= e.at < to && AskedFor(atoi, f, e.group)
  }

  lemma MatchedAreAsked(atoi: Atoi, f: ReceiptFilter, from: int, to: int, all: seq<RequestEvent>)
    ensures Filter(Both(Between(from, to), Matched(atoi, f)), all) ==
              Filter(Asked(atoi, f, from * 1_000_000, to * 1_000_000), all)
  {
    hide Match, FieldsOf, AskedFor;
    var p, q := Both(Between(from, to), Matched(atoi, f)), Asked(atoi, f, from * 1_000_000, to * 1_000_000);
    forall e | e in all ensures p(e) == q(e) { MatchIsAskedFor(atoi, f, e.group); }
    FilterSame(p, q, all);
  }

  method SumMatching(atoi: Atoi, f: ReceiptFilter, rows: seq<CountRow>) returns (count: int)
    ensures count == TotalIf(INTS, CountValue, Through(CountGroup, GroupMatches(atoi, f)), rows)
  {
    count := 0;
    for i := 0 to |rows|
      invariant count == TotalIf(INTS, CountValue, Through(CountGroup, GroupMatches(atoi, f)), rows[..i])
    {
      var g := rows[i].group;
      var status := atoi(g.code);
      var v := Fields(g.apiKey, g.team, ProjectId(g.team, g.resource), g.model, VerdictOf(status, g.usageReported));
      assert CountGroup(rows[i]) == g && CountValue(rows[i]) == rows[i].value;
      if Match(f, v) { count := count + rows[i].value; }
      assert rows[..i + 1][..i] == rows[..i];
    }
    assert rows[..|rows|] == rows;
  }

  /** The count is of the events asked for between the bounds, each taken down to its whole second. */
  method ReceiptCount(atoi: Atoi, f: ReceiptFilter, now: nat, rows: seq<CountRow>, ghost all: seq<RequestEvent>)
    returns (count: int, since: int)
    requires now >= CATALOG_SPAN
    requires IsCount(rows, Filter(Between(FloorSecond(From(f, now)), FloorSecond(To(f, now))), all))
    ensures count == |Filter(Both(Between(FloorSecond(From(f, now)), FloorSecond(To(f, now))), Matched(atoi, f)), all)|
    ensures since == From(f, now)
    ensures var to := if f.before > 0 then f.before else now / 1_000_000;
            && since == (if f.since > 0 then f.since else (now - 30 * 24 * 3600 * 1_000_000_000) / 1_000_000)
            && count == |Filter(Asked(atoi, f, since / 1000 * 1_000_000_000, to / 1000 * 1_000_000_000), all)|
  {
    hide TotalIf, Filter, IsGrouping, Match, FieldsOf, AskedFor;
    since := From(f, now);
    count := SumMatching(atoi, f, rows);
    CountFromGroups(atoi, f, Between(FloorSecond(From(f, now)), FloorSecond(To(f, now))), rows, all);
    MatchedAreAsked(atoi, f, FloorSecond(From(f, now)), FloorSecond(To(f, now)), all);
  }

  function Bit(b: bool): nat { if b then 1 else 0 }

  lemma {:induction false} CountsBalance<T>(p: T -> bool, q: T -> bool, r: T -> bool, s: T -> bool, xs: seq<T>)
    requires forall x :: x in xs ==> Bit(p(x)) + Bit(q(x)) == Bit(r(x)) + Bit(s(x))
    ensures |Filter(p, xs)| + |Filter(q, xs)| == |Filter(r, xs)| + |Filter(s, xs)|
  {
    if xs != [] { CountsBalance(p, q, r, s, xs[..|xs| - 1]); }
  }

  /** The number of rows the list over the same window holds when fully loaded. */
  function Accepted(atoi: Atoi, f: ReceiptFilter, from: int, to: int, all: seq<RequestEvent>): nat {
    |MatchingReceipts(atoi, f, Query(all, from, to))|
  }

  lemma {:induction false} MatchingIsFilter(atoi: Atoi, f: ReceiptFilter, es: seq<RequestEvent>)
    ensures |MatchingReceipts(atoi, f, es)| == |Filter(Matched(atoi, f), es)|
  {
    if es != [] { MatchingIsFilter(atoi, f, es[..|es| - 1]); }
  }

  lemma AcceptedIsFilter(atoi: Atoi, f: ReceiptFilter, from: int, to: int, all: seq<RequestEvent>)
    requires from > 0 && to > 0
    ensures Accepted(atoi, f, from, to, all) == |Filter(Both(Between(from, to), Matched(atoi, f)), all)|
  {
    var p := (e: RequestEvent) => InWindow(from, to, e);
    MatchingIsFilter(atoi, f, Query(all, from, to));
    assert Query(all, from, to) == Filter(p, all) by { FilterSame((e: RequestEvent) => InWindow(from, to, e), p, all); }
    FilterSame(p, Between(from, to), all);
    FilterTwice(Between(from, to), Matched(atoi, f), all);
  }

  /**
   For every window and any events: what the count has too much is what happened in the part of from's
   second before from, and what it lacks is what happened in to's last, unfinished second.
   */
  lemma CountMissesFractions(atoi: Atoi, f: ReceiptFilter, from: nat, to: nat, all: seq<RequestEvent>)
    requires 0 < from <= to
    ensures |Filter(Both(Between(FloorSecond(from), FloorSecond(to)), Matched(atoi, f)), all)|
            + |Filter(Both(Between(FloorSecond(to), to), Matched(atoi, f)), all)|
            == Accepted(atoi, f, from, to, all)
               + |Filter(Both(Between(FloorSecond(from), from), Matched(atoi, f)), all)|
  {
    AcceptedIsFilter(atoi, f, from, to, all);
    assert FloorSecond(from) <= FloorSecond(to);
    CountsBalance(Both(Between(FloorSecond(from), FloorSecond(to)), Matched(atoi, f)),
                  Both(Between(FloorSecond(to), to), Matched(atoi, f)),
                  Both(Between(from, to), Matched(atoi, f)),
                  Both(Between(FloorSecond(from), from), Matched(atoi, f)), all);
  }

  /** With both ends on whole seconds the count is the length of the fully loaded list. */
  lemma WholeSecondsCountExactly(atoi: Atoi, f: ReceiptFilter, from: nat, to: nat, all: seq<RequestEvent>)
    requires from > 0 && to > 0 && from % 1000 == 0 && to % 1000 == 0
    ensures |Filter(Both(Between(FloorSecond(from), FloorSecond(to)), Matched(atoi, f)), all)| ==
              Accepted(atoi, f, from, to, all)
  {
    AcceptedIsFilter(atoi, f, from, to, all);
  }

  /** Traffic's count over [from, to), and what it should be. */
  ghost predicate CountIsRight(atoi: Atoi, f: ReceiptFilter, from: nat, to: nat, all: seq<RequestEvent>) {
    |Filter(Both(Between(FloorSecond(from), FloorSecond(to)), Matched(atoi, f)), all)| ==
      Accepted(atoi, f, from, to, all)
  }

  lemma OneEvent(p: RequestEvent -> bool, e: RequestEvent)
    ensures |Filter(p, [e])| == Bit(p(e))
  {
    assert [e][..0] == [];
  }

  /** An event of a matching group in just one of the two windows makes the count wrong. */
  lemma OneEventTells(atoi: Atoi, f: ReceiptFilter, from: nat, to: nat, e: RequestEvent)
    requires from > 0 && to > 0 && Matches(atoi, f, e)
    requires Within(FloorSecond(from), FloorSecond(to), e) != Within(from, to, e)
    ensures !CountIsRight(atoi, f, from, to, [e])
  {
    AcceptedIsFilter(atoi, f, from, to, [e]);
    OneEvent(Both(Between(from, to), Matched(atoi, f)), e);
    OneEvent(Both(Between(FloorSecond(from), FloorSecond(to)), Matched(atoi, f)), e);
    hide Filter, Matches;
  }

  /**
   The count is right whatever happened exactly when both ends are whole seconds, the window is empty, or
   nothing can match.
   */
  lemma CountIsRightExactly(atoi: Atoi, f: ReceiptFilter, from: nat, to: nat)
    requires from > 0 && to > 0
    ensures (forall all: seq<RequestEvent> :: CountIsRight(atoi, f, from, to, all))
            <==> ((from % 1000 == 0 && to % 1000 == 0) || from >= to || forall g: Group :: !GroupMatches(atoi, f)(g))
  {
    hide Match, FieldsOf;
    if from % 1000 == 0 && to % 1000 == 0 {
      forall all: seq<RequestEvent> ensures CountIsRight(atoi, f, from, to, all) {
        WholeSecondsCountExactly(atoi, f, from, to, all);
      }
    } else if from >= to || forall g: Group :: !GroupMatches(atoi, f)(g) {
      forall all: seq<RequestEvent> ensures CountIsRight(atoi, f, from, to, all) {
        NothingToCount(atoi, f, from, to, all);
      }
    } else {
      var g: Group :| GroupMatches(atoi, f)(g);
      var at := if to % 1000 == 0 then FloorSecond(from) else if from < FloorSecond(to) then FloorSecond(to) else from;
      var e := RequestEvent("e", at * MILLISECOND, g);
      assert Matches(atoi, f, e);
      OneEventTells(atoi, f, from, to, e);
    }
  }

  lemma NothingToCount(atoi: Atoi, f: ReceiptFilter, from: nat, to: nat, all: seq<RequestEvent>)
    requires from > 0 && to > 0 && (from >= to || forall g: Group :: !GroupMatches(atoi, f)(g))
    ensures CountIsRight(atoi, f, from, to, all)
  {
    hide Match, FieldsOf;
    AcceptedIsFilter(atoi, f, from, to, all);
    assert forall e: RequestEvent :: Matched(atoi, f)(e) == GroupMatches(atoi, f)(e.group);
    FilterNone(Both(Between(from, to), Matched(atoi, f)), all);
    FilterNone(Both(Between(FloorSecond(from), FloorSecond(to)), Matched(atoi, f)), all);
  }

  // ---- The Overview chart ----

  datatype Buckets = Buckets(bucket: nat, points: nat)

  function TrafficBuckets(range: string): Buckets {
    if range == "15m" then Buckets(5 * MINUTE, 3)
    else if range == "1h" then Buckets(5 * MINUTE, 12)
    else if range == "6h" then Buckets(15 * MINUTE, 24)
    else if range == "7d" then Buckets(6 * HOUR, 28)
    else if range == "30d" then Buckets(DAY, 30)
    else Buckets(30 * MINUTE, 48)
  }

  /** The buckets cover the range asked for, a day for anything but the ranges named. */
  lemma TrafficCoversRange(range: string)
    ensures var b := TrafficBuckets(range);
            var second := 1_000_000_000;
            b.bucket * b.points ==
              if range == "15m" then 15 * 60 * second
              else if range == "1h" then 3600 * second
              else if range == "6h" then 6 * 3600 * second
              else if range == "7d" then 7 * 24 * 3600 * second
              else if range == "30d" then 30 * 24 * 3600 * second
              else 24 * 3600 * second
  {
  }

  function QueryWindow(bucket: nat): nat {
    if bucket >= DAY then DAY else if bucket >= HOUR then HOUR else MINUTE
  }

  /** The query's window is the largest of a minute, an hour and a day that is no longer than the bucket. */
  lemma QueryWindowIsLargest(bucket: nat)
    requires bucket >= 60 * 1_000_000_000
    ensures var second, w := 1_000_000_000, QueryWindow(bucket);
            && w <= bucket && (w == 60 * second || w == 3600 * second || w == 24 * 3600 * second)
            && (3600 * second <= bucket ==> w >= 3600 * second)
            && (24 * 3600 * second <= bucket ==> w >= 24 * 3600 * second)
  {
  }

  /** Times since the epoch; every bucket divides a day, so buckets count from it. */
  function Truncate(at: nat, d: nat): (r: nat)
    requires d > 0
    ensures r <= at < r + d
  {
    at / d * d
  }

  function Start(now: nat, b: Buckets): int
    requires b.bucket > 0
  {
    Truncate(now, b.bucket) - (b.points - 1) * b.bucket
  }

  /** Go's integer division, towards zero. */
  function Quo(a: int, d: nat): int
    requires d > 0
  {
    if a >= 0 then a / d else -(-a / d)
  }

  /** Negative numbers are divided like their opposites. */
  lemma QuoTruncates(a: nat, d: nat)
    requires d > 0
    ensures Quo(a, d) * d <= a < Quo(a, d) * d + d && Quo(0 - a, d) == 0 - Quo(a, d)
  {
  }

  datatype SeriesKey = SeriesKey(window: nat, code: string, usageReported: string)

  datatype SeriesRow = SeriesRow(key: SeriesKey, value: int)

  function SeriesKeyOf(r: SeriesRow): SeriesKey { r.key }
  function SeriesValue(r: SeriesRow): int { r.value }

  function EventSeriesKey(w: nat): RequestEvent -> SeriesKey
    requires w > 0
  {
    (e: RequestEvent) => SeriesKey(Truncate(e.at, w), e.group.code, e.group.usageReported)
  }

  datatype Point = Point(t: int, allowed: int, throttled: int, blocked: int, truncated: int)

  datatype Verdict = Allowed | Throttled | Blocked | Truncated

  function Counted(p: Point, v: Verdict): int {
    match v
    case Allowed => p.allowed
    case Throttled => p.throttled
    case Blocked => p.blocked
    case Truncated => p.truncated
  }

  function Named(v: Verdict): string {
    match v case Allowed => ALLOWED case Throttled => THROTTLED case Blocked => BLOCKED case Truncated => TRUNCATED
  }

  predicate InBucket(start: int, bucket: nat, i: nat, at: nat) { start + i * bucket <= at < start + (i + 1) * bucket }

  predicate KeyVerdict(atoi: Atoi, code: string, usageReported: string, v: Verdict) {
    VerdictOf(atoi(code), usageReported) == Named(v)
  }

  function KeyIn(atoi: Atoi, start: int, bucket: nat, i: nat, v: Verdict): SeriesKey -> bool {
    (k: SeriesKey) => InBucket(start, bucket, i, k.window) && KeyVerdict(atoi, k.code, k.usageReported, v)
  }

  /** The requests of bucket i with verdict v, before to. */
  function EventIn(atoi: Atoi, start: int, bucket: nat, i: nat, v: Verdict, to: nat): RequestEvent -> bool {
    (e: RequestEvent) =>
      InBucket(start, bucket, i, e.at) && e.at < to && KeyVerdict(atoi, e.group.code, e.group.usageReported, v)
  }

  function AnyIn(start: int, bucket: nat, i: nat, to: nat): RequestEvent -> bool {
    (e: RequestEvent) => InBucket(start, bucket, i, e.at) && e.at < to
  }

  /** The times the chart covers: from its first bucket to the last whole second. */
  function Charted(start: int, to: nat): RequestEvent -> bool { (e: RequestEvent) => start <= e.at < to }

  function LastSecond(now: nat): nat { Truncate(now, SECOND) }

  lemma QuoIsBucket(start: int, bucket: nat, at: nat, i: nat)
    requires bucket > 0 && start <= at
    ensures Quo(at - start, bucket) == i <==> InBucket(start, bucket, i, at)
  {
    var d := at - start;
    assert d == d / bucket * bucket + d % bucket;
    if d / bucket < i { MulMono(d / bucket + 1, i, bucket); }
    if i < d / bucket { MulMono(i + 1, d / bucket, bucket); }
  }

  lemma MulMono(a: nat, b: nat, c: nat)
    requires a <= b
    ensures a * c <= b * c
  {
  }

  function Times(s: int, w: nat): int { s * w }

  /** A multiple of w. */
  ghost predicate AlignedTo(start: int, w: nat) { exists s :: start == Times(s, w) }

  /** An aligned window lies wholly inside one bucket: all its times are in the bucket of its start, and of no other. */
  lemma WindowInOneBucket(start: int, bucket: nat, w: nat, k: nat, at: nat, i: nat)
    requires w > 0 && k > 0 && bucket == k * w && AlignedTo(start, w)
    ensures InBucket(start, bucket, i, at) <==> InBucket(start, bucket, i, Truncate(at, w))
  {
    var s :| start == Times(s, w);
    Associate(i, k, w);
    Associate(i + 1, k, w);
    Distribute(s, -(i * k), w);
    Distribute(s, -((i + 1) * k), w);
    Aligned(s + i * k, at / w, at, w);
    Aligned(s + (i + 1) * k, at / w, at, w);
    assert start + i * bucket == (s + i * k) * w && start + (i + 1) * bucket == (s + (i + 1) * k) * w;
  }

  lemma Aligned(c: int, q: int, at: nat, w: nat)
    requires w > 0 && q == at / w
    ensures c * w <= at <==> c * w <= q * w
  {
    if c <= q {
      assert c * w <= q * w;
    } else {
      assert (q + 1) * w <= c * w;
      assert (q + 1) * w == q * w + w;
    }
  }

  lemma BucketsAlign(now: nat, b: Buckets, k: nat)
    requires b.bucket > 0 && b.points > 0 && k > 0 && b.bucket == k * QueryWindow(b.bucket)
    ensures AlignedTo(Start(now, b), QueryWindow(b.bucket))
  {
    var w, n := QueryWindow(b.bucket), now / b.bucket - (b.points - 1);
    hide QueryWindow;
    Distribute(now / b.bucket, b.points - 1, b.bucket);
    Associate(n, k, w);
    assert Start(now, b) == Times(n * k, w);
  }

  lemma Distribute(a: int, b: int, c: int)
    ensures a * c - b * c == (a - b) * c
  {
  }

  lemma Associate(a: int, b: int, c: int)
    ensures a * (b * c) == (a * b) * c
  {
  }

  function Ratio(range: string): (k: nat)
    ensures k > 0 && TrafficBuckets(range).bucket == k * QueryWindow(TrafficBuckets(range).bucket)
    ensures 0 < TrafficBuckets(range).points
  {
    var b := TrafficBuckets(range).bucket;
    b / QueryWindow(b)
  }

  ghost predicate IsSeries(rows: seq<SeriesRow>, es: seq<RequestEvent>, w: nat)
    requires w > 0
  {
    IsGrouping(INTS, rows, SeriesKeyOf, SeriesValue, es, EventSeriesKey(w), One)
  }

  function Bump(p: Point, v: Verdict, n: int): Point {
    match v
    case Allowed => p.(allowed := p.allowed + n)
    case Throttled => p.(throttled := p.throttled + n)
    case Blocked => p.(blocked := p.blocked + n)
    case Truncated => p.(truncated := p.truncated + n)
  }

  lemma KeyStartsInChart(e: RequestEvent, start: int, w: nat)
    requires w > 0 && AlignedTo(start, w) && start <= e.at
    ensures start <= EventSeriesKey(w)(e).window
  {
    var s :| start == Times(s, w);
    Aligned(s, e.at / w, e.at, w);
  }

  /** A row for a window before the chart counts nothing. */
  lemma NothingBeforeStart(rows: seq<SeriesRow>, es: seq<RequestEvent>, start: int, w: nat, j: nat)
    requires w > 0 && AlignedTo(start, w) && IsSeries(rows, es, w) && j < |rows| && rows[j].key.window < start
    requires forall e :: e in es ==> start <= e.at
    ensures rows[j].value == 0
  {
    assert rows[j] in rows;
    assert SeriesKeyOf(rows[j]) == rows[j].key && SeriesValue(rows[j]) == rows[j].value;
    var p := Through(EventSeriesKey(w), Is(rows[j].key));
    assert rows[j].value == TotalIf(INTS, One<RequestEvent>, p, es);
    hide TotalIf;
    forall e | e in es ensures !p(e) { KeyStartsInChart(e, start, w); }
    TotalOfFalse(INTS, One<RequestEvent>, p, es);
  }

  /** What the rows hold for bucket i and verdict v. */
  function CellTotal(atoi: Atoi, start: int, bucket: nat, i: nat, v: Verdict, rows: seq<SeriesRow>): int {
    TotalIf(INTS, SeriesValue, Through(SeriesKeyOf, KeyIn(atoi, start, bucket, i, v)), rows)
  }

  lemma CellTotalNext(atoi: Atoi, start: int, bucket: nat, i: nat, v: Verdict, rows: seq<SeriesRow>, j: nat)
    requires j < |rows|
    ensures CellTotal(atoi, start, bucket, i, v, rows[..j + 1])
            == CellTotal(atoi, start, bucket, i, v, rows[..j])
               + (if KeyIn(atoi, start, bucket, i, v)(rows[j].key) then rows[j].value else 0)
  {
    var next := rows[..j + 1];
    assert next[..|next| - 1] == rows[..j] && next[|next| - 1] == rows[j];
    var q := KeyIn(atoi, start, bucket, i, v);
    var p := Through(SeriesKeyOf, q);
    assert p(rows[j]) == q(SeriesKeyOf(rows[j]));
    assert SeriesKeyOf(rows[j]) == rows[j].key;
  }

  lemma CellIsExact(atoi: Atoi, start: int, bucket: nat, w: nat, k: nat, i: nat, v: Verdict, to: nat,
                    rows: seq<SeriesRow>, all: seq<RequestEvent>)
    requires w > 0 && k > 0 && bucket == k * w && AlignedTo(start, w)
    requires IsSeries(rows, Filter(Charted(start, to), all), w)
    ensures CellTotal(atoi, start, bucket, i, v, rows) == |Filter(EventIn(atoi, start, bucket, i, v, to), all)|
  {
    var es, q := Filter(Charted(start, to), all), KeyIn(atoi, start, bucket, i, v);
    var p := Through(EventSeriesKey(w), q);
    GroupedTotal(INTS, rows, SeriesKeyOf, SeriesValue, es, EventSeriesKey(w), One, q);
    TotalOfOnes(p, es);
    FilterTwice(Charted(start, to), p, all);
    forall e | e in all ensures Both(Charted(start, to), p)(e) == EventIn(atoi, start, bucket, i, v, to)(e) {
      EventStaysInBucket(atoi, start, bucket, w, k, i, v, to, e);
    }
    FilterSame(Both(Charted(start, to), p), EventIn(atoi, start, bucket, i, v, to), all);
  }

  lemma EventStaysInBucket(atoi: Atoi, start: int, bucket: nat, w: nat, k: nat, i: nat, v: Verdict, to: nat,
                           e: RequestEvent)
    requires w > 0 && k > 0 && bucket == k * w && AlignedTo(start, w)
    ensures Both(Charted(start, to), Through(EventSeriesKey(w), KeyIn(atoi, start, bucket, i, v)))(e)
            == EventIn(atoi, start, bucket, i, v, to)(e)
  {
    hide VerdictOf, Truncate;
    WindowInOneBucket(start, bucket, w, k, e.at, i);
    assert InBucket(start, bucket, i, e.at) ==> start <= e.at;
  }

  function VerdictName(code: int, usageReported: string): (v: Verdict)
    ensures VerdictOf(code, usageReported) == Named(v)
  {
    if code == 429 then Throttled
    else if code >= 400 then Blocked
    else if usageReported == "false" then Truncated else Allowed
  }

  lemma NamesDiffer(u: Verdict, v: Verdict)
    ensures Named(u) == Named(v) <==> u == v
  {
    assert ALLOWED != BLOCKED by { assert ALLOWED[0] == 'a' && BLOCKED[0] == 'b'; }
    assert THROTTLED != TRUNCATED by { assert THROTTLED[1] == 'h' && TRUNCATED[1] == 'r'; }
    assert |ALLOWED| == |BLOCKED| == 7 && |THROTTLED| == |TRUNCATED| == 9;
  }

  lemma VerdictsDiffer(code: int, usageReported: string, v: Verdict)
    ensures VerdictOf(code, usageReported) == Named(v) <==> v == VerdictName(code, usageReported)
  {
    NamesDiffer(v, VerdictName(code, usageReported));
  }

  function All(p: Point): int { p.allowed + p.throttled + p.blocked + p.truncated }

  lemma {:induction false} VerdictsCover(atoi: Atoi, start: int, bucket: nat, i: nat, to: nat, es: seq<RequestEvent>)
    ensures |Filter(EventIn(atoi, start, bucket, i, Allowed, to), es)|
            + |Filter(EventIn(atoi, start, bucket, i, Throttled, to), es)|
            + |Filter(EventIn(atoi, start, bucket, i, Blocked, to), es)|
            + |Filter(EventIn(atoi, start, bucket, i, Truncated, to), es)|
            == |Filter(AnyIn(start, bucket, i, to), es)|
  {
    if es != [] {
      VerdictsCover(atoi, start, bucket, i, to, es[..|es| - 1]);
      var g := es[|es| - 1].group;
      forall v
        ensures KeyVerdict(atoi, g.code, g.usageReported, v) <==> v == VerdictName(atoi(g.code), g.usageReported)
      {
        VerdictsDiffer(atoi(g.code), g.usageReported, v);
      }
    }
  }

  function InFirst(start: int, bucket: nat, n: nat, to: nat): RequestEvent -> bool {
    (e: RequestEvent) => start <= e.at < start + n * bucket && e.at < to
  }

  lemma {:induction false} PointsCover(start: int, bucket: nat, to: nat, points: seq<Point>, n: nat,
                                       all: seq<RequestEvent>)
    requires n <= |points| && forall i :: 0 <= i < n ==> All(points[i]) == |Filter(AnyIn(start, bucket, i, to), all)|
    ensures Sum(All, points[..n]) == |Filter(InFirst(start, bucket, n, to), all)|
  {
    var none := (e: RequestEvent) => false;
    FilterNone(none, all);
    if n == 0 {
      FilterSame(InFirst(start, bucket, n, to), none, all);
    } else {
      PointsCover(start, bucket, to, points, n - 1, all);
      assert points[..n][..n - 1] == points[..n - 1];
      assert n * bucket == (n - 1) * bucket + bucket;
      CountsBalance(InFirst(start, bucket, n - 1, to), AnyIn(start, bucket, n - 1, to), InFirst(start, bucket, n, to),
                    none, all);
    }
  }

  /** Every request from the first bucket to the last whole second is in some point's counts, once. */
  lemma NoneLost(atoi: Atoi, now: nat, b: Buckets, points: seq<Point>, all: seq<RequestEvent>)
    requires b.bucket > 0 && |points| == b.points
    requires forall i, v :: 0 <= i < b.points ==>
               Counted(points[i], v) == |Filter(EventIn(atoi, Start(now, b), b.bucket, i, v, LastSecond(now)), all)|
    ensures Sum(All, points) == |Filter(Charted(Start(now, b), LastSecond(now)), all)|
  {
    var start, to := Start(now, b), LastSecond(now);
    forall i | 0 <= i < b.points ensures All(points[i]) == |Filter(AnyIn(start, b.bucket, i, to), all)| {
      VerdictsCover(atoi, start, b.bucket, i, to, all);
      assert forall v :: Counted(points[i], v) == |Filter(EventIn(atoi, start, b.bucket, i, v, to), all)|;
      assert All(points[i]) ==
               Counted(points[i], Allowed) + Counted(points[i], Throttled) + Counted(points[i], Blocked)
               + Counted(points[i], Truncated);
    }
    PointsCover(start, b.bucket, to, points, b.points, all);
    assert points[..b.points] == points;
    assert b.points * b.bucket == (b.points - 1) * b.bucket + b.bucket;
    FilterSame(InFirst(start, b.bucket, b.points, to), Charted(start, to), all);
  }

  /** Each bucket's four counts are the numbers of its requests with each verdict. */
  method TrafficSeries(atoi: Atoi, range: string, now: nat, rows: seq<SeriesRow>, ghost all: seq<RequestEvent>)
    returns (points: seq<Point>)
    requires now >= CATALOG_SPAN + DAY
    requires var b := TrafficBuckets(range);
             IsSeries(rows, Filter(Charted(Start(now, b), LastSecond(now)), all), QueryWindow(b.bucket))
    ensures |points| == TrafficBuckets(range).points
    ensures var b := TrafficBuckets(range);
            forall i :: 0 <= i < b.points ==> points[i].t == (Start(now, b) + i * b.bucket) / MILLISECOND
    ensures var b := TrafficBuckets(range);
            forall i, v :: 0 <= i < b.points ==>
              Counted(points[i], v) == |Filter(EventIn(atoi, Start(now, b), b.bucket, i, v, LastSecond(now)), all)|
    ensures Sum(All, points) == |Filter(Charted(Start(now, TrafficBuckets(range)), LastSecond(now)), all)|
  {
    var b := TrafficBuckets(range);
    ghost var k := Ratio(range);
    BucketsAlign(now, b, k);
    var start := Start(now, b);
    ghost var es := Filter(Charted(start, LastSecond(now)), all);
    FilterMember(Charted(start, LastSecond(now)), all);
    assert forall e :: e in es ==> start <= e.at;
    points := Fill(atoi, start, b.bucket, b.points, QueryWindow(b.bucket), rows, es);
    forall i, v | 0 <= i < b.points
      ensures Counted(points[i], v) == |Filter(EventIn(atoi, start, b.bucket, i, v, LastSecond(now)), all)|
    {
      CellIsExact(atoi, start, b.bucket, QueryWindow(b.bucket), k, i, v, LastSecond(now), rows, all);
    }
    NoneLost(atoi, now, b, points, all);
  }

  /** The chart's points from the rows, each row added to the bucket its window starts in. */
  method Fill(atoi: Atoi, start: int, bucket: nat, n: nat, ghost w: nat, rows: seq<SeriesRow>,
              ghost es: seq<RequestEvent>)
    returns (points: seq<Point>)
    requires bucket > 0 && w > 0 && AlignedTo(start, w) && IsSeries(rows, es, w)
             && forall e :: e in es ==> start <= e.at
    ensures |points| == n && forall i :: 0 <= i < n ==> points[i].t == (start + i * bucket) / MILLISECOND
    ensures forall i, v :: 0 <= i < n ==> Counted(points[i], v) == CellTotal(atoi, start, bucket, i, v, rows)
  {
    hide CellTotal, VerdictOf, VerdictName, Quo, IsSeries, InBucket;
    var out := new Point[n](i => Point((start + i * bucket) / MILLISECOND, 0, 0, 0, 0));
    forall i: nat, v ensures CellTotal(atoi, start, bucket, i, v, rows[..0]) == 0 {
      CellTotalNone(atoi, start, bucket, i, v);
    }
    for j := 0 to |rows|
      invariant out.Length == n
      invariant forall i :: 0 <= i < n ==> out[i].t == (start + i * bucket) / MILLISECOND
      invariant forall i, v :: 0 <= i < n ==> Counted(out[i], v) == CellTotal(atoi, start, bucket, i, v, rows[..j])
    {
      var key := rows[j].key;
      var i := Quo(key.window - start, bucket);
      var code := atoi(key.code);
      forall m: nat, v
        ensures CellTotal(atoi, start, bucket, m, v, rows[..j + 1])
                == CellTotal(atoi, start, bucket, m, v, rows[..j])
                   + (if m == i && v == VerdictName(code, key.usageReported) then rows[j].value else 0)
      {
        CellTotalNext(atoi, start, bucket, m, v, rows, j);
        VerdictsDiffer(code, key.usageReported, v);
        RowBucket(rows, es, start, bucket, w, j, m);
      }
      if i < 0 || i >= n { continue; }
      ghost var before := out[..];
      out[i] := Bump(out[i], VerdictName(code, key.usageReported), rows[j].value);
      forall m, v | 0 <= m < n ensures Counted(out[m], v) == CellTotal(atoi, start, bucket, m, v, rows[..j + 1]) {
        assert Counted(before[m], v) == CellTotal(atoi, start, bucket, m, v, rows[..j]);
      }
    }
    assert rows[..|rows|] == rows;
    points := out[..];
  }

  lemma CellTotalNone(atoi: Atoi, start: int, bucket: nat, i: nat, v: Verdict)
    ensures CellTotal(atoi, start, bucket, i, v, []) == 0
  {
  }

  /** Go's division finds the row's bucket, unless the row counts nothing anyway. */
  lemma RowBucket(rows: seq<SeriesRow>, es: seq<RequestEvent>, start: int, bucket: nat, w: nat, j: nat, m: nat)
    requires bucket > 0 && w > 0 && AlignedTo(start, w) && IsSeries(rows, es, w) && j < |rows|
             && forall e :: e in es ==> start <= e.at
    ensures rows[j].value == 0
            || (Quo(rows[j].key.window - start, bucket) == m <==> InBucket(start, bucket, m, rows[j].key.window))
  {
    if rows[j].key.window < start {
      NothingBeforeStart(rows, es, start, w, j);
    } else {
      QuoIsBucket(start, bucket, rows[j].key.window, m);
    }
  }
}
