/**
 The Spend view: cells summed by a dimension, and the chart of spend per bucket, rounded to a millionth of
 a dollar at every addition. Dollars are real numbers.
 */
module Spend {
  import opened Common
  import opened StringOrder
  import opened Totals
  import opened UsageCells
  import opened UsageCounting

  datatype Field = ByTeam | ByUser | ByKey | ByModel | ByResource | ByProvider

  const LOGIN := "login"
  const LOGIN_PREFIX := "login:"

  function Dim(c: Cell, field: Field): string {
    match field
    case ByTeam => c.id.dims.team
    case ByUser => c.id.dims.user
    case ByKey => c.id.dims.key
    case ByModel => c.id.dims.model
    case ByResource => c.id.dims.resource
    case ByProvider => c.provider
  }

  /** Requests made with a login share one key, so they group by person. */
  function GroupOf(field: Field): Cell -> string {
    (c: Cell) => if field == ByKey && c.id.dims.key == LOGIN then LOGIN_PREFIX + c.id.dims.user else Dim(c, field)
  }

  /** Each dimension groups by its own part of a cell. */
  lemma GroupIsItsDimension(c: Cell)
    ensures GroupOf(ByTeam)(c) == c.id.dims.team && GroupOf(ByUser)(c) == c.id.dims.user
    ensures GroupOf(ByModel)(c) == c.id.dims.model && GroupOf(ByResource)(c) == c.id.dims.resource
    ensures GroupOf(ByProvider)(c) == c.provider
    ensures GroupOf(ByKey)(c) == if c.id.dims.key == "login" then "login:" + c.id.dims.user else c.id.dims.key
  {
    assert "login:" == LOGIN_PREFIX && "login" == LOGIN;
  }

  /** Key groups are the keys, and the persons who logged in, unless a key is spelt like a person's login. */
  lemma KeyGroupsMixExactly(c: Cell, d: Cell)
    ensures GroupOf(ByKey)(c) == GroupOf(ByKey)(d) <==>
              (c.id.dims.key == d.id.dims.key && (c.id.dims.key == LOGIN ==> c.id.dims.user == d.id.dims.user))
              || (c.id.dims.key == LOGIN && d.id.dims.key == LOGIN_PREFIX + c.id.dims.user)
              || (d.id.dims.key == LOGIN && c.id.dims.key == LOGIN_PREFIX + d.id.dims.user)
  {
    var u, v := LOGIN_PREFIX + c.id.dims.user, LOGIN_PREFIX + d.id.dims.user;
    assert u[6..] == c.id.dims.user && v[6..] == d.id.dims.user;
    assert |LOGIN| == 5 && |u| >= 6 && |v| >= 6;
  }

  // ---- Rounding ----

  /** To the nearest integer, halves away from zero. */
  function Round(x: real): real { if x >= 0.0 then (x + 0.5).Floor as real else -((0.5 - x).Floor as real) }

  const MICROS := 1_000_000.0
  const HALF_MICRO := 0.000_000_5

  function RoundUsd(v: real): real { Round(v * MICROS) / MICROS }

  /** Halves go away from zero. */
  lemma HalvesGoAway(n: nat)
    ensures Round(n as real + 0.5) == (n + 1) as real && Round(-(n as real + 0.5)) == -((n + 1) as real)
  {
    assert (n as real + 0.5 + 0.5).Floor == n + 1;
  }

  lemma RoundIsNear(v: real)
    ensures -HALF_MICRO <= RoundUsd(v) - v <= HALF_MICRO
  {
    var x := v * MICROS;
    assert -0.5 <= Round(x) - x <= 0.5;
    assert RoundUsd(v) * MICROS == Round(x);
  }

  function FromMicros(n: int): real { n as real / MICROS }

  lemma MicrosAndBack(x: real)
    ensures x / MICROS * MICROS == x
  {
  }

  lemma RoundWhole(n: int)
    ensures Round(n as real) == n as real
  {
    assert (n as real + 0.5).Floor == n && (0.5 - n as real).Floor == -n;
  }

  lemma WholeMicrosStay(n: int)
    ensures RoundUsd(FromMicros(n)) == FromMicros(n)
  {
    RoundWhole(n);
    MicrosAndBack(n as real);
    hide Round;
  }

  /** Adding up the cells satisfying p, rounding at every addition. */
  function RoundedTotal(p: Cell -> bool, cells: seq<Cell>): real {
    if cells == [] then 0.0
    else
      var rest, c := RoundedTotal(p, cells[..|cells| - 1]), cells[|cells| - 1];
      if p(c) then RoundUsd(rest + c.usd) else rest
  }

  /** Each addition is off by at most half a millionth, so n of them by at most n halves. */
  lemma {:induction false} RoundingDrift(p: Cell -> bool, cells: seq<Cell>)
    ensures var drift := RoundedTotal(p, cells) - TotalIf(REALS, Usd, p, cells);
            var bound := |Filter(p, cells)| as real * HALF_MICRO;
            -bound <= drift <= bound
  {
    if cells != [] {
      var rest, c := cells[..|cells| - 1], cells[|cells| - 1];
      RoundingDrift(p, rest);
      RoundIsNear(RoundedTotal(p, rest) + c.usd);
      if p(c) {
        assert (|Filter(p, rest)| + 1) as real * HALF_MICRO == |Filter(p, rest)| as real * HALF_MICRO + HALF_MICRO;
      }
    }
  }

  ghost predicate WholeMicros(v: real) { exists n: int :: v == FromMicros(n) }

  /** Cells that cost whole millionths do not drift at all. */
  lemma {:induction false} WholeMicrosDoNotDrift(p: Cell -> bool, cells: seq<Cell>)
    requires forall c :: c in cells ==> WholeMicros(c.usd)
    ensures RoundedTotal(p, cells) == TotalIf(REALS, Usd, p, cells) && WholeMicros(RoundedTotal(p, cells))
  {
    if cells == [] {
      assert FromMicros(0) == 0.0;
    } else {
      var rest, c := cells[..|cells| - 1], cells[|cells| - 1];
      WholeMicrosDoNotDrift(p, rest);
      var m: int :| RoundedTotal(p, rest) == FromMicros(m);
      var n: int :| c.usd == FromMicros(n);
      WholeMicrosStay(m + n);
      hide RoundUsd;
      assert FromMicros(m) + FromMicros(n) == FromMicros(m + n);
    }
  }

  // ---- The chart ----

  function TrendBuckets(range: string): Buckets {
    if range == "15m" then Buckets(5 * MINUTE, 3)
    else if range == "1h" then Buckets(5 * MINUTE, 12)
    else if range == "6h" then Buckets(15 * MINUTE, 24)
    else if range == "7d" then Buckets(DAY, 7)
    else if range == "30d" then Buckets(DAY, 30)
    else Buckets(HOUR, 24)
  }

  /** The bars cover the range asked for: minutes, hours or days, and a day for anything else. */
  lemma TrendCoversRange(range: string)
    ensures var b := TrendBuckets(range);
            var second := 1_000_000_000;
            b.bucket * b.points ==
              if range == "15m" then 15 * 60 * second
              else if range == "1h" then 3600 * second
              else if range == "6h" then 6 * 3600 * second
              else if range == "7d" then 7 * 24 * 3600 * second
              else if range == "30d" then 30 * 24 * 3600 * second
              else 24 * 3600 * second
  {
  }

  function TrendRatio(range: string): (k: nat)
    ensures k > 0 && TrendBuckets(range).bucket == k * QueryWindow(TrendBuckets(range).bucket)
    ensures 0 < TrendBuckets(range).points
  {
    var b := TrendBuckets(range).bucket;
    b / QueryWindow(b)
  }

  /** Everything that happened in a cell's window happened in the bar the cell is added to, and in no other. */
  lemma CellIsInOneBar(range: string, now: nat, at: nat, i: nat)
    requires var b := TrendBuckets(range); Start(now, b) <= at
    ensures var b := TrendBuckets(range);
            InBucket(Start(now, b), b.bucket, i, at)
            <==> Quo(Truncate(at, QueryWindow(b.bucket)) - Start(now, b), b.bucket) == i
  {
    var b := TrendBuckets(range);
    var w, k, start := QueryWindow(b.bucket), TrendRatio(range), Start(now, b);
    BucketsAlign(now, b, k);
    WindowInOneBucket(start, b.bucket, w, k, at, i);
    var s :| start == Times(s, w);
    Aligned(s, at / w, at, w);
    QuoIsBucket(start, b.bucket, Truncate(at, w), i);
  }

  function InBar(field: Field, start: int, bucket: nat, i: int, g: string): Cell -> bool
    requires bucket > 0
  {
    (c: Cell) => Quo(c.id.start - start, bucket) == i && GroupOf(field)(c) == g
  }

  function UnpricedRequests(c: Cell): int { if c.unpriced then c.requests else 0 }

  /** Only the requests of unpriced cells count as unpriced. */
  lemma {:induction false} UnpricedAreCounted(cells: seq<Cell>)
    ensures Sum(UnpricedRequests, cells) == Sum((c: Cell) => c.requests, Filter((c: Cell) => c.unpriced, cells))
  {
    if cells != [] {
      var n := |cells| - 1;
      UnpricedAreCounted(cells[..n]);
      var rest := Filter((c: Cell) => c.unpriced, cells[..n]);
      assert (rest + [cells[n]])[..|rest|] == rest;
    }
  }

  lemma BarNext(field: Field, start: int, bucket: nat, i: int, g: string, cells: seq<Cell>, c: Cell)
    requires bucket > 0
    ensures var p := InBar(field, start, bucket, i, g);
            RoundedTotal(p, cells + [c]) ==
              (if p(c) then RoundUsd(RoundedTotal(p, cells) + c.usd) else RoundedTotal(p, cells))
    ensures var p := InBar(field, start, bucket, i, g);
            Filter(p, cells + [c]) == Filter(p, cells) + (if p(c) then [c] else [])
  {
    assert (cells + [c])[..|cells|] == cells;
  }

  /** A bar's value for group g, and whether it has one. */
  ghost predicate BarHolds(field: Field, start: int, bucket: nat, i: int, bar: map<string, real>, cells: seq<Cell>)
    requires bucket > 0
  {
    forall g ::
      && (g in bar <==> Filter(InBar(field, start, bucket, i, g), cells) != [])
      && (g in bar ==> bar[g] == RoundedTotal(InBar(field, start, bucket, i, g), cells))
  }

  lemma BarAfter(field: Field, start: int, bucket: nat, i: int, bar: map<string, real>, cells: seq<Cell>, c: Cell)
    requires bucket > 0 && BarHolds(field, start, bucket, i, bar, cells)
    ensures var g := GroupOf(field)(c);
            BarHolds(field, start, bucket, i,
                     if Quo(c.id.start - start, bucket) == i
                     then bar[g := RoundUsd((if g in bar then bar[g] else 0.0) + c.usd)]
                     else bar,
                     cells + [c])
  {
    forall g
      ensures var p := InBar(field, start, bucket, i, g);
              && RoundedTotal(p, cells + [c]) ==
                   (if p(c) then RoundUsd(RoundedTotal(p, cells) + c.usd) else RoundedTotal(p, cells))
              && Filter(p, cells + [c]) == Filter(p, cells) + (if p(c) then [c] else [])
              && (Filter(p, cells) == [] ==> RoundedTotal(p, cells) == 0.0)
    {
      BarNext(field, start, bucket, i, g, cells, c);
      NoneRounded(InBar(field, start, bucket, i, g), cells);
    }
    hide RoundUsd, RoundedTotal, Filter, Quo;
  }

  lemma {:induction false} NoneRounded(p: Cell -> bool, cells: seq<Cell>)
    ensures Filter(p, cells) == [] ==> RoundedTotal(p, cells) == 0.0
  {
    if cells != [] { NoneRounded(p, cells[..|cells| - 1]); }
  }

  ghost predicate BarsHold(field: Field, start: int, bucket: nat, bars: seq<map<string, real>>, cells: seq<Cell>)
    requires bucket > 0
  {
    forall i :: 0 <= i < |bars| ==> BarHolds(field, start, bucket, i, bars[i], cells)
  }

  function AddToBars(field: Field, start: int, bucket: nat, bars: seq<map<string, real>>,
                     c: Cell): seq<map<string, real>>
    requires bucket > 0
  {
    var i, g := Quo(c.id.start - start, bucket), GroupOf(field)(c);
    if 0 <= i < |bars| then bars[i := bars[i][g := RoundUsd((if g in bars[i] then bars[i][g] else 0.0) + c.usd)]]
    else bars
  }

  lemma BarsAfter(field: Field, start: int, bucket: nat, bars: seq<map<string, real>>, cells: seq<Cell>, c: Cell)
    requires bucket > 0 && BarsHold(field, start, bucket, bars, cells)
    ensures BarsHold(field, start, bucket, AddToBars(field, start, bucket, bars, c), cells + [c])
  {
    hide BarHolds, RoundUsd, Quo, GroupOf;
    forall i | 0 <= i < |bars|
      ensures BarHolds(field, start, bucket, i, AddToBars(field, start, bucket, bars, c)[i], cells + [c])
    {
      BarAfter(field, start, bucket, i, bars[i], cells, c);
    }
  }

  /** Every bar has a value for exactly the groups with a cell in it: the rounded total of those cells. */
  method SpendTrend(range: string, field: Field, now: nat, cells: seq<Cell>)
    returns (bars: seq<map<string, real>>, unpriced: int)
    ensures |bars| == TrendBuckets(range).points
    ensures BarsHold(field, Start(now, TrendBuckets(range)), TrendBuckets(range).bucket, bars, cells)
    ensures unpriced == Sum(UnpricedRequests, cells)
  {
    hide BarsHold, RoundUsd, Quo, GroupOf;
    var b := TrendBuckets(range);
    var start := Start(now, b);
    var out := new map<string, real>[b.points](i => map[]);
    unpriced := 0;
    NothingYet(field, start, b.bucket, out[..]);
    for j := 0 to |cells|
      invariant BarsHold(field, start, b.bucket, out[..], cells[..j])
      invariant unpriced == Sum(UnpricedRequests, cells[..j])
    {
      var c := cells[j];
      assert cells[..j + 1] == cells[..j] + [c] && cells[..j + 1][..j] == cells[..j];
      ghost var before := out[..];
      BarsAfter(field, start, b.bucket, before, cells[..j], c);
      var i := Quo(c.id.start - start, b.bucket);
      if 0 <= i < b.points {
        var g := GroupOf(field)(c);
        out[i] := out[i][g := RoundUsd((if g in out[i] then out[i][g] else 0.0) + c.usd)];
      }
      assert out[..] == AddToBars(field, start, b.bucket, before, c);
      if c.unpriced { unpriced := unpriced + c.requests; }
    }
    assert cells[..|cells|] == cells;
    bars := out[..];
  }

  lemma NothingYet(field: Field, start: int, bucket: nat, bars: seq<map<string, real>>)
    requires bucket > 0 && forall i :: 0 <= i < |bars| ==> bars[i] == map[]
    ensures BarsHold(field, start, bucket, bars, [])
  {
  }

  // ---- The table ----

  datatype SpendRow = SpendRow(id: string, title: string, noDrill: bool, spend: real, prev: real, requests: int,
                               tokens: int, unpriced: int)

  function RowId(r: SpendRow): string { r.id }
  function RowRequestCount(r: SpendRow): int { r.requests }
  function RowTokens(r: SpendRow): int { r.tokens }
  function RowUnpriced(r: SpendRow): int { r.unpriced }

  function EmptyRow(id: string): SpendRow { SpendRow(id, id, false, 0.0, 0.0, 0, 0, 0) }

  function InGroup(field: Field, g: string): Cell -> bool { Through(GroupOf(field), Is(g)) }

  /** A row before rounding: the totals of its group. */
  ghost predicate RowHolds(field: Field, r: SpendRow, g: string, cur: seq<Cell>, prev: seq<Cell>) {
    var p := InGroup(field, g);
    && r.id == r.title == g && !r.noDrill
    && r.spend == TotalIf(REALS, Usd, p, cur) && r.prev == TotalIf(REALS, Usd, p, prev)
    && r.requests == TotalIf(INTS, Requests, p, cur) && r.tokens == TotalIf(INTS, Tokens, p, cur)
    && r.unpriced == TotalIf(INTS, UnpricedRequests, p, cur)
  }

  ghost predicate HasGroup(field: Field, g: string, cells: seq<Cell>) {
    exists c :: c in cells && GroupOf(field)(c) == g
  }

  lemma HasGroupNext(field: Field, g: string, cells: seq<Cell>, c: Cell)
    ensures HasGroup(field, g, cells + [c]) <==> HasGroup(field, g, cells) || GroupOf(field)(c) == g
  {
    assert c in cells + [c] && forall x :: x in cells + [c] <==> x in cells || x == c;
  }

  ghost predicate Rows(field: Field, rows: map<string, SpendRow>, cur: seq<Cell>, prev: seq<Cell>) {
    && (forall g :: g in rows <==> HasGroup(field, g, cur) || HasGroup(field, g, prev))
    && (forall g :: g in rows ==> RowHolds(field, rows[g], g, cur, prev))
  }

  function AddCurrent(r: SpendRow, c: Cell): SpendRow {
    r.(spend := r.spend + c.usd, requests := r.requests + c.requests, tokens := r.tokens + c.tokens,
       unpriced := r.unpriced + UnpricedRequests(c))
  }

  lemma RowAfterCurrent(field: Field, r: SpendRow, g: string, cur: seq<Cell>, prev: seq<Cell>, c: Cell)
    requires RowHolds(field, r, g, cur, prev)
    ensures RowHolds(field, if GroupOf(field)(c) == g then AddCurrent(r, c) else r, g, cur + [c], prev)
  {
    assert (cur + [c])[..|cur|] == cur;
    var p := InGroup(field, g);
    assert p(c) == (GroupOf(field)(c) == g);
  }

  lemma RowAfterPrevious(field: Field, r: SpendRow, g: string, cur: seq<Cell>, prev: seq<Cell>, c: Cell)
    requires RowHolds(field, r, g, cur, prev)
    ensures RowHolds(field, if GroupOf(field)(c) == g then r.(prev := r.prev + c.usd) else r, g, cur, prev + [c])
  {
    assert (prev + [c])[..|prev|] == prev;
    var p := InGroup(field, g);
    assert p(c) == (GroupOf(field)(c) == g);
  }

  lemma EmptyRowHolds(field: Field, g: string, cur: seq<Cell>, prev: seq<Cell>)
    requires !HasGroup(field, g, cur) && !HasGroup(field, g, prev)
    ensures RowHolds(field, EmptyRow(g), g, cur, prev)
  {
    var p := InGroup(field, g);
    TotalOfFalse(REALS, Usd, p, cur);
    TotalOfFalse(REALS, Usd, p, prev);
    TotalOfFalse(INTS, Requests, p, cur);
    TotalOfFalse(INTS, Tokens, p, cur);
    TotalOfFalse(INTS, UnpricedRequests, p, cur);
  }

  /** rows[id], made if it is new, then the cell added: what both loops do. */
  lemma RowsAfterCurrent(field: Field, rows: map<string, SpendRow>, cur: seq<Cell>, prev: seq<Cell>, c: Cell)
    requires Rows(field, rows, cur, prev)
    ensures var g := GroupOf(field)(c);
            Rows(field, rows[g := AddCurrent(if g in rows then rows[g] else EmptyRow(g), c)], cur + [c], prev)
  {
    hide RowHolds, HasGroup, GroupOf;
    var g := GroupOf(field)(c);
    if g !in rows { EmptyRowHolds(field, g, cur, prev); }
    forall h ensures HasGroup(field, h, cur + [c]) <==> HasGroup(field, h, cur) || h == g {
      HasGroupNext(field, h, cur, c);
    }
    RowAfterCurrent(field, if g in rows then rows[g] else EmptyRow(g), g, cur, prev, c);
    forall h | h in rows && h != g ensures RowHolds(field, rows[h], h, cur + [c], prev) {
      RowAfterCurrent(field, rows[h], h, cur, prev, c);
    }
  }

  lemma RowsAfterPrevious(field: Field, rows: map<string, SpendRow>, cur: seq<Cell>, prev: seq<Cell>, c: Cell)
    requires Rows(field, rows, cur, prev)
    ensures var g := GroupOf(field)(c);
            var r := if g in rows then rows[g] else EmptyRow(g);
            Rows(field, rows[g := r.(prev := r.prev + c.usd)], cur, prev + [c])
  {
    hide RowHolds, HasGroup, GroupOf;
    var g := GroupOf(field)(c);
    if g !in rows { EmptyRowHolds(field, g, cur, prev); }
    forall h ensures HasGroup(field, h, prev + [c]) <==> HasGroup(field, h, prev) || h == g {
      HasGroupNext(field, h, prev, c);
    }
    RowAfterPrevious(field, if g in rows then rows[g] else EmptyRow(g), g, cur, prev, c);
    forall h | h in rows && h != g ensures RowHolds(field, rows[h], h, cur, prev + [c]) {
      RowAfterPrevious(field, rows[h], h, cur, prev, c);
    }
  }

  /** Biggest spend first, then by id. */
  predicate Before(a: SpendRow, b: SpendRow) { a.spend > b.spend || (a.spend == b.spend && Less(a.id, b.id)) }

  /** A sorted table: more spend first, and the ID that ends or differs first of two with the same spend. */
  lemma SortedByAmountThenId(rows: seq<SpendRow>, i: nat, j: nat)
    requires Sorted(rows) && i < j < |rows|
    ensures rows[i].spend > rows[j].spend
            || (rows[i].spend == rows[j].spend && exists k: nat :: DiffersAt(rows[i].id, rows[j].id, k))
  {
    LessIsLexicographic(rows[i].id, rows[j].id);
  }

  ghost predicate Sorted(rows: seq<SpendRow>) { forall i, j :: 0 <= i < j < |rows| ==> Before(rows[i], rows[j]) }

  method InsertRow(rows: seq<SpendRow>, x: SpendRow) returns (out: seq<SpendRow>)
    requires Sorted(rows) && forall r :: r in rows ==> r.id != x.id
    ensures Sorted(out) && forall r :: r in out <==> r in rows || r == x
  {
    var i := 0;
    while i < |rows| && Before(rows[i], x)
      invariant 0 <= i <= |rows| && forall k :: 0 <= k < i ==> Before(rows[k], x)
    {
      i := i + 1;
    }
    out := rows[..i] + [x] + rows[i..];
    forall k | i <= k < |rows| ensures Before(x, rows[k]) {
      LessTotal(rows[i].id, x.id);
      if k > i && Before(rows[i], rows[k]) && Less(x.id, rows[i].id) && Less(rows[i].id, rows[k].id) {
        LessTransitive(x.id, rows[i].id, rows[k].id);
      }
    }
  }

  /** A row as shown: a login's title names the person, and dollars are rounded. */
  function Shown(r: SpendRow): SpendRow {
    var s :=
      if LOGIN_PREFIX <= r.id then r.(title := r.id[|LOGIN_PREFIX|..] + " (Keycloak login)", noDrill := true) else r;
    s.(spend := RoundUsd(r.spend), prev := RoundUsd(r.prev))
  }

  /** One row per group seen in either period, with that group's totals, biggest spend first. */
  method SpendRows(field: Field, cur: seq<Cell>, prev: seq<Cell>) returns (out: seq<SpendRow>)
    ensures Sorted(out) && Distinct(Map(RowId, out))
    ensures forall g :: HasGroup(field, g, cur) || HasGroup(field, g, prev) <==> g in Map(RowId, out)
    ensures forall r :: r in out ==>
              && r.spend == RoundUsd(TotalIf(REALS, Usd, InGroup(field, r.id), cur))
              && r.prev == RoundUsd(TotalIf(REALS, Usd, InGroup(field, r.id), prev))
              && r.requests == TotalIf(INTS, Requests, InGroup(field, r.id), cur)
              && r.tokens == TotalIf(INTS, Tokens, InGroup(field, r.id), cur)
              && r.unpriced == TotalIf(INTS, UnpricedRequests, InGroup(field, r.id), cur)
              && (r.noDrill <==> LOGIN_PREFIX <= r.id)
  {
    hide Rows, RoundUsd, HasGroup, InGroup, GroupOf, Shown, Shows, Distinct, Sorted;
    var rows: map<string, SpendRow> := map[];
    NoRows(field);
    for i := 0 to |cur|
      invariant Rows(field, rows, cur[..i], [])
    {
      assert cur[..i + 1] == cur[..i] + [cur[i]];
      RowsAfterCurrent(field, rows, cur[..i], [], cur[i]);
      var g := GroupOf(field)(cur[i]);
      var r := if g in rows then rows[g] else EmptyRow(g);
      rows := rows[g := AddCurrent(r, cur[i])];
    }
    assert cur[..|cur|] == cur;
    for i := 0 to |prev|
      invariant Rows(field, rows, cur, prev[..i])
    {
      assert prev[..i + 1] == prev[..i] + [prev[i]];
      RowsAfterPrevious(field, rows, cur, prev[..i], prev[i]);
      var g := GroupOf(field)(prev[i]);
      var r := if g in rows then rows[g] else EmptyRow(g);
      rows := rows[g := r.(prev := r.prev + prev[i].usd)];
    }
    assert prev[..|prev|] == prev;
    out := SortedRows(field, rows, cur, prev);
    SortedIsDistinct(out, rows);
    ShownIds(field, rows, cur, prev, out);
    forall r | r in out ensures HasGroup(field, r.id, cur) || HasGroup(field, r.id, prev) {
      ShownRow(field, rows, cur, prev, out, r);
    }
    forall r | r in out
      ensures && r.spend == RoundUsd(TotalIf(REALS, Usd, InGroup(field, r.id), cur))
              && r.prev == RoundUsd(TotalIf(REALS, Usd, InGroup(field, r.id), prev))
              && r.requests == TotalIf(INTS, Requests, InGroup(field, r.id), cur)
              && r.tokens == TotalIf(INTS, Tokens, InGroup(field, r.id), cur)
              && r.unpriced == TotalIf(INTS, UnpricedRequests, InGroup(field, r.id), cur)
              && (r.noDrill <==> LOGIN_PREFIX <= r.id)
    {
      ShownRow(field, rows, cur, prev, out, r);
    }
    forall g | g in Map(RowId, out) ensures HasGroup(field, g, cur) || HasGroup(field, g, prev) {
      var i :| 0 <= i < |out| && Map(RowId, out)[i] == g;
      assert out[i] in out;
    }
  }

  method SortedRows(field: Field, rows: map<string, SpendRow>, ghost cur: seq<Cell>, ghost prev: seq<Cell>)
    returns (out: seq<SpendRow>)
    requires Rows(field, rows, cur, prev)
    ensures Sorted(out) && Shows(rows, out)
  {
    assert forall g :: g in rows ==> Shown(rows[g]).id == g;
    hide Rows, Shown;
    out := [];
    var todo := rows.Keys;
    while todo != {}
      invariant todo <= rows.Keys && Sorted(out)
      invariant forall r :: r in out ==> r.id in rows && r.id !in todo && r == Shown(rows[r.id])
      invariant forall g :: g in rows && g !in todo ==> Shown(rows[g]) in out
      decreases todo
    {
      var g :| g in todo;
      todo := todo - {g};
      out := InsertRow(out, Shown(rows[g]));
    }
  }

  lemma NoRows(field: Field)
    ensures Rows(field, map[], [], [])
  {
  }

  lemma SortedIsDistinct(out: seq<SpendRow>, rows: map<string, SpendRow>)
    requires Sorted(out) && Shows(rows, out)
    ensures Distinct(Map(RowId, out))
  {
    forall i, j | 0 <= i < j < |out| ensures out[i].id != out[j].id {
      assert out[i] in out && out[j] in out && Before(out[i], out[j]);
      LessTotal(out[i].id, out[i].id);
    }
  }

  ghost predicate Shows(rows: map<string, SpendRow>, out: seq<SpendRow>) {
    (forall r :: r in out ==> r.id in rows && r == Shown(rows[r.id])) && forall g :: g in rows ==> Shown(rows[g]) in out
  }

  lemma ShownIds(field: Field, rows: map<string, SpendRow>, cur: seq<Cell>, prev: seq<Cell>, out: seq<SpendRow>)
    requires Rows(field, rows, cur, prev) && Shows(rows, out)
    ensures forall g :: HasGroup(field, g, cur) || HasGroup(field, g, prev) ==> g in Map(RowId, out)
  {
    hide RowHolds, HasGroup;
    forall g | g in rows ensures g in Map(RowId, out) {
      assert Shown(rows[g]) in out && Shown(rows[g]).id == rows[g].id;
      var i :| 0 <= i < |out| && out[i] == Shown(rows[g]);
      assert Map(RowId, out)[i] == g by {
        assert RowHolds(field, rows[g], g, cur, prev);
        RowIsItsGroup(field, rows[g], g, cur, prev);
      }
    }
  }

  lemma RowIsItsGroup(field: Field, r: SpendRow, g: string, cur: seq<Cell>, prev: seq<Cell>)
    requires RowHolds(field, r, g, cur, prev)
    ensures r.id == g
  {
  }

  lemma ShownRow(field: Field, rows: map<string, SpendRow>, cur: seq<Cell>, prev: seq<Cell>, out: seq<SpendRow>,
                 r: SpendRow)
    requires Rows(field, rows, cur, prev) && Shows(rows, out) && r in out
    ensures HasGroup(field, r.id, cur) || HasGroup(field, r.id, prev)
    ensures r.spend == RoundUsd(TotalIf(REALS, Usd, InGroup(field, r.id), cur))
    ensures r.prev == RoundUsd(TotalIf(REALS, Usd, InGroup(field, r.id), prev))
    ensures r.noDrill <==> LOGIN_PREFIX <= r.id
    ensures r.requests == TotalIf(INTS, Requests, InGroup(field, r.id), cur)
    ensures r.tokens == TotalIf(INTS, Tokens, InGroup(field, r.id), cur)
    ensures r.unpriced == TotalIf(INTS, UnpricedRequests, InGroup(field, r.id), cur)
  {
    hide RoundUsd, HasGroup, InGroup;
    assert RowHolds(field, rows[r.id], r.id, cur, prev);
  }

  /** Whatever the dimension, the table's requests, tokens and unpriced requests add up to the cells'. */
  lemma TableConserves(field: Field, cur: seq<Cell>, out: seq<SpendRow>)
    requires Distinct(Map(RowId, out)) && forall g :: HasGroup(field, g, cur) ==> g in Map(RowId, out)
    requires forall r :: r in out ==>
              && r.requests == TotalIf(INTS, Requests, InGroup(field, r.id), cur)
              && r.tokens == TotalIf(INTS, Tokens, InGroup(field, r.id), cur)
              && r.unpriced == TotalIf(INTS, UnpricedRequests, InGroup(field, r.id), cur)
    ensures Sum(RowRequestCount, out) == Sum(Requests, cur)
    ensures Sum(RowTokens, out) == Sum(Tokens, cur)
    ensures Sum(RowUnpriced, out) == Sum(UnpricedRequests, cur)
  {
    assert forall c :: c in cur ==> HasGroup(field, GroupOf(field)(c), cur);
    hide HasGroup, GroupOf;
    OneColumn(field, cur, out, RowRequestCount, Requests);
    OneColumn(field, cur, out, RowTokens, Tokens);
    OneColumn(field, cur, out, RowUnpriced, UnpricedRequests);
  }

  lemma OneColumn(field: Field, cur: seq<Cell>, out: seq<SpendRow>, value: SpendRow -> int, w: Cell -> int)
    requires Distinct(Map(RowId, out)) && forall c :: c in cur ==> GroupOf(field)(c) in Map(RowId, out)
    requires forall r :: r in out ==> value(r) == TotalIf(INTS, w, InGroup(field, r.id), cur)
    ensures Sum(value, out) == Sum(w, cur)
  {
    hide TotalIf, Sum, Distinct;
    var q := (g: string) => true;
    GroupedTotal(INTS, out, RowId, value, cur, GroupOf(field), w, q);
    TotalIsSum(value, Through(RowId, q), out);
    TotalIsSum(w, Through(GroupOf(field), q), cur);
  }

  lemma {:induction false} TotalIsSum<T>(w: T -> int, p: T -> bool, xs: seq<T>)
    requires forall x :: x in xs ==> p(x)
    ensures TotalIf(INTS, w, p, xs) == Sum(w, xs)
  {
    if xs != [] { TotalIsSum(w, p, xs[..|xs| - 1]); }
  }
}
