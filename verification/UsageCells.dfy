/**
 usage: OpenMeter's cost rows and request rows, merged into one cell per window and combination of
 dimensions. Cells are kept by a text made of the window's start and the dimensions, joined by NUL.
 */
module UsageCells {
  import opened Common
  import opened Totals

  datatype Dims = Dims(team: string, user: string, key: string, model: string, resource: string)

  datatype CellId = CellId(start: int, dims: Dims)

  datatype Cell = Cell(id: CellId, provider: string, usd: real, unpriced: bool, requests: int, tokens: int)

  /** cost is absent when the tokens have no price. */
  datatype CostRow = CostRow(id: CellId, tokens: int, cost: Option<real>)

  datatype RequestRow = RequestRow(id: CellId, value: int)

  function Join(parts: seq<string>): string
    requires parts != []
  {
    if |parts| == 1 then parts[0] else parts[0] + [NUL] + Join(parts[1..])
  }

  /** stamp writes a time. */
  type Stamp = int -> string

  function Parts(stamp: Stamp, id: CellId): seq<string> {
    [stamp(id.start), id.dims.team, id.dims.user, id.dims.key, id.dims.model, id.dims.resource]
  }

  function CellText(stamp: Stamp, id: CellId): string { Join(Parts(stamp, id)) }

  // ---- Without NUL in the dimensions, the text names the cell ----

  predicate NulFree(s: string) { NUL !in s }

  ghost predicate DimsNulFree(d: Dims) {
    NulFree(d.team) && NulFree(d.user) && NulFree(d.key) && NulFree(d.model) && NulFree(d.resource)
  }

  ghost predicate GoodStamp(stamp: Stamp) {
    (forall a, b :: stamp(a) == stamp(b) ==> a == b) && forall a :: NulFree(stamp(a))
  }

  lemma SplitAtNul(a: string, x: string, b: string, y: string)
    requires NulFree(a) && NulFree(b) && a + [NUL] + x == b + [NUL] + y
    ensures a == b && x == y
  {
    var s := a + [NUL] + x;
    assert s[|a|] == NUL && s[|b|] == NUL;
    assert forall i :: 0 <= i < |a| ==> s[i] == a[i] && a[i] in a;
    assert forall i :: 0 <= i < |b| ==> s[i] == b[i] && b[i] in b;
    assert |a| == |b|;
    assert a == s[..|a|] && b == s[..|b|];
    assert x == s[|a| + 1..] && y == s[|b| + 1..];
  }

  lemma {:induction false} JoinIsInjective(xs: seq<string>, ys: seq<string>)
    requires |xs| == |ys| > 0 && Join(xs) == Join(ys)
    requires forall i :: 0 <= i < |xs| ==> NulFree(xs[i]) && NulFree(ys[i])
    ensures xs == ys
  {
    if |xs| > 1 {
      SplitAtNul(xs[0], Join(xs[1..]), ys[0], Join(ys[1..]));
      JoinIsInjective(xs[1..], ys[1..]);
      assert xs == [xs[0]] + xs[1..] && ys == [ys[0]] + ys[1..];
    }
  }

  lemma CellTextIsInjective(stamp: Stamp, a: CellId, b: CellId)
    requires GoodStamp(stamp) && DimsNulFree(a.dims) && DimsNulFree(b.dims)
    ensures CellText(stamp, a) == CellText(stamp, b) <==> a == b
  {
    var xs, ys := Parts(stamp, a), Parts(stamp, b);
    if Join(xs) == Join(ys) {
      JoinIsInjective(xs, ys);
      assert forall i :: 0 <= i < 6 ==> xs[i] == ys[i];
      assert xs[0] == ys[0] && xs[1] == ys[1] && xs[2] == ys[2] && xs[3] == ys[3] && xs[4] == ys[4] && xs[5] == ys[5];
    }
  }

  /** A NUL inside a dimension can make two combinations one cell. */
  lemma NulMixesCells(stamp: Stamp, start: int)
    ensures var a, b := CellId(start, Dims("x\0y", "z", "", "", "")), CellId(start, Dims("x", "y\0z", "", "", ""));
            a != b && CellText(stamp, a) == CellText(stamp, b)
  {
    var a, b := CellId(start, Dims("x\0y", "z", "", "", "")), CellId(start, Dims("x", "y\0z", "", "", ""));
    assert |a.dims.team| == 3 && |b.dims.team| == 1;
    var rest := Join(["", "", ""]);
    assert Parts(stamp, a)[3..] == Parts(stamp, b)[3..] == ["", "", ""];
    assert Parts(stamp, a)[1..][1..][1..] == ["", "", ""] && Parts(stamp, b)[1..][1..][1..] == ["", "", ""];
    assert Join(Parts(stamp, a)[1..][1..]) == "z" + [NUL] + rest;
    assert Join(Parts(stamp, b)[1..][1..]) == "y\0z" + [NUL] + rest;
    assert "x\0y" + [NUL] + ("z" + [NUL] + rest) == "x" + [NUL] + ("y\0z" + [NUL] + rest);
    assert Join(Parts(stamp, a)[1..]) == Join(Parts(stamp, b)[1..]);
  }

  /** One character more in front. */
  function Prepend(c: char, pieces: seq<string>): (r: seq<string>)
    requires pieces != []
    ensures r != []
  {
    if c == NUL then [""] + pieces else [[c] + pieces[0]] + pieces[1..]
  }

  lemma PrependToTwo(c: char, xs: seq<string>, ys: seq<string>)
    requires xs != []
    ensures Prepend(c, xs + ys) == Prepend(c, xs) + ys
  {
    assert (xs + ys)[1..] == xs[1..] + ys;
  }

  /** The pieces of a text between its NULs. */
  function Pieces(s: string): (r: seq<string>)
    ensures r != []
  {
    if s == [] then [""] else Prepend(s[0], Pieces(s[1..]))
  }

  lemma {:induction false} PiecesOfTwo(a: string, b: string)
    ensures Pieces(a + [NUL] + b) == Pieces(a) + Pieces(b)
  {
    var s := a + [NUL] + b;
    if a == [] {
      assert s[1..] == b;
    } else {
      PiecesOfTwo(a[1..], b);
      assert s[0] == a[0] && s[1..] == a[1..] + [NUL] + b;
      PrependToTwo(a[0], Pieces(a[1..]), Pieces(b));
      hide Prepend;
    }
  }

  lemma {:induction false} JoinPieces(s: string)
    ensures Join(Pieces(s)) == s
  {
    if s != [] {
      JoinPieces(s[1..]);
      var rest := Pieces(s[1..]);
      if s[0] == NUL {
        assert ([""] + rest)[1..] == rest;
      } else {
        var all := [[s[0]] + rest[0]] + rest[1..];
        assert all[1..] == rest[1..];
        assert s == [s[0]] + s[1..];
      }
    }
  }

  function AllPieces(parts: seq<string>): seq<string> {
    if parts == [] then [] else Pieces(parts[0]) + AllPieces(parts[1..])
  }

  lemma {:induction false} PiecesOfJoin(parts: seq<string>)
    requires parts != []
    ensures Pieces(Join(parts)) == AllPieces(parts)
  {
    if |parts| == 1 {
      assert AllPieces(parts[1..]) == [];
    } else {
      PiecesOfTwo(parts[0], Join(parts[1..]));
      PiecesOfJoin(parts[1..]);
    }
  }

  /** Whatever the dimensions hold, two combinations share a cell exactly when, cut at every NUL, they read the same. */
  lemma CellsMixExactly(stamp: Stamp, a: CellId, b: CellId)
    ensures CellText(stamp, a) == CellText(stamp, b) <==> AllPieces(Parts(stamp, a)) == AllPieces(Parts(stamp, b))
  {
    hide Parts, Pieces, AllPieces, Join;
    assert Parts(stamp, a) != [] && Parts(stamp, b) != [] by { PartsAreSix(stamp, a); PartsAreSix(stamp, b); }
    PiecesOfJoin(Parts(stamp, a));
    PiecesOfJoin(Parts(stamp, b));
    JoinPieces(CellText(stamp, a));
    JoinPieces(CellText(stamp, b));
  }

  lemma PartsAreSix(stamp: Stamp, id: CellId)
    ensures |Parts(stamp, id)| == 6
  {
  }

  // ---- Merging ----

  function CostText(stamp: Stamp): CostRow -> string { (r: CostRow) => CellText(stamp, r.id) }
  function RequestText(stamp: Stamp): RequestRow -> string { (r: RequestRow) => CellText(stamp, r.id) }
  function TextOf(stamp: Stamp): Cell -> string { (c: Cell) => CellText(stamp, c.id) }

  function CostTokens(r: CostRow): int { r.tokens }
  function CostUsd(r: CostRow): real { if r.cost.Some? then r.cost.value else 0.0 }
  function RowRequests(r: RequestRow): int { r.value }
  function Tokens(c: Cell): int { c.tokens }
  function Usd(c: Cell): real { c.usd }
  function Requests(c: Cell): int { c.requests }

  function TokensAt(stamp: Stamp, k: string, costs: seq<CostRow>): int {
    TotalIf(INTS, CostTokens, Through(CostText(stamp), Is(k)), costs)
  }
  function UsdAt(stamp: Stamp, k: string, costs: seq<CostRow>): real {
    TotalIf(REALS, CostUsd, Through(CostText(stamp), Is(k)), costs)
  }
  function RequestsAt(stamp: Stamp, k: string, rows: seq<RequestRow>): int {
    TotalIf(INTS, RowRequests, Through(RequestText(stamp), Is(k)), rows)
  }

  predicate UnpricedAt(stamp: Stamp, k: string, costs: seq<CostRow>) {
    exists r :: r in costs && r.cost.None? && CellText(stamp, r.id) == k
  }

  lemma CostNext(stamp: Stamp, k: string, costs: seq<CostRow>, r: CostRow)
    ensures TokensAt(stamp, k, costs + [r]) ==
              TokensAt(stamp, k, costs) + (if CellText(stamp, r.id) == k then r.tokens else 0)
    ensures UsdAt(stamp, k, costs + [r]) ==
              UsdAt(stamp, k, costs) + (if CellText(stamp, r.id) == k then CostUsd(r) else 0.0)
    ensures UnpricedAt(stamp, k, costs + [r])
            <==> UnpricedAt(stamp, k, costs) || (r.cost.None? && CellText(stamp, r.id) == k)
  {
    assert (costs + [r])[..|costs|] == costs;
    var p := Through(CostText(stamp), Is(k));
    assert p(r) == (CellText(stamp, r.id) == k);
    assert forall x :: x in costs + [r] <==> x in costs || x == r;
  }

  lemma RequestNext(stamp: Stamp, k: string, rows: seq<RequestRow>, r: RequestRow)
    ensures RequestsAt(stamp, k, rows + [r]) ==
              RequestsAt(stamp, k, rows) + (if CellText(stamp, r.id) == k then r.value else 0)
  {
    assert (rows + [r])[..|rows|] == rows;
    var p := Through(RequestText(stamp), Is(k));
    assert p(r) == (CellText(stamp, r.id) == k);
  }

  /** What a cell under text k must hold once these rows are in. */
  ghost predicate Holds(stamp: Stamp, c: Cell, k: string, costs: seq<CostRow>, rows: seq<RequestRow>) {
    && CellText(stamp, c.id) == k
    && c.tokens == TokensAt(stamp, k, costs) && c.usd == UsdAt(stamp, k, costs)
    && c.unpriced == UnpricedAt(stamp, k, costs)
    && c.requests == RequestsAt(stamp, k, rows)
  }

  function WithCost(c: Cell, r: CostRow): Cell {
    var d := c.(tokens := c.tokens + r.tokens);
    if r.cost.None? then d.(unpriced := true) else d.(usd := d.usd + r.cost.value)
  }

  lemma HoldsAfterCost(stamp: Stamp, c: Cell, k: string, costs: seq<CostRow>, rows: seq<RequestRow>, r: CostRow)
    requires Holds(stamp, c, k, costs, rows)
    ensures Holds(stamp, if CellText(stamp, r.id) == k then WithCost(c, r) else c, k, costs + [r], rows)
  {
    CostNext(stamp, k, costs, r);
    hide TokensAt, UsdAt, UnpricedAt, RequestsAt, CellText;
  }

  lemma HoldsAfterRequests(stamp: Stamp, c: Cell, k: string, costs: seq<CostRow>, rows: seq<RequestRow>, r: RequestRow)
    requires Holds(stamp, c, k, costs, rows)
    ensures Holds(stamp, if CellText(stamp, r.id) == k then c.(requests := c.requests + r.value) else c, k, costs,
                  rows + [r])
  {
    RequestNext(stamp, k, rows, r);
    hide TokensAt, UsdAt, UnpricedAt, RequestsAt, CellText;
  }

  lemma EmptyHolds(stamp: Stamp, id: CellId, provider: string, costs: seq<CostRow>, rows: seq<RequestRow>)
    requires forall r :: r in costs ==> CellText(stamp, r.id) != CellText(stamp, id)
    requires forall r :: r in rows ==> CellText(stamp, r.id) != CellText(stamp, id)
    ensures Holds(stamp, Cell(id, provider, 0.0, false, 0, 0), CellText(stamp, id), costs, rows)
  {
    var k := CellText(stamp, id);
    TotalOfFalse(INTS, CostTokens, Through(CostText(stamp), Is(k)), costs);
    TotalOfFalse(REALS, CostUsd, Through(CostText(stamp), Is(k)), costs);
    TotalOfFalse(INTS, RowRequests, Through(RequestText(stamp), Is(k)), rows);
  }

  ghost predicate IsRowId(id: CellId, costs: seq<CostRow>, rows: seq<RequestRow>) {
    (exists r :: r in costs && r.id == id) || (exists r :: r in rows && r.id == id)
  }

  /** The cell is a row's, and has its resource's provider. */
  ghost predicate FromRow(providers: string -> string, c: Cell, costs: seq<CostRow>, rows: seq<RequestRow>) {
    IsRowId(c.id, costs, rows) && c.provider == providers(c.id.dims.resource)
  }

  lemma FromRowLater(providers: string -> string, c: Cell, costs: seq<CostRow>, rows: seq<RequestRow>, r: CostRow,
                     q: RequestRow)
    ensures FromRow(providers, c, costs, rows) ==>
              FromRow(providers, c, costs + [r], rows) && FromRow(providers, c, costs, rows + [q])
    ensures c.provider == providers(c.id.dims.resource) && c.id == r.id ==> FromRow(providers, c, costs + [r], rows)
    ensures c.provider == providers(c.id.dims.resource) && c.id == q.id ==> FromRow(providers, c, costs, rows + [q])
  {
    assert r in costs + [r] && q in rows + [q];
    if exists x :: x in costs && x.id == c.id {
      var x :| x in costs && x.id == c.id;
      assert x in costs + [r];
    }
    if exists x :: x in rows && x.id == c.id {
      var x :| x in rows && x.id == c.id;
      assert x in rows + [q];
    }
  }

  lemma SameRow(providers: string -> string, c: Cell, d: Cell, costs: seq<CostRow>, rows: seq<RequestRow>)
    requires c.id == d.id && c.provider == d.provider
    ensures FromRow(providers, c, costs, rows) <==> FromRow(providers, d, costs, rows)
  {
  }

  class Table {
    const stamp: Stamp
    const providers: string -> string
    var cells: map<string, Cell>
    var order: seq<string>
    ghost var costs: seq<CostRow>
    ghost var rows: seq<RequestRow>

    ghost predicate Valid()
      reads this
    {
      && Distinct(order) && (forall k :: k in order <==> k in cells)
      && (forall k :: k in cells ==> Holds(stamp, cells[k], k, costs, rows))
      && (forall r :: r in costs ==> CellText(stamp, r.id) in cells)
      && (forall r :: r in rows ==> CellText(stamp, r.id) in cells)
    }

    /** Every cell is that of a row, with its resource's provider. */
    ghost predicate FromRows()
      reads this
    {
      forall k :: k in cells ==> FromRow(providers, cells[k], costs, rows)
    }

    constructor (stamp: Stamp, providers: string -> string)
      ensures Valid() && FromRows() && costs == [] && rows == [] && this.stamp == stamp && this.providers == providers
    {
      this.stamp, this.providers := stamp, providers;
      cells, order, costs, rows := map[], [], [], [];
    }

    /** The cell for id, made empty if this is the first row of it. */
    method At(id: CellId) returns (k: string)
      requires Valid()
      modifies this`cells, this`order
      ensures Valid() && k == CellText(stamp, id) && k in cells
      ensures cells == old(cells) || (k !in old(cells) && cells == old(cells)[k := cells[k]]
                                      && cells[k].id == id && cells[k].provider == providers(id.dims.resource))
    {
      hide Holds, CellText;
      k := CellText(stamp, id);
      if k !in cells {
        EmptyHolds(stamp, id, providers(id.dims.resource), costs, rows);
        cells := cells[k := Cell(id, providers(id.dims.resource), 0.0, false, 0, 0)];
        order := order + [k];
      }
    }

    method AddCost(r: CostRow)
      requires Valid() && FromRows()
      modifies this
      ensures Valid() && FromRows() && costs == old(costs) + [r] && rows == old(rows)
    {
      hide Holds, CellText, FromRow;
      var k := At(r.id);
      forall j | j in cells
        ensures var c := if j == k then WithCost(cells[j], r) else cells[j];
                Holds(stamp, c, j, costs + [r], rows) && FromRow(providers, c, costs + [r], rows)
      {
        HoldsAfterCost(stamp, cells[j], j, costs, rows, r);
        FromRowLater(providers, cells[j], costs, rows, r, RequestRow(r.id, 0));
        SameRow(providers, cells[j], WithCost(cells[j], r), costs + [r], rows);
      }
      var c := cells[k].(tokens := cells[k].tokens + r.tokens);
      if r.cost.None? { c := c.(unpriced := true); } else { c := c.(usd := c.usd + r.cost.value); }
      cells := cells[k := c];
      costs := costs + [r];
    }

    method AddRequests(r: RequestRow)
      requires Valid() && FromRows()
      modifies this
      ensures Valid() && FromRows() && rows == old(rows) + [r] && costs == old(costs)
    {
      hide Holds, CellText, FromRow;
      var k := At(r.id);
      forall j | j in cells
        ensures var c := if j == k then cells[j].(requests := cells[j].requests + r.value) else cells[j];
                Holds(stamp, c, j, costs, rows + [r]) && FromRow(providers, c, costs, rows + [r])
      {
        HoldsAfterRequests(stamp, cells[j], j, costs, rows, r);
        FromRowLater(providers, cells[j], costs, rows, CostRow(r.id, 0, None), r);
        SameRow(providers, cells[j], cells[j].(requests := cells[j].requests + r.value), costs, rows + [r]);
      }
      cells := cells[k := cells[k].(requests := cells[k].requests + r.value)];
      rows := rows + [r];
    }

    /** The cells in the order their first rows came. */
    method InOrder() returns (out: seq<Cell>)
      requires Valid() && FromRows()
      ensures IsGrouping(INTS, out, TextOf(stamp), Tokens, costs, CostText(stamp), CostTokens)
      ensures IsGrouping(REALS, out, TextOf(stamp), Usd, costs, CostText(stamp), CostUsd)
      ensures IsGrouping(INTS, out, TextOf(stamp), Requests, rows, RequestText(stamp), RowRequests)
      ensures forall c :: c in out ==> (c.unpriced <==> UnpricedAt(stamp, CellText(stamp, c.id), costs))
      ensures forall c :: c in out ==> FromRow(providers, c, costs, rows)
    {
      hide Holds, CellText, IsGrouping, UnpricedAt, FromRow;
      out := [];
      for i := 0 to |order|
        invariant |out| == i && forall j :: 0 <= j < i ==> order[j] in cells && out[j] == cells[order[j]]
      {
        assert order[i] in order;
        out := out + [cells[order[i]]];
      }
      ListedGroups(stamp, out, order, costs, rows);
    }
  }

  lemma ListedGroups(stamp: Stamp, out: seq<Cell>, order: seq<string>, costs: seq<CostRow>, rows: seq<RequestRow>)
    requires |out| == |order| && Distinct(order)
    requires forall i :: 0 <= i < |out| ==> Holds(stamp, out[i], order[i], costs, rows)
    requires forall r :: r in costs ==> CellText(stamp, r.id) in order
    requires forall r :: r in rows ==> CellText(stamp, r.id) in order
    ensures IsGrouping(INTS, out, TextOf(stamp), Tokens, costs, CostText(stamp), CostTokens)
    ensures IsGrouping(REALS, out, TextOf(stamp), Usd, costs, CostText(stamp), CostUsd)
    ensures IsGrouping(INTS, out, TextOf(stamp), Requests, rows, RequestText(stamp), RowRequests)
    ensures forall c :: c in out ==> (c.unpriced <==> UnpricedAt(stamp, CellText(stamp, c.id), costs))
  {
    hide CellText;
    assert Map(TextOf(stamp), out) == order;
  }

  /** A feature's rows; only features priced as language models are asked for cost. */
  datatype Feature = Feature(priced: bool, rows: seq<CostRow>)

  /** Without windows every row is of the one window that starts at whole. */
  function Placed(whole: Option<int>, id: CellId): CellId { if whole.Some? then id.(start := whole.value) else id }

  function PlacedCost(whole: Option<int>): CostRow -> CostRow { (r: CostRow) => r.(id := Placed(whole, r.id)) }

  function PlacedRequests(whole: Option<int>): RequestRow -> RequestRow {
    (r: RequestRow) => r.(id := Placed(whole, r.id))
  }

  function PricedRows(whole: Option<int>, fs: seq<Feature>): seq<CostRow> {
    if fs == [] then []
    else PricedRows(whole, fs[..|fs| - 1])
         + (if fs[|fs| - 1].priced then Map(PlacedCost(whole), fs[|fs| - 1].rows) else [])
  }

  /** Only priced features' rows are asked for, all of them; with one window every row starts where it starts. */
  lemma PricedRowsAre(whole: Option<int>, fs: seq<Feature>, f: Feature)
    ensures PricedRows(whole, []) == []
    ensures PricedRows(whole, fs + [f]) ==
              PricedRows(whole, fs) + (if f.priced then Map(PlacedCost(whole), f.rows) else [])
    ensures forall r ::
              PlacedCost(whole)(r) == r.(id := r.id.(start := if whole.Some? then whole.value else r.id.start))
    ensures forall r ::
              PlacedRequests(whole)(r) == r.(id := r.id.(start := if whole.Some? then whole.value else r.id.start))
  {
    assert (fs + [f])[..|fs|] == fs;
  }

  /**
   The cells group the cost rows' tokens and dollars, and the request rows' requests, by text, and lose
   none. whole is the start of the one window, absent when rows come in windows of their own.
   */
  method Usage(stamp: Stamp, providers: string -> string, whole: Option<int>, fs: seq<Feature>, reqs: seq<RequestRow>)
    returns (cells: seq<Cell>)
    ensures IsGrouping(INTS, cells, TextOf(stamp), Tokens, PricedRows(whole, fs), CostText(stamp), CostTokens)
    ensures IsGrouping(REALS, cells, TextOf(stamp), Usd, PricedRows(whole, fs), CostText(stamp), CostUsd)
    ensures IsGrouping(INTS, cells, TextOf(stamp), Requests, Map(PlacedRequests(whole), reqs), RequestText(stamp),
                       RowRequests)
    ensures forall c :: c in cells ==> (c.unpriced <==> UnpricedAt(stamp, CellText(stamp, c.id), PricedRows(whole, fs)))
    ensures forall c :: c in cells ==> FromRow(providers, c, PricedRows(whole, fs), Map(PlacedRequests(whole), reqs))
  {
    hide Table.Valid, Table.FromRows, FromRow, IsGrouping, UnpricedAt, CellText, Placed, Map;
    var t := new Table(stamp, providers);
    for i := 0 to |fs|
      invariant t.Valid() && t.FromRows() && t.stamp == stamp && t.providers == providers && t.rows == []
                && t.costs == PricedRows(whole, fs[..i])
    {
      assert fs[..i + 1][..i] == fs[..i];
      if !fs[i].priced { continue; }
      var rows := fs[i].rows;
      for j := 0 to |rows|
        invariant t.Valid() && t.FromRows() && t.stamp == stamp && t.providers == providers && t.rows == []
        invariant t.costs == PricedRows(whole, fs[..i]) + Map(PlacedCost(whole), rows[..j])
      {
        t.AddCost(rows[j].(id := Placed(whole, rows[j].id)));
        assert Map(PlacedCost(whole), rows[..j + 1]) ==
                 Map(PlacedCost(whole), rows[..j]) + [PlacedCost(whole)(rows[j])];
      }
      assert rows[..|rows|] == rows;
    }
    assert fs[..|fs|] == fs;
    for i := 0 to |reqs|
      invariant t.Valid() && t.FromRows() && t.stamp == stamp && t.providers == providers
                && t.costs == PricedRows(whole, fs)
      invariant t.rows == Map(PlacedRequests(whole), reqs[..i])
    {
      t.AddRequests(reqs[i].(id := Placed(whole, reqs[i].id)));
      assert Map(PlacedRequests(whole), reqs[..i + 1]) ==
               Map(PlacedRequests(whole), reqs[..i]) + [PlacedRequests(whole)(reqs[i])];
    }
    assert reqs[..|reqs|] == reqs;
    cells := t.InOrder();
  }

  // ---- What the cells mean ----

  function CostId(r: CostRow): CellId { r.id }
  function RequestId(r: RequestRow): CellId { r.id }
  function IdOf(c: Cell): CellId { c.id }

  ghost predicate AllNulFree(costs: seq<CostRow>, rows: seq<RequestRow>) {
    (forall r :: r in costs ==> DimsNulFree(r.id.dims)) && forall r :: r in rows ==> DimsNulFree(r.id.dims)
  }

  lemma TextsAreIds(stamp: Stamp, cells: seq<Cell>, costs: seq<CostRow>, rows: seq<RequestRow>)
    requires GoodStamp(stamp) && AllNulFree(costs, rows) && forall c :: c in cells ==> IsRowId(c.id, costs, rows)
    ensures SameKeys(cells, TextOf(stamp), IdOf, cells, TextOf(stamp), IdOf)
    ensures SameKeys(cells, TextOf(stamp), IdOf, costs, CostText(stamp), CostId)
    ensures SameKeys(cells, TextOf(stamp), IdOf, rows, RequestText(stamp), RequestId)
  {
    forall c | c in cells ensures DimsNulFree(c.id.dims) {}
    hide IsRowId, DimsNulFree, CellText;
    forall c, d | c in cells && d in cells ensures TextOf(stamp)(c) == TextOf(stamp)(d) <==> IdOf(c) == IdOf(d) {
      CellTextIsInjective(stamp, c.id, d.id);
    }
    forall c, r | c in cells && r in costs ensures TextOf(stamp)(c) == CostText(stamp)(r) <==> IdOf(c) == CostId(r) {
      CellTextIsInjective(stamp, c.id, r.id);
    }
    forall c, r | c in cells && r in rows
      ensures TextOf(stamp)(c) == RequestText(stamp)(r) <==> IdOf(c) == RequestId(r)
    {
      CellTextIsInjective(stamp, c.id, r.id);
    }
  }

  /**
   Without NUL in the rows' dimensions, each cell holds exactly the rows of its own window and dimensions,
   so whatever is asked of windows and dimensions, the cells' tokens, dollars and requests add up to the rows'.
   */
  lemma CellsAreExact(stamp: Stamp, cells: seq<Cell>, costs: seq<CostRow>, rows: seq<RequestRow>, q: CellId -> bool)
    requires GoodStamp(stamp) && AllNulFree(costs, rows) && forall c :: c in cells ==> IsRowId(c.id, costs, rows)
    requires IsGrouping(INTS, cells, TextOf(stamp), Tokens, costs, CostText(stamp), CostTokens)
    requires IsGrouping(REALS, cells, TextOf(stamp), Usd, costs, CostText(stamp), CostUsd)
    requires IsGrouping(INTS, cells, TextOf(stamp), Requests, rows, RequestText(stamp), RowRequests)
    ensures TotalIf(INTS, Tokens, Through(IdOf, q), cells) == TotalIf(INTS, CostTokens, Through(CostId, q), costs)
    ensures TotalIf(REALS, Usd, Through(IdOf, q), cells) == TotalIf(REALS, CostUsd, Through(CostId, q), costs)
    ensures TotalIf(INTS, Requests, Through(IdOf, q), cells) == TotalIf(INTS, RowRequests, Through(RequestId, q), rows)
  {
    hide *;
    SumsAreLawful();
    TextsAreIds(stamp, cells, costs, rows);
    assert TotalIf(INTS, Tokens, Through(IdOf, q), cells) == TotalIf(INTS, CostTokens, Through(CostId, q), costs) by {
      RegroupedTotal(INTS, cells, TextOf(stamp), IdOf, Tokens, costs, CostText(stamp), CostId, CostTokens, q);
    }
    assert TotalIf(REALS, Usd, Through(IdOf, q), cells) == TotalIf(REALS, CostUsd, Through(CostId, q), costs) by {
      RegroupedTotal(REALS, cells, TextOf(stamp), IdOf, Usd, costs, CostText(stamp), CostId, CostUsd, q);
    }
    RegroupedTotal(INTS, cells, TextOf(stamp), IdOf, Requests, rows, RequestText(stamp), RequestId, RowRequests, q);
  }
}
