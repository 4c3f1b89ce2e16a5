/**
 Traffic's list under live rows. applyLive: a batch from the stream settles rows already listed in place
 and puts new ones on top, newest first, keeping at most MAX_ROWS. mergeNewer: the first page arrives when
 live rows may already be listed.
 */
module LiveRows {
  import opened Common

  const MAX_ROWS := 10_000

  datatype Row = Row(id: string, ts: int, data: string)

  function RowId(r: Row): string { r.id }

  /** Rows by ID; a later row replaces an earlier one with its ID. */
  function ById(rows: seq<Row>): map<string, Row> {
    if rows == [] then map[] else ById(rows[..|rows| - 1])[rows[|rows| - 1].id := rows[|rows| - 1]]
  }

  ghost predicate NewestFirst(rows: seq<Row>) {
    forall i, j :: 0 <= i < j < |rows| ==> rows[i].ts >= rows[j].ts
  }

  lemma {:induction false} ByIdMembers(rows: seq<Row>)
    ensures forall id :: id in ById(rows) ==> ById(rows)[id] in rows && ById(rows)[id].id == id
    ensures forall r :: r in rows ==> r.id in ById(rows)
    ensures DistinctBy(RowId, rows) ==> forall r :: r in rows ==> ById(rows)[r.id] == r
  {
    if rows != [] {
      var n := |rows| - 1;
      ByIdMembers(rows[..n]);
      assert rows == rows[..n] + [rows[n]];
    }
  }

  /** A stable insertion, newest first: after every row at least as new. */
  method InsertByTime(rows: seq<Row>, r: Row) returns (out: seq<Row>)
    requires NewestFirst(rows) && DistinctBy(RowId, rows) && forall q :: q in rows ==> q.id != r.id
    ensures NewestFirst(out) && DistinctBy(RowId, out) && |out| == |rows| + 1
    ensures forall q :: q in out <==> q in rows || q == r
  {
    var i := 0;
    while i < |rows| && rows[i].ts >= r.ts
      invariant 0 <= i <= |rows|
      invariant forall k :: 0 <= k < i ==> rows[k].ts >= r.ts
    {
      i := i + 1;
    }
    out := rows[..i] + [r] + rows[i..];
    assert rows == rows[..i] + rows[i..];
    InsertedInOrder(rows, i, r);
    InsertedApart(rows, i, r);
  }

  lemma InsertedInOrder(rows: seq<Row>, i: nat, r: Row)
    requires NewestFirst(rows) && i <= |rows|
    requires (forall k :: 0 <= k < i ==> rows[k].ts >= r.ts) && (i < |rows| ==> rows[i].ts < r.ts)
    ensures NewestFirst(rows[..i] + [r] + rows[i..])
  {
    var out := rows[..i] + [r] + rows[i..];
    assert forall a :: 0 <= a < |out| ==> out[a] == if a < i then rows[a] else if a == i then r else rows[a - 1];
    assert forall k :: i <= k < |rows| ==> rows[i].ts >= rows[k].ts;
  }

  lemma InsertedApart(rows: seq<Row>, i: nat, r: Row)
    requires DistinctBy(RowId, rows) && i <= |rows| && forall q :: q in rows ==> q.id != r.id
    ensures DistinctBy(RowId, rows[..i] + [r] + rows[i..])
  {
    var out := rows[..i] + [r] + rows[i..];
    assert forall k :: 0 <= k < |rows| ==> rows[k].id != r.id;
    assert forall a :: 0 <= a < |out| ==> out[a] == if a < i then rows[a] else if a == i then r else rows[a - 1];
  }

  /** The batch's last row for each ID, in order of first appearance. */
  method Collect(batch: seq<Row>) returns (order: seq<string>, updates: map<string, Row>)
    ensures updates == ById(batch)
    ensures forall id :: id in order <==> id in updates
    ensures forall i, j :: 0 <= i < j < |order| ==> order[i] != order[j]
  {
    order, updates := [], map[];
    for i := 0 to |batch|
      invariant updates == ById(batch[..i])
      invariant forall id :: id in order <==> id in updates
      invariant forall i, j :: 0 <= i < j < |order| ==> order[i] != order[j]
    {
      assert batch[..i + 1][..i] == batch[..i];
      if batch[i].id !in updates { order := order + [batch[i].id]; }
      updates := updates[batch[i].id := batch[i]];
    }
    assert batch[..|batch|] == batch;
  }

  /** Each listed row, or its update. */
  method Settle(rows: seq<Row>, updates: map<string, Row>) returns (next: seq<Row>)
    requires forall id :: id in updates ==> updates[id].id == id
    ensures |next| == |rows|
    ensures forall i :: 0 <= i < |rows| ==> next[i] == if rows[i].id in updates then updates[rows[i].id] else rows[i]
  {
    next := [];
    for i := 0 to |rows|
      invariant |next| == i
      invariant forall k :: 0 <= k < i ==> next[k] == if rows[k].id in updates then updates[rows[k].id] else rows[k]
    {
      next := next + [if rows[i].id in updates then updates[rows[i].id] else rows[i]];
    }
  }

  /** The updates of IDs not listed yet, newest first. */
  method NewRows(order: seq<string>, updates: map<string, Row>, listed: set<string>) returns (added: seq<Row>)
    requires forall id :: id in updates ==> updates[id].id == id
    requires forall id :: id in order <==> id in updates
    requires forall i, j :: 0 <= i < j < |order| ==> order[i] != order[j]
    ensures NewestFirst(added) && DistinctBy(RowId, added)
    ensures forall r :: r in added <==> r.id in updates && r == updates[r.id] && r.id !in listed
  {
    added := [];
    for i := 0 to |order|
      invariant NewestFirst(added) && DistinctBy(RowId, added)
      invariant forall r ::
                  r in added <==> r.id in order[..i] && r.id in updates && r == updates[r.id] && r.id !in listed
    {
      assert order[..i + 1] == order[..i] + [order[i]];
      if order[i] !in listed { added := InsertByTime(added, updates[order[i]]); }
    }
    assert order[..|order|] == order;
  }

  /**
   The merged list before it is cut: no ID twice, the new rows on top newest first, the listed ones
   below in their places, and by ID exactly the old rows overridden by the batch.
   */
  method Merge(rows: seq<Row>, batch: seq<Row>) returns (full: seq<Row>)
    requires DistinctBy(RowId, rows)
    ensures DistinctBy(RowId, full) && ById(full) == ById(rows) + ById(batch)
    ensures |full| >= |rows| && NewestFirst(full[..|full| - |rows|])
    ensures forall i :: 0 <= i < |rows| ==> full[|full| - |rows| + i].id == rows[i].id
  {
    hide NewestFirst, DistinctBy, ById;
    var order, updates := Collect(batch);
    ByIdMembers(batch);
    var settled := Settle(rows, updates);
    var added := NewRows(order, updates, set r | r in rows :: r.id);
    full := added + settled;
    assert full[..|full| - |rows|] == added;
    assert Settled(rows, updates, added, settled);
    assert forall i :: 0 <= i < |rows| ==> settled[i].id == rows[i].id;
    hide Settled;
    MergedById(rows, updates, added, settled);
  }

  /** applyLive: the merged list, cut to MAX_ROWS; an empty batch changes nothing. */
  method ApplyLive(rows: seq<Row>, batch: seq<Row>) returns (next: seq<Row>, ghost full: seq<Row>)
    requires DistinctBy(RowId, rows)
    ensures DistinctBy(RowId, full) && ById(full) == ById(rows) + ById(batch)
    ensures |full| >= |rows| && NewestFirst(full[..|full| - |rows|])
    ensures forall i :: 0 <= i < |rows| ==> full[|full| - |rows| + i].id == rows[i].id
    ensures batch == [] ==> next == rows
    ensures batch != [] ==> next == if |full| > MAX_ROWS then full[..MAX_ROWS] else full
  {
    if batch == [] {
      return rows, rows;
    }
    hide NewestFirst, DistinctBy, ById;
    next := Merge(rows, batch);
    full := next;
    if |next| > MAX_ROWS { next := next[..MAX_ROWS]; }
  }

  ghost predicate Settled(rows: seq<Row>, updates: map<string, Row>, added: seq<Row>, settled: seq<Row>) {
    && DistinctBy(RowId, rows) && DistinctBy(RowId, added) && |settled| == |rows|
    && (forall id :: id in updates ==> updates[id].id == id)
    && (forall i :: 0 <= i < |rows| ==> settled[i] == if rows[i].id in updates then updates[rows[i].id] else rows[i])
    && (forall r :: r in added <==> r.id in updates && r == updates[r.id] && r.id !in (set q | q in rows :: q.id))
  }

  lemma MergedDistinct(rows: seq<Row>, updates: map<string, Row>, added: seq<Row>, settled: seq<Row>)
    requires Settled(rows, updates, added, settled)
    ensures DistinctBy(RowId, added + settled)
  {
    var full := added + settled;
    var listed := set q | q in rows :: q.id;
    assert forall i :: 0 <= i < |rows| ==> rows[i].id in listed && settled[i].id == rows[i].id;
    assert forall i :: 0 <= i < |added| ==> added[i] in added && added[i].id !in listed;
    forall i, j | 0 <= i < j < |full| ensures full[i].id != full[j].id {
      if i < |added| <= j {
        assert full[j].id == rows[j - |added|].id;
      } else if i >= |added| {
        assert full[i].id == rows[i - |added|].id && full[j].id == rows[j - |added|].id;
      }
    }
  }

  /** Where each ID's row comes from. */
  lemma MergedLookup(rows: seq<Row>, updates: map<string, Row>, added: seq<Row>, settled: seq<Row>, r: Row)
    requires Settled(rows, updates, added, settled)
    ensures r in added + settled <==> r.id in ById(rows) + updates && (ById(rows) + updates)[r.id] == r
  {
    ByIdMembers(rows);
    if r in settled {
      var i :| 0 <= i < |settled| && settled[i] == r;
      assert rows[i] in rows;
    }
    if r.id in ById(rows) + updates && (ById(rows) + updates)[r.id] == r {
      if r.id in ById(rows) {
        var i :| 0 <= i < |rows| && rows[i] == ById(rows)[r.id];
        assert settled[i] == r;
      } else {
        assert r.id !in (set q | q in rows :: q.id);
        assert r in added;
      }
    }
  }

  lemma MergedById(rows: seq<Row>, updates: map<string, Row>, added: seq<Row>, settled: seq<Row>)
    requires Settled(rows, updates, added, settled)
    ensures DistinctBy(RowId, added + settled) && ById(added + settled) == ById(rows) + updates
  {
    hide Settled, DistinctBy, ById;
    var full, expected := added + settled, ById(rows) + updates;
    MergedDistinct(rows, updates, added, settled);
    ByIdMembers(full);
    ExpectedIds(rows, updates, added, settled);
    forall id ensures id in ById(full) <==> id in expected {
      if id in ById(full) { MergedLookup(rows, updates, added, settled, ById(full)[id]); }
      if id in expected { MergedLookup(rows, updates, added, settled, expected[id]); }
    }
    forall id | id in ById(full) ensures ById(full)[id] == expected[id] {
      MergedLookup(rows, updates, added, settled, ById(full)[id]);
    }
  }

  lemma ExpectedIds(rows: seq<Row>, updates: map<string, Row>, added: seq<Row>, settled: seq<Row>)
    requires Settled(rows, updates, added, settled)
    ensures forall id :: id in ById(rows) + updates ==> (ById(rows) + updates)[id].id == id
  {
    ByIdMembers(rows);
  }

  // ---- The first page ----

  /** The page's rows that are not listed. */
  method Unlisted(page: seq<Row>, listed: set<string>) returns (missing: seq<Row>)
    requires DistinctBy(RowId, page)
    ensures DistinctBy(RowId, missing) && forall r :: r in missing <==> r in page && r.id !in listed
  {
    missing := [];
    for i := 0 to |page|
      invariant DistinctBy(RowId, missing) && forall r :: r in missing <==> r in page[..i] && r.id !in listed
    {
      assert page[..i + 1] == page[..i] + [page[i]];
      if page[i].id !in listed { missing := missing + [page[i]]; }
    }
    assert page[..|page|] == page;
  }

  method SortedByTime(rows: seq<Row>) returns (out: seq<Row>)
    requires DistinctBy(RowId, rows)
    ensures NewestFirst(out) && DistinctBy(RowId, out) && forall r :: r in out <==> r in rows
  {
    out := [];
    for i := 0 to |rows|
      invariant NewestFirst(out) && DistinctBy(RowId, out) && forall r :: r in out <==> r in rows[..i]
    {
      assert rows[..i + 1] == rows[..i] + [rows[i]];
      out := InsertByTime(out, rows[i]);
    }
    assert rows[..|rows|] == rows;
  }

  /**
   mergeNewer: live rows that raced the first page stay as they are; by ID the result is the page overridden
   by what was listed, newest first, no ID twice. With nothing listed it is the page.
   */
  method MergeNewer(have: seq<Row>, page: seq<Row>) returns (out: seq<Row>)
    requires DistinctBy(RowId, have) && DistinctBy(RowId, page)
    ensures DistinctBy(RowId, out) && ById(out) == ById(page) + ById(have)
    ensures have == [] ==> out == page
    ensures have != [] ==> NewestFirst(out)
  {
    if have == [] {
      assert ById(page) + ById(have) == ById(page);
      return page;
    }
    var listed := set r | r in have :: r.id;
    var added := Unlisted(page, listed);
    assert DistinctBy(RowId, have + added) by {
      forall i, j | 0 <= i < j < |have + added| ensures (have + added)[i].id != (have + added)[j].id {
        if i < |have| <= j { assert have[i].id in listed && added[j - |have|] in added; }
      }
    }
    out := SortedByTime(have + added);
    OverriddenById(have, page, added, out);
  }

  lemma OverriddenById(have: seq<Row>, page: seq<Row>, added: seq<Row>, out: seq<Row>)
    requires DistinctBy(RowId, have) && DistinctBy(RowId, page) && DistinctBy(RowId, out)
    requires forall r :: r in added <==> r in page && r.id !in (set q | q in have :: q.id)
    requires forall r :: r in out <==> r in have + added
    ensures ById(out) == ById(page) + ById(have)
  {
    ByIdMembers(have);
    ByIdMembers(page);
    ByIdMembers(out);
    hide ById, DistinctBy;
    var expected := ById(page) + ById(have);
    forall id | id in ById(out) ensures id in expected && expected[id] == ById(out)[id] {
      var r := ById(out)[id];
      assert r in out;
    }
    forall id | id in expected ensures id in ById(out) {
      var r := expected[id];
      assert r in have || r in page;
      if r !in have { assert id !in ById(have) && r in added; }
      assert r in out;
    }
  }
}
