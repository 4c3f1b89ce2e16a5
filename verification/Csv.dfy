/**
 The console's CSV printer and a reader for the format of section 2 of RFC 4180, with LF ending a record:
 reading what was printed gives back the cells.
 */
module Csv {
  import opened Common

  /** Value is a number or a truth value, with the text JavaScript's String gives it. */
  datatype Cell = Missing | Text(text: string) | Value(text: string)

  // ---- The printer ----

  predicate StartsLikeFormula(s: string) { s != "" && s[0] in ['=', '+', '-', '@', '\t', '\r'] }

  /** What a cell says, before quoting. */
  function Shown(v: Cell): string {
    match v
    case Missing => ""
    case Text(s) => if StartsLikeFormula(s) then "'" + s else s
    case Value(s) => s
  }

  predicate IsSpecial(c: char) { c == '"' || c == ',' || c == '\n' || c == '\r' }

  predicate NeedsQuotes(s: string) { exists c :: c in s && IsSpecial(c) }

  function Doubled(s: string): string {
    if s == "" then "" else (if s[0] == '"' then "\"\"" else [s[0]]) + Doubled(s[1..])
  }

  function Quoted(s: string): string { if NeedsQuotes(s) then "\"" + Doubled(s) + "\"" else s }

  /** A text gets the mark exactly before = + - @ tab CR, and quotes exactly around a quote, comma, LF or CR. */
  lemma CellIsPrintedSo(s: string)
    ensures Shown(Text(s)) ==
              if s != "" && (s[0] == '=' || s[0] == '+' || s[0] == '-' || s[0] == '@' || s[0] == '\t' || s[0] == '\r')
              then ['\''] + s else s
    ensures Shown(Missing) == "" && Shown(Value(s)) == s
    ensures Quoted(s) == if '"' in s || ',' in s || '\n' in s || '\r' in s then "\"" + Doubled(s) + "\"" else s
  {
    assert IsSpecial('"') && IsSpecial(',') && IsSpecial('\n') && IsSpecial('\r');
  }

  function Join(parts: seq<string>, by': char): string {
    if parts == [] then "" else if |parts| == 1 then parts[0] else parts[0] + [by'] + Join(parts[1..], by')
  }

  function PrintCell(v: Cell): string { Quoted(Shown(v)) }

  function PrintRow(row: seq<Cell>): string { Join(Map(PrintCell, row), ',') }

  function ToCsv(rows: seq<seq<Cell>>): string { Join(Map(PrintRow, rows), '\n') + "\n" }

  // ---- The reader ----

  datatype Delimiter = Comma | Newline | End

  /** A field, what ended it, and what is left. */
  datatype Field = Field(value: string, by': Delimiter, rest: string)

  function EndOf(s: string): Option<(Delimiter, string)> {
    if s == "" then Some((End, ""))
    else if s[0] == ',' then Some((Comma, s[1..]))
    else if s[0] == '\n' then Some((Newline, s[1..]))
    else None
  }

  function ReadPlain(s: string): Option<Field> {
    match EndOf(s)
    case Some((by', rest)) => Some(Field("", by', rest))
    case None =>
      if IsSpecial(s[0]) then None
      else
        match ReadPlain(s[1..])
        case Some(f) => Some(f.(value := [s[0]] + f.value))
        case None => None
  }

  /** After the opening quote. */
  function ReadQuoted(s: string): Option<Field>
    decreases |s|
  {
    if s == "" then None
    else if s[0] == '"' && |s| > 1 && s[1] == '"' then
      match ReadQuoted(s[2..])
      case Some(f) => Some(f.(value := ['"'] + f.value))
      case None => None
    else if s[0] == '"' then
      match EndOf(s[1..])
      case Some((by', rest)) => Some(Field("", by', rest))
      case None => None
    else
      match ReadQuoted(s[1..])
      case Some(f) => Some(f.(value := [s[0]] + f.value))
      case None => None
  }

  function ReadField(s: string): (r: Option<Field>) {
    if s != "" && s[0] == '"' then ReadQuoted(s[1..]) else ReadPlain(s)
  }

  lemma {:induction false} PlainShrinks(s: string)
    ensures ReadPlain(s).Some? ==>
              |ReadPlain(s).value.rest| <= |s| && (!ReadPlain(s).value.by'.End? ==> |ReadPlain(s).value.rest| < |s|)
  {
    if s != "" { PlainShrinks(s[1..]); }
  }

  lemma {:induction false} QuotedShrinks(s: string)
    ensures ReadQuoted(s).Some? ==> |ReadQuoted(s).value.rest| < |s|
    decreases |s|
  {
    if |s| > 1 && s[0] == '"' && s[1] == '"' { QuotedShrinks(s[2..]); } else if s != "" { QuotedShrinks(s[1..]); }
  }

  lemma FieldShrinks(s: string)
    ensures ReadField(s).Some? && !ReadField(s).value.by'.End? ==> |ReadField(s).value.rest| < |s|
  {
    PlainShrinks(s);
    if s != "" { QuotedShrinks(s[1..]); }
  }

  datatype Record = Record(fields: seq<string>, ended: bool, rest: string)

  function ReadRecord(s: string): (r: Option<Record>)
    ensures r.Some? && r.value.ended ==> |r.value.rest| < |s|
    decreases |s|
  {
    FieldShrinks(s);
    match ReadField(s)
    case None => None
    case Some(f) =>
      if f.by'.Comma? then
        match ReadRecord(f.rest)
        case Some(r) => Some(r.(fields := [f.value] + r.fields))
        case None => None
      else Some(Record([f.value], f.by'.Newline?, f.rest))
  }

  /** The line break after the last record is optional. */
  function ReadFile(s: string): Option<seq<seq<string>>>
    decreases |s|
  {
    match ReadRecord(s)
    case None => None
    case Some(r) =>
      if !r.ended || r.rest == "" then Some([r.fields])
      else
        match ReadFile(r.rest)
        case Some(records) => Some([r.fields] + records)
        case None => None
  }

  // ---- Reading what was printed ----

  lemma {:induction false} PlainRoundTrip(s: string, tail: string)
    requires !NeedsQuotes(s) && EndOf(tail).Some?
    ensures ReadPlain(s + tail) == Some(Field(s, EndOf(tail).value.0, EndOf(tail).value.1))
  {
    if s == "" {
      assert s + tail == tail;
    } else {
      assert s[0] in s && !IsSpecial(s[0]);
      assert forall c :: c in s[1..] ==> c in s;
      PlainRoundTrip(s[1..], tail);
      assert (s + tail)[0] == s[0] && (s + tail)[1..] == s[1..] + tail;
      assert EndOf(s + tail) == None;
      assert [s[0]] + s[1..] == s;
    }
  }

  lemma QuoteRead(rest: string)
    ensures ReadQuoted("\"\"" + rest) ==
              match ReadQuoted(rest) case Some(f) => Some(f.(value := ['"'] + f.value)) case None => None
  {
    var text := "\"\"" + rest;
    assert text[0] == text[1] == '"' && text[2..] == rest;
  }

  lemma CharRead(c: char, rest: string)
    requires c != '"'
    ensures ReadQuoted([c] + rest) ==
              match ReadQuoted(rest) case Some(f) => Some(f.(value := [c] + f.value)) case None => None
  {
    var text := [c] + rest;
    assert text[0] == c && text[1..] == rest;
  }

  lemma EndRead(tail: string)
    requires EndOf(tail).Some?
    ensures ReadQuoted("\"" + tail) == Some(Field("", EndOf(tail).value.0, EndOf(tail).value.1))
  {
    var text := "\"" + tail;
    assert text[0] == '"' && text[1..] == tail;
    assert tail != "" ==> text[1] == tail[0] && tail[0] != '"';
  }

  lemma {:induction false} QuotedRoundTrip(s: string, tail: string)
    requires EndOf(tail).Some?
    ensures ReadQuoted(Doubled(s) + "\"" + tail) == Some(Field(s, EndOf(tail).value.0, EndOf(tail).value.1))
  {
    hide ReadQuoted, EndOf;
    if s == "" {
      EndRead(tail);
      assert Doubled(s) + "\"" + tail == "\"" + tail;
    } else {
      var rest := Doubled(s[1..]) + "\"" + tail;
      QuotedRoundTrip(s[1..], tail);
      assert [s[0]] + s[1..] == s;
      if s[0] == '"' {
        QuoteRead(rest);
        assert Doubled(s) + "\"" + tail == "\"\"" + rest;
      } else {
        CharRead(s[0], rest);
        assert Doubled(s) + "\"" + tail == [s[0]] + rest;
      }
    }
  }

  lemma FieldRoundTrip(s: string, tail: string)
    requires EndOf(tail).Some?
    ensures ReadField(Quoted(s) + tail) == Some(Field(s, EndOf(tail).value.0, EndOf(tail).value.1))
  {
    hide ReadQuoted, ReadPlain, Doubled;
    if NeedsQuotes(s) {
      QuotedRoundTrip(s, tail);
      assert Quoted(s) + tail == "\"" + (Doubled(s) + "\"" + tail);
      assert (Quoted(s) + tail)[1..] == Doubled(s) + "\"" + tail;
    } else {
      PlainRoundTrip(s, tail);
      if s == "" {
        assert s + tail == tail;
      } else {
        assert s[0] in s && !IsSpecial(s[0]) && (s + tail)[0] == s[0];
      }
    }
  }

  /** A row as read: a row without cells is a line without text, which is one empty field. */
  function AsRead(row: seq<Cell>): seq<string> { if row == [] then [""] else Map(Shown, row) }

  lemma PrintMore(row: seq<Cell>)
    requires |row| > 1
    ensures PrintRow(row) == PrintCell(row[0]) + [','] + PrintRow(row[1..])
  {
    assert Map(PrintCell, row)[1..] == Map(PrintCell, row[1..]);
    assert Map(PrintCell, row) != [] && |Map(PrintCell, row[1..])| > 0;
  }

  lemma LastField(s: string, tail: string)
    ensures ReadRecord(Quoted(s) + "\n" + tail) == Some(Record([s], true, tail))
  {
    var end := "\n" + tail;
    assert end[0] == '\n' && end[1..] == tail;
    FieldRoundTrip(s, end);
    assert Quoted(s) + "\n" + tail == Quoted(s) + end;
    hide ReadField, Quoted;
  }

  lemma NextField(s: string, more: string)
    requires ReadRecord(more).Some?
    ensures ReadRecord(Quoted(s) + [','] + more) ==
              Some(ReadRecord(more).value.(fields := [s] + ReadRecord(more).value.fields))
  {
    var next := [','] + more;
    assert next[0] == ',' && next[1..] == more;
    FieldRoundTrip(s, next);
    assert Quoted(s) + [','] + more == Quoted(s) + next;
    hide ReadField, Quoted;
  }

  lemma {:induction false} RowRoundTrip(row: seq<Cell>, tail: string)
    ensures ReadRecord(PrintRow(row) + "\n" + tail) == Some(Record(AsRead(row), true, tail))
  {
    hide ReadRecord, Quoted, Join, Shown;
    if |row| <= 1 {
      OneField(row);
      LastField(if row == [] then "" else Shown(row[0]), tail);
    } else {
      var more := PrintRow(row[1..]) + "\n" + tail;
      RowRoundTrip(row[1..], tail);
      NextField(Shown(row[0]), more);
      PrintMore(row);
      assert PrintRow(row) + "\n" + tail == PrintCell(row[0]) + [','] + more;
    }
  }

  lemma OneField(row: seq<Cell>)
    requires |row| <= 1
    ensures var s := if row == [] then "" else Shown(row[0]); PrintRow(row) == Quoted(s) && AsRead(row) == [s]
  {
    if row == [] {
      assert !NeedsQuotes("");
    } else {
      assert row[1..] == [];
      assert Map(PrintCell, row) == [PrintCell(row[0])];
      assert Map(Shown, row) == [Shown(row[0])];
    }
  }

  lemma {:induction false} FileRoundTrip(rows: seq<seq<Cell>>)
    requires rows != []
    ensures ReadFile(ToCsv(rows)) == Some(Map(AsRead, rows))
  {
    assert Map(PrintRow, rows)[1..] == Map(PrintRow, rows[1..]);
    if |rows| == 1 {
      RowRoundTrip(rows[0], "");
      assert ToCsv(rows) == PrintRow(rows[0]) + "\n" + "";
      assert rows[1..] == [];
      assert Map(AsRead, rows) == [AsRead(rows[0])];
      hide ReadRecord, PrintRow, AsRead;
    } else {
      var rest := ToCsv(rows[1..]);
      FileRoundTrip(rows[1..]);
      RowRoundTrip(rows[0], rest);
      assert |Map(PrintRow, rows[1..])| > 0;
      assert Join(Map(PrintRow, rows), '\n') == PrintRow(rows[0]) + ['\n'] + Join(Map(PrintRow, rows[1..]), '\n');
      assert ToCsv(rows) == PrintRow(rows[0]) + "\n" + rest;
      assert rest != "";
      hide ReadRecord, PrintRow, AsRead, ToCsv;
    }
  }

  function ShownRow(row: seq<Cell>): seq<string> { Map(Shown, row) }

  /**
   Whatever the cells hold, reading gives back exactly the table printed if and only if it has rows and every
   row has cells.
   */
  lemma PrintedIsReadExactly(rows: seq<seq<Cell>>)
    ensures ReadFile(ToCsv(rows)) == Some(Map(ShownRow, rows)) <==> rows != [] && [] !in rows
  {
    if rows == [] {
      RowRoundTrip([], "");
      assert ToCsv(rows) == PrintRow([]) + "\n" + "";
    } else {
      FileRoundTrip(rows);
      SameRows(rows);
      hide ReadFile, ToCsv, Map;
    }
  }

  lemma SameRows(rows: seq<seq<Cell>>)
    ensures Map(AsRead, rows) == Map(ShownRow, rows) <==> [] !in rows
  {
    forall i | 0 <= i < |rows| ensures Map(AsRead, rows)[i] == Map(ShownRow, rows)[i] <==> rows[i] != [] {
      assert |ShownRow(rows[i])| == |rows[i]| && |AsRead(rows[i])| > 0;
    }
    hide AsRead, ShownRow, Map;
    if [] !in rows {
      assert Map(AsRead, rows) == Map(ShownRow, rows);
    } else {
      var i :| 0 <= i < |rows| && rows[i] == [];
      assert Map(AsRead, rows)[i] != Map(ShownRow, rows)[i];
    }
  }

  /** No text cell says anything a spreadsheet would run. */
  lemma TextIsNoFormula(s: string)
    ensures !StartsLikeFormula(Shown(Text(s)))
  {
  }

  /** Two texts are told apart in the file unless one is the other with the formula mark in front. */
  lemma TextsTellApartExactly(s: string, t: string)
    ensures Shown(Text(s)) == Shown(Text(t)) <==>
              s == t || (StartsLikeFormula(s) && t == "'" + s) || (StartsLikeFormula(t) && s == "'" + t)
  {
    assert ("'" + s)[1..] == s && ("'" + t)[1..] == t;
  }
}
