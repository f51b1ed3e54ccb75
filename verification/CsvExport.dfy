/** The CSV export: a printer for the format of section 2 of RFC 4180, with a line feed between
  records, and a guard against cells that a spreadsheet would run as a formula. */
module CsvExport {
  import opened Prelude

  /** A flattened row: its keys in order, each with the text of its value. */
  type Row = seq<(string, string)>

  type Matrix = seq<seq<string>>

  predicate IsFormula(c: char) { c == '=' || c == '+' || c == '-' || c == '@' || c == '\t' || c == '\r' }

  predicate IsSpecial(c: char) { c == '"' || c == ',' || c == '\n' || c == '\r' }

  predicate Plain(s: string) { forall i :: 0 <= i < |s| ==> !IsSpecial(s[i]) }

  function Guard(raw: string): string { if raw != "" && IsFormula(raw[0]) then "'" + raw else raw }

  function Doubled(s: string): string {
    if s == "" then "" else (if s[0] == '"' then "\"\"" else [s[0]]) + Doubled(s[1..])
  }

  /** `#escapeCsv` */
  function Escape(raw: string): string {
    var text := Guard(raw);
    if Plain(text) then text else "\"" + Doubled(text) + "\""
  }

  // ---------------------------------------------------------------- the printer

  predicate HasKey(row: Row, key: string) { exists i :: 0 <= i < |row| && row[i].0 == key }

  /** A missing cell is printed as an empty one. */
  function Cell(row: Row, key: string): string {
    if row == [] then "" else if row[0].0 == key then row[0].1 else Cell(row[1..], key)
  }

  /** The cell under a key is the first value of that key in the row. */
  lemma {:induction false} CellIs(row: Row, key: string)
    ensures HasKey(row, key) ==>
      exists i :: 0 <= i < |row| && row[i] == (key, Cell(row, key)) && forall j :: 0 <= j < i ==> row[j].0 != key
    ensures !HasKey(row, key) ==> Cell(row, key) == ""
  {
    if row != [] && row[0].0 != key {
      CellIs(row[1..], key);
      if i :| 0 <= i < |row| && row[i].0 == key { assert row[1..][i - 1].0 == key; }
      if HasKey(row[1..], key) {
        var i :| 0 <= i < |row| - 1 && row[1..][i] == (key, Cell(row, key)) && forall j :: 0 <= j < i ==> row[1..][j].0 != key;
        assert row[i + 1] == (key, Cell(row, key));
        assert forall j :: 0 < j < i + 1 ==> row[j] == row[1..][j - 1];
      }
    } else if row != [] {
      assert row[0] == (key, Cell(row, key));
    }
  }

  function AddKeys(headers: seq<string>, row: Row): seq<string> {
    if row == [] then headers
    else
      var before := AddKeys(headers, row[..|row| - 1]);
      var key := row[|row| - 1].0;
      if key in before then before else before + [key]
  }

  /** The keys of all rows, in the order in which they first appear. */
  function Headers(rows: seq<Row>): seq<string> {
    if rows == [] then [] else AddKeys(Headers(rows[..|rows| - 1]), rows[|rows| - 1])
  }

  function Cells(headers: seq<string>, row: Row): (r: seq<string>)
    ensures |r| == |headers| && forall i :: 0 <= i < |r| ==> r[i] == Cell(row, headers[i])
  {
    seq(|headers|, i requires 0 <= i < |headers| => Cell(row, headers[i]))
  }

  /** The table as it is meant: the headers, then one record for each row. */
  function Content(rows: seq<Row>): Matrix {
    var headers := Headers(rows);
    [headers] + seq(|rows|, i requires 0 <= i < |rows| => Cells(headers, rows[i]))
  }

  function Each(cells: seq<string>, f: string -> string): (r: seq<string>)
    ensures |r| == |cells| && forall i :: 0 <= i < |r| ==> r[i] == f(cells[i])
  {
    seq(|cells|, i requires 0 <= i < |cells| => f(cells[i]))
  }

  function Join(parts: seq<string>, separator: string): string
    requires parts != []
  {
    if |parts| == 1 then parts[0] else parts[0] + separator + Join(parts[1..], separator)
  }

  function Line(cells: seq<string>): string
    requires cells != []
  {
    Join(Each(cells, Escape), ",")
  }

  predicate Rectangular(m: Matrix) { m != [] && forall i :: 0 <= i < |m| ==> m[i] != [] }

  function Print(m: Matrix): string
    requires Rectangular(m)
  {
    Join(seq(|m|, i requires 0 <= i < |m| => Line(m[i])), "\n")
  }

  lemma ContentIsRectangular(rows: seq<Row>)
    requires Headers(rows) != []
    ensures Rectangular(Content(rows))
  {}

  /** `#toCsv` on flattened rows. */
  function ToCsv(rows: seq<Row>): string {
    if Headers(rows) == [] then ""
    else
      ContentIsRectangular(rows);
      Print(Content(rows))
  }

  // ---------------------------------------------------------------- the headers

  predicate NoDuplicates(s: seq<string>) { forall i, j :: 0 <= i < j < |s| ==> s[i] != s[j] }

  lemma {:induction false} AddKeysAre(headers: seq<string>, row: Row)
    requires NoDuplicates(headers)
    ensures var r := AddKeys(headers, row);
      && NoDuplicates(r) && headers <= r
      && forall key :: key in r <==> key in headers || HasKey(row, key)
  {
    if row != [] {
      var front, last := row[..|row| - 1], row[|row| - 1];
      AddKeysAre(headers, front);
      forall key ensures HasKey(row, key) <==> HasKey(front, key) || last.0 == key {
        if HasKey(front, key) {
          var i :| 0 <= i < |front| && front[i].0 == key;
          assert row[i].0 == key;
        }
        if HasKey(row, key) && last.0 != key {
          var i :| 0 <= i < |row| && row[i].0 == key;
          assert front[i].0 == key;
        }
      }
    }
  }

  /** The headers are exactly the keys that occur, each once, and later rows only add to them. */
  lemma {:induction false} HeadersAreKeys(rows: seq<Row>)
    ensures NoDuplicates(Headers(rows))
    ensures forall key :: key in Headers(rows) <==> exists i :: 0 <= i < |rows| && HasKey(rows[i], key)
    ensures rows != [] ==> Headers(rows[..|rows| - 1]) <= Headers(rows)
  {
    if rows != [] {
      var front, last := rows[..|rows| - 1], rows[|rows| - 1];
      HeadersAreKeys(front);
      AddKeysAre(Headers(front), last);
      forall key
        ensures (exists i :: 0 <= i < |rows| && HasKey(rows[i], key))
                <==> (exists i :: 0 <= i < |front| && HasKey(front[i], key)) || HasKey(last, key)
      {
        if i :| 0 <= i < |front| && HasKey(front[i], key) { assert HasKey(rows[i], key); }
        if HasKey(last, key) { assert HasKey(rows[|rows| - 1], key); }
        if i :| 0 <= i < |rows| && HasKey(rows[i], key) { assert i < |front| ==> HasKey(front[i], key); }
      }
    }
  }

  /** All keys of all rows, one after the other. */
  function AllKeys(rows: seq<Row>): seq<string> {
    if rows == [] then [] else AllKeys(rows[..|rows| - 1]) + KeysOf(rows[|rows| - 1])
  }

  function KeysOf(row: Row): (r: seq<string>)
    ensures |r| == |row| && forall i :: 0 <= i < |r| ==> r[i] == row[i].0
  {
    seq(|row|, i requires 0 <= i < |row| => row[i].0)
  }

  /** Where a key first appears. */
  function FirstAt(keys: seq<string>, key: string): (i: nat)
    ensures i <= |keys| && (i < |keys| ==> keys[i] == key) && forall j :: 0 <= j < i ==> keys[j] != key
  {
    if keys == [] || keys[0] == key then 0 else 1 + FirstAt(keys[1..], key)
  }

  ghost predicate InOrder(headers: seq<string>, keys: seq<string>) {
    && (forall key :: key in headers <==> key in keys)
    && forall p, q :: 0 <= p < q < |headers| ==> FirstAt(keys, headers[p]) < FirstAt(keys, headers[q])
  }

  lemma FirstAtMore(keys: seq<string>, more: seq<string>, key: string)
    requires key in keys
    ensures FirstAt(keys + more, key) == FirstAt(keys, key)
  {
    var i, j := FirstAt(keys, key), FirstAt(keys + more, key);
    assert (keys + more)[i] == key;
    assert j < |keys| ==> keys[j] == key;
  }

  lemma FirstAtNew(keys: seq<string>, key: string)
    requires key !in keys
    ensures FirstAt(keys + [key], key) == |keys|
  {
    var i := FirstAt(keys + [key], key);
    assert (keys + [key])[|keys|] == key;
    forall j | 0 <= j < |keys| ensures (keys + [key])[j] != key { assert keys[j] in keys; }
  }

  /** One more key: it joins the headers at the end unless it is among them. */
  lemma OneMoreKey(headers: seq<string>, keys: seq<string>, key: string)
    requires InOrder(headers, keys)
    ensures InOrder(if key in headers then headers else headers + [key], keys + [key])
  {
    var more := if key in headers then headers else headers + [key];
    if key !in headers { FirstAtNew(keys, key); }
    forall p, q | 0 <= p < q < |more| ensures FirstAt(keys + [key], more[p]) < FirstAt(keys + [key], more[q]) {
      assert more[p] in keys;
      FirstAtMore(keys, [key], more[p]);
      if q < |headers| {
        assert more[q] in keys;
        FirstAtMore(keys, [key], more[q]);
      } else {
        assert FirstAt(keys, more[p]) < |keys|;
      }
    }
  }

  lemma {:induction false} AddKeysInOrder(headers: seq<string>, keys: seq<string>, row: Row)
    requires InOrder(headers, keys)
    ensures InOrder(AddKeys(headers, row), keys + KeysOf(row))
  {
    if row == [] {
      assert keys + KeysOf(row) == keys;
    } else {
      var front, key := row[..|row| - 1], row[|row| - 1].0;
      var before := AddKeys(headers, front);
      AddKeysInOrder(headers, keys, front);
      assert KeysOf(row) == KeysOf(front) + [key];
      assert keys + KeysOf(front) + [key] == keys + KeysOf(row);
      assert AddKeys(headers, row) == if key in before then before else before + [key];
      OneMoreKey(before, keys + KeysOf(front), key);
    }
  }

  /** The headers stand in the order in which the keys first appear, row by row and within a row. */
  lemma {:induction false} HeadersInOrder(rows: seq<Row>)
    ensures InOrder(Headers(rows), AllKeys(rows))
  {
    if rows != [] {
      HeadersInOrder(rows[..|rows| - 1]);
      AddKeysInOrder(Headers(rows[..|rows| - 1]), AllKeys(rows[..|rows| - 1]), rows[|rows| - 1]);
    }
  }

  /** The set of headers as it is built: each row adds its keys one after the other. */
  method CollectHeaders(rows: seq<Row>) returns (headers: seq<string>)
    ensures headers == Headers(rows)
  {
    headers := [];
    var i := 0;
    while i < |rows|
      invariant i <= |rows| && headers == Headers(rows[..i])
    {
      var j := 0;
      while j < |rows[i]|
        invariant j <= |rows[i]| && headers == AddKeys(Headers(rows[..i]), rows[i][..j])
      {
        assert rows[i][..j + 1][..j] == rows[i][..j];
        if rows[i][j].0 !in headers { headers := headers + [rows[i][j].0]; }
        j := j + 1;
      }
      assert rows[i][..j] == rows[i] && rows[..i + 1][..i] == rows[..i];
      i := i + 1;
    }
    assert rows[..i] == rows;
  }

  // ---------------------------------------------------------------- the reader

  /** A field of section 2 of RFC 4180 and what follows it: between quotes anything, with quotes
      doubled; without quotes no quote, comma or line break. */
  function ReadQuoted(s: string): Option<(string, string)> {
    if s == "" then None
    else if s[0] == '"' then
      if |s| > 1 && s[1] == '"' then Prepend('"', ReadQuoted(s[2..])) else Some(("", s[1..]))
    else Prepend(s[0], ReadQuoted(s[1..]))
  }

  function ReadPlain(s: string): Option<(string, string)> {
    if s == "" || s[0] == ',' || s[0] == '\n' then Some(("", s))
    else if s[0] == '"' || s[0] == '\r' then None
    else Prepend(s[0], ReadPlain(s[1..]))
  }

  function Prepend(c: char, r: Option<(string, string)>): Option<(string, string)> {
    if r.None? then None else Some(([c] + r.value.0, r.value.1))
  }

  function ReadField(s: string): (r: Option<(string, string)>) {
    if s != "" && s[0] == '"' then ReadQuoted(s[1..]) else ReadPlain(s)
  }

  lemma {:induction false} FieldShrinks(s: string)
    ensures ReadPlain(s).Some? ==> |ReadPlain(s).value.1| <= |s|
    ensures ReadQuoted(s).Some? ==> |ReadQuoted(s).value.1| < |s|
    decreases |s|
  {
    if s != "" {
      FieldShrinks(s[1..]);
      if |s| > 1 { FieldShrinks(s[2..]); }
    }
  }

  lemma ReadFieldShrinks(s: string)
    ensures ReadField(s).Some? ==> |ReadField(s).value.1| <= |s|
  {
    FieldShrinks(s);
    if s != "" { FieldShrinks(s[1..]); }
  }

  function ReadRecord(s: string): (r: Option<(seq<string>, string)>)
    ensures r.Some? ==> |r.value.1| <= |s|
    decreases |s|
  {
    ReadFieldShrinks(s);
    var field := ReadField(s);
    if field.None? then None
    else if field.value.1 != "" && field.value.1[0] == ',' then
      var rest := ReadRecord(field.value.1[1..]);
      if rest.None? then None else Some(([field.value.0] + rest.value.0, rest.value.1))
    else Some(([field.value.0], field.value.1))
  }

  function ReadTable(s: string): Option<Matrix>
    decreases |s|
  {
    var record := ReadRecord(s);
    if record.None? then None
    else if record.value.1 == "" then Some([record.value.0])
    else if record.value.1[0] != '\n' then None
    else
      var rest := ReadTable(record.value.1[1..]);
      if rest.None? then None else Some([record.value.0] + rest.value)
  }

  // ---------------------------------------------------------------- the round trip

  predicate Ends(rest: string) { rest == "" || rest[0] == ',' || rest[0] == '\n' }

  lemma {:induction false} PlainReads(s: string, rest: string)
    requires Plain(s) && Ends(rest)
    ensures ReadPlain(s + rest) == Some((s, rest))
  {
    if s == "" {
      assert s + rest == rest;
    } else {
      assert !IsSpecial(s[0]);
      assert (s + rest)[1..] == s[1..] + rest;
      PlainReads(s[1..], rest);
      assert s == [s[0]] + s[1..];
    }
  }

  lemma {:induction false} DoubledReads(s: string, rest: string)
    requires Ends(rest)
    ensures ReadQuoted(Doubled(s) + "\"" + rest) == Some((s, rest))
  {
    var text := Doubled(s) + "\"" + rest;
    if s == "" {
      assert text == "\"" + rest && text[1..] == rest;
    } else {
      DoubledReads(s[1..], rest);
      var tail := Doubled(s[1..]) + "\"" + rest;
      assert s == [s[0]] + s[1..];
      if s[0] == '"' {
        assert text == "\"\"" + tail && text[2..] == tail;
      } else {
        assert text == [s[0]] + tail && text[1..] == tail;
      }
    }
  }

  lemma EscapeReads(raw: string, rest: string)
    requires Ends(rest)
    ensures ReadField(Escape(raw) + rest) == Some((Guard(raw), rest))
  {
    var text := Guard(raw);
    if Plain(text) {
      PlainReads(text, rest);
      PlainStart(text, rest);
    } else {
      DoubledReads(text, rest);
      assert Escape(raw) + rest == "\"" + (Doubled(text) + "\"" + rest);
    }
  }

  lemma PlainStart(text: string, rest: string)
    requires Plain(text) && Ends(rest)
    ensures text + rest == "" || (text + rest)[0] != '"'
  {
    if text != "" { assert (text + rest)[0] == text[0] && !IsSpecial(text[0]); }
  }

  lemma {:induction false} LineReads(cells: seq<string>, rest: string)
    requires cells != [] && (rest == "" || rest[0] == '\n')
    ensures ReadRecord(Line(cells) + rest) == Some((Each(cells, Guard), rest))
  {
    if |cells| == 1 {
      EscapeReads(cells[0], rest);
      assert Each(cells, Guard) == [Guard(cells[0])];
    } else {
      LineReads(cells[1..], rest);
      LineSplits(cells, rest);
      CellReads(cells[0], Line(cells[1..]) + rest);
      assert Each(cells, Guard) == [Guard(cells[0])] + Each(cells[1..], Guard);
    }
  }

  lemma LineSplits(cells: seq<string>, rest: string)
    requires |cells| > 1
    ensures Line(cells) + rest == Escape(cells[0]) + ("," + (Line(cells[1..]) + rest))
  {
    assert Each(cells, Escape)[1..] == Each(cells[1..], Escape);
  }

  /** A record is its first cell, a comma, and the record after it. */
  lemma CellReads(raw: string, tail: string)
    requires ReadRecord(tail).Some?
    ensures ReadRecord(Escape(raw) + ("," + tail))
            == Some(([Guard(raw)] + ReadRecord(tail).value.0, ReadRecord(tail).value.1))
  {
    EscapeReads(raw, "," + tail);
    assert ("," + tail)[1..] == tail;
  }

  function Guarded(m: Matrix): (r: Matrix)
    ensures |r| == |m| && forall i :: 0 <= i < |m| ==> r[i] == Each(m[i], Guard)
  {
    seq(|m|, i requires 0 <= i < |m| => Each(m[i], Guard))
  }

  lemma {:induction false} PrintReads(m: Matrix)
    requires Rectangular(m)
    ensures ReadTable(Print(m)) == Some(Guarded(m))
  {
    if |m| == 1 {
      LineReads(m[0], "");
      assert Print(m) == Line(m[0]) + "";
      assert Guarded(m) == [Each(m[0], Guard)];
    } else {
      var lines := seq(|m|, i requires 0 <= i < |m| => Line(m[i]));
      var tail := Print(m[1..]);
      assert lines[1..] == seq(|m[1..]|, i requires 0 <= i < |m[1..]| => Line(m[1..][i]));
      assert Print(m) == Line(m[0]) + ("\n" + tail);
      LineReads(m[0], "\n" + tail);
      PrintReads(m[1..]);
      assert ("\n" + tail)[1..] == tail;
      assert Guarded(m) == [Each(m[0], Guard)] + Guarded(m[1..]);
    }
  }

  /** The characters with which a spreadsheet begins a formula. */
  predicate BeginsFormula(s: string) { s != "" && s[0] in {'=', '+', '-', '@', '\t', '\r'} }

  /** The text a cell stands for in the file: a formula is preceded by an apostrophe. */
  function Shown(raw: string): string { if BeginsFormula(raw) then "'" + raw else raw }

  /** The table that the export means: the headers, then for every row its value under each. */
  ghost predicate Means(t: Matrix, rows: seq<Row>) {
    var headers := Headers(rows);
    && |t| == |rows| + 1 && |t[0]| == |headers|
    && (forall j :: 0 <= j < |headers| ==> t[0][j] == Shown(headers[j]))
    && (forall i :: 1 <= i < |t| ==> |t[i]| == |headers|)
    && (forall i, j :: 0 <= i < |rows| && 0 <= j < |headers| ==> ShowsValue(t[i + 1][j], rows[i], headers[j]))
  }

  predicate NoFormulas(t: Matrix) { forall i, j :: 0 <= i < |t| && 0 <= j < |t[i]| ==> !BeginsFormula(t[i][j]) }

  /** The first value the row has under the key, or nothing when it has none. */
  ghost predicate ShowsValue(cell: string, row: Row, key: string) {
    || ((forall i :: 0 <= i < |row| ==> row[i].0 != key) && cell == "")
    || (exists i :: 0 <= i < |row| && row[i].0 == key && cell == Shown(row[i].1) && forall j :: 0 <= j < i ==> row[j].0 != key)
  }

  lemma CellShows(row: Row, key: string)
    ensures ShowsValue(Guard(Cell(row, key)), row, key)
  {
    CellIs(row, key);
    if HasKey(row, key) {
      var i :| 0 <= i < |row| && row[i] == (key, Cell(row, key)) && forall j :: 0 <= j < i ==> row[j].0 != key;
      assert Guard(Cell(row, key)) == Shown(row[i].1);
    } else {
      assert forall i :: 0 <= i < |row| ==> row[i].0 != key;
    }
  }

  /** Round trip: for every table with at least one column, reading the export by section 2 of
      RFC 4180 returns exactly the headers and cells, guarded, and no cell that comes back begins
      a formula. Without columns the export is empty. */
  lemma ExportReads(rows: seq<Row>)
    ensures Headers(rows) == [] ==> ToCsv(rows) == ""
    ensures Headers(rows) != [] ==>
      var read := ReadTable(ToCsv(rows)); read.Some? && Means(read.value, rows) && NoFormulas(read.value)
  {
    if Headers(rows) != [] {
      ContentIsRectangular(rows);
      PrintReads(Content(rows));
      ContentMeans(rows);
    }
  }

  lemma ContentMeans(rows: seq<Row>)
    ensures Means(Guarded(Content(rows)), rows)
    ensures NoFormulas(Guarded(Content(rows)))
  {
    var headers, t := Headers(rows), Guarded(Content(rows));
    forall i, j | 0 <= i < |rows| && 0 <= j < |headers| ensures ShowsValue(t[i + 1][j], rows[i], headers[j]) {
      CellShows(rows[i], headers[j]);
      assert t[i + 1][j] == Guard(Cell(rows[i], headers[j]));
    }
  }

  /** A cell is quoted exactly when it holds a quote, a comma or a line break, and then each of its
      quotes is doubled; otherwise it stands as it is. */
  lemma QuotedIff(raw: string)
    ensures var text := Shown(raw);
      var special := exists i :: 0 <= i < |text| && text[i] in {'"', ',', '\n', '\r'};
      if special then Escape(raw) == "\"" + Doubled(text) + "\"" else Escape(raw) == text
  {}

  /** The guard confuses two cells only when one of them is a formula and the other is that formula
      written with the apostrophe. */
  predicate GuardedApart(a: string, b: string) {
    a == b || (a != "" && IsFormula(a[0]) && b == "'" + a) || (b != "" && IsFormula(b[0]) && a == "'" + b)
  }

  lemma GuardConfusesIff(a: string, b: string)
    ensures Guard(a) == Guard(b) <==> GuardedApart(a, b)
  {
    assert a != "" ==> ("'" + a)[1..] == a;
    assert b != "" ==> ("'" + b)[1..] == b;
  }

  predicate RowsApart(a: seq<string>, b: seq<string>) {
    |a| == |b| && forall j :: 0 <= j < |a| ==> GuardedApart(a[j], b[j])
  }

  predicate TablesApart(m: Matrix, n: Matrix) {
    |m| == |n| && forall i :: 0 <= i < |m| ==> RowsApart(m[i], n[i])
  }

  lemma RowsGuardIff(a: seq<string>, b: seq<string>)
    ensures RowsApart(a, b) <==> Each(a, Guard) == Each(b, Guard)
    ensures RowsApart(a, b) ==> Each(a, Escape) == Each(b, Escape)
  {
    if |a| == |b| {
      forall j | 0 <= j < |a|
        ensures GuardedApart(a[j], b[j]) <==> Each(a, Guard)[j] == Each(b, Guard)[j]
      {
        GuardConfusesIff(a[j], b[j]);
      }
    }
  }

  lemma TablesGuardIff(m: Matrix, n: Matrix)
    ensures TablesApart(m, n) <==> Guarded(m) == Guarded(n)
  {
    if |m| == |n| {
      forall i | 0 <= i < |m| ensures RowsApart(m[i], n[i]) <==> Guarded(m)[i] == Guarded(n)[i] {
        RowsGuardIff(m[i], n[i]);
      }
    }
  }

  /** Two tables have the same export exactly when they have the same shape and cell by cell differ
      at most by the guard. */
  lemma SameExportIff(m: Matrix, n: Matrix)
    requires Rectangular(m) && Rectangular(n)
    ensures Print(m) == Print(n) <==> TablesApart(m, n)
  {
    PrintReads(m);
    PrintReads(n);
    TablesGuardIff(m, n);
    if TablesApart(m, n) {
      forall i | 0 <= i < |m| ensures Line(m[i]) == Line(n[i]) { RowsGuardIff(m[i], n[i]); }
      assert seq(|m|, i requires 0 <= i < |m| => Line(m[i])) == seq(|n|, i requires 0 <= i < |n| => Line(n[i]));
    }
  }
}
