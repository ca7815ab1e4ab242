/** The CSV exporter and the character-by-character CSV parser. */
module Csv {
  import opened Options

  type Row = seq<string>
  type Table = seq<Row>

  // ---- Exporter --------------------------------------------------------------

  /** No comma, quote or newline. */
  predicate Plain(field: string) {
    forall i | 0 <= i < |field| :: field[i] != ',' && field[i] != '"' && field[i] != '\n'
  }

  function DoubleQuotes(field: string): string {
    if field == "" then ""
    else (if field[0] == '"' then "\"\"" else [field[0]]) + DoubleQuotes(field[1..])
  }

  function PrintField(field: string): string {
    if Plain(field) then field else "\"" + DoubleQuotes(field) + "\""
  }

  function JoinWith(parts: seq<string>, separator: char): string {
    if parts == [] then ""
    else if |parts| == 1 then parts[0]
    else parts[0] + [separator] + JoinWith(parts[1..], separator)
  }

  function PrintRow(row: Row): string {
    JoinWith(seq(|row|, i requires 0 <= i < |row| => PrintField(row[i])), ',')
  }

  /** A missing value is printed as the empty text. */
  function CellText(value: Option<string>): string {
    value.GetOr("")
  }

  function RowText(values: seq<Option<string>>): Row {
    seq(|values|, i requires 0 <= i < |values| => CellText(values[i]))
  }

  function DataTable(data: seq<seq<Option<string>>>): Table {
    seq(|data|, k requires 0 <= k < |data| => RowText(data[k]))
  }

  /** The header line is printed as it is; data fields are quoted where needed. */
  function ExportToCsv(headers: seq<string>, data: seq<seq<Option<string>>>): string {
    JoinWith([JoinWith(headers, ',')] +
             seq(|data|, k requires 0 <= k < |data| => PrintRow(RowText(data[k]))), '\n')
  }

  // ---- Parser ----------------------------------------------------------------

  datatype Scanner = Scanner(rows: Table, current: Row, field: string, inQuotes: bool)

  const START: Scanner := Scanner([], [], "", false)

  function EndField(st: Scanner): Scanner {
    st.(current := st.current + [st.field], field := "")
  }

  function EndRow(st: Scanner): Scanner {
    st.(rows := st.rows + [st.current + [st.field]], current := [], field := "")
  }

  function Append(st: Scanner, c: char): Scanner {
    st.(field := st.field + [c])
  }

  /** How many characters the scanner takes at once: an escaped quote or a CR LF takes two. */
  function Taken(rest: string, st: Scanner): (n: nat)
    requires rest != ""
    ensures 1 <= n <= |rest|
  {
    if |rest| > 1 && ((st.inQuotes && rest[0] == '"' && rest[1] == '"') ||
                      (!st.inQuotes && rest[0] == '\r' && rest[1] == '\n')) then 2 else 1
  }

  function Step(rest: string, st: Scanner): Scanner
    requires rest != ""
  {
    if st.inQuotes then
      if Taken(rest, st) == 2 then Append(st, '"')
      else if rest[0] == '"' then st.(inQuotes := false)
      else Append(st, rest[0])
    else if rest[0] == '"' then st.(inQuotes := true)
    else if rest[0] == ',' then EndField(st)
    else if Taken(rest, st) == 2 || rest[0] == '\n' then EndRow(st)
    else Append(st, rest[0])
  }

  function Scan(rest: string, st: Scanner): Scanner
    decreases |rest|
  {
    if rest == "" then st else Scan(rest[Taken(rest, st)..], Step(rest, st))
  }

  /** A last row is kept when it has a field or a non-empty partial field. */
  function Close(st: Scanner): Table {
    if st.field != "" || st.current != [] then st.rows + [st.current + [st.field]] else st.rows
  }

  function Parse(text: string): Table {
    Close(Scan(text, START))
  }

  method ParseCsvText(text: string) returns (rows: Table)
    ensures rows == Parse(text)
  {
    rows := [];
    var current: Row := [];
    var field := "";
    var inQuotes := false;
    var i := 0;
    while i < |text|
      invariant 0 <= i <= |text|
      invariant Scan(text[i..], Scanner(rows, current, field, inQuotes)) == Scan(text, START)
    {
      ghost var st := Scanner(rows, current, field, inQuotes);
      ghost var rest := text[i..];
      var c := text[i];
      var next := if i + 1 < |text| then Some(text[i + 1]) else None;
      if inQuotes {
        if c == '"' && next == Some('"') {
          field := field + "\"";
          i := i + 1;
        } else if c == '"' {
          inQuotes := false;
        } else {
          field := field + [c];
        }
      } else if c == '"' {
        inQuotes := true;
      } else if c == ',' {
        current := current + [field];
        field := "";
      } else if c == '\r' && next == Some('\n') {
        current := current + [field];
        field := "";
        rows := rows + [current];
        current := [];
        i := i + 1;
      } else if c == '\n' {
        current := current + [field];
        field := "";
        rows := rows + [current];
        current := [];
      } else {
        field := field + [c];
      }
      i := i + 1;
      assert Scanner(rows, current, field, inQuotes) == Step(rest, st);
      assert text[i..] == rest[Taken(rest, st)..];
    }
    if field != "" || |current| > 0 {
      current := current + [field];
      rows := rows + [current];
    }
  }

  // ---- What the scanner never takes back ---------------------------------------

  /** Finished rows stay, and an unfinished row and field are kept as prefixes. */
  lemma {:induction false} ScannerKeeps(rest: string, st: Scanner)
    ensures var r := Close(Scan(rest, st));
            && st.rows <= r
            && (st.current != [] || st.field != "" ==>
                  && |r| > |st.rows|
                  && |r[|st.rows|]| > |st.current|
                  && st.current <= r[|st.rows|]
                  && st.field <= r[|st.rows|][|st.current|])
    decreases |rest|
  {
    if rest != "" {
      ScannerKeeps(rest[Taken(rest, st)..], Step(rest, st));
    }
  }

  // ---- Fields ------------------------------------------------------------------

  /** A plain field that ends in a carriage return: a row break after it swallows the return. */
  predicate EndsInReturn(field: string) {
    Plain(field) && field != "" && field[|field| - 1] == '\r'
  }

  predicate AtBreak(rest: string) {
    rest == "" || rest[0] == ',' || rest[0] == '\n' || rest[0] == '\r'
  }

  lemma {:induction false} ScanPlain(field: string, rest: string, st: Scanner)
    requires Plain(field) && !st.inQuotes && AtBreak(rest)
    requires rest != "" && rest[0] == '\n' ==> !EndsInReturn(field)
    ensures Scan(field + rest, st) == Scan(rest, st.(field := st.field + field))
    decreases |field|
  {
    if field == "" {
      assert field + rest == rest;
      assert st.field + field == st.field;
    } else {
      var all := field + rest;
      assert all[0] == field[0];
      assert |all| > 1 ==> all[1] == if |field| > 1 then field[1] else rest[0];
      assert all[1..] == field[1..] + rest;
      ScanPlain(field[1..], rest, Append(st, field[0]));
      assert st.field + [field[0]] + field[1..] == st.field + field;
    }
  }

  /** The quote before a break ends the quoted part. */
  lemma ScanCloseQuote(rest: string, st: Scanner)
    requires st.inQuotes && AtBreak(rest)
    ensures Scan("\"" + rest, st) == Scan(rest, st.(inQuotes := false))
  {
    var all := "\"" + rest;
    assert rest != "" ==> all[1] == rest[0];
    assert all[1..] == rest;
  }

  /** One character of a quoted part, a quote being written twice. */
  lemma ScanOneQuoted(c: char, tail: string, st: Scanner)
    requires st.inQuotes
    ensures Scan((if c == '"' then "\"\"" else [c]) + tail, st) == Scan(tail, Append(st, c))
  {
    var head := if c == '"' then "\"\"" else [c];
    assert (head + tail)[|head|..] == tail;
  }

  lemma {:induction false} ScanQuoted(field: string, rest: string, st: Scanner)
    requires st.inQuotes && AtBreak(rest)
    ensures Scan(DoubleQuotes(field) + "\"" + rest, st) ==
            Scan(rest, st.(field := st.field + field, inQuotes := false))
    decreases |field|
  {
    hide Scan, AtBreak, Append;
    if field == "" {
      ScanCloseQuote(rest, st);
      assert DoubleQuotes(field) + "\"" + rest == "\"" + rest;
      assert st.field + field == st.field;
    } else {
      var tail := DoubleQuotes(field[1..]) + "\"" + rest;
      ScanOneQuoted(field[0], tail, st);
      DoubleQuotesCons(field, rest);
      hide DoubleQuotes;
      AppendedField(field, st);
      ScanQuoted(field[1..], rest, Append(st, field[0]));
    }
  }

  lemma DoubleQuotesCons(field: string, rest: string)
    requires field != ""
    ensures DoubleQuotes(field) + "\"" + rest ==
            (if field[0] == '"' then "\"\"" else [field[0]]) + (DoubleQuotes(field[1..]) + "\"" + rest)
  {
  }

  lemma AppendedField(field: string, st: Scanner)
    requires field != ""
    ensures var t := Append(st, field[0]);
            t.inQuotes == st.inQuotes
            && t.(field := t.field + field[1..], inQuotes := false) == st.(field := st.field + field, inQuotes := false)
  {
    assert st.field + [field[0]] + field[1..] == st.field + field;
  }

  lemma {:induction false} ScanField(field: string, rest: string, st: Scanner)
    requires !st.inQuotes && AtBreak(rest)
    requires rest != "" && rest[0] == '\n' ==> !EndsInReturn(field)
    ensures Scan(PrintField(field) + rest, st) == Scan(rest, st.(field := st.field + field))
  {
    if Plain(field) {
      ScanPlain(field, rest, st);
    } else {
      var inner := DoubleQuotes(field) + "\"" + rest;
      assert PrintField(field) + rest == "\"" + inner;
      hide Plain, PrintField, DoubleQuotes;
      assert ("\"" + inner)[1..] == inner;
      assert Scan("\"" + inner, st) == Scan(inner, st.(inQuotes := true));
      hide Scan;
      ScanQuoted(field, rest, st.(inQuotes := true));
    }
  }

  // ---- Rows --------------------------------------------------------------------

  function Last(row: Row): string
    requires row != []
  {
    row[|row| - 1]
  }

  lemma PrintRowStep(row: Row)
    requires |row| > 1
    ensures PrintRow(row) == PrintField(row[0]) + "," + PrintRow(row[1..])
  {
    var parts := seq(|row|, i requires 0 <= i < |row| => PrintField(row[i]));
    assert parts[1..] == seq(|row[1..]|, i requires 0 <= i < |row[1..]| => PrintField(row[1..][i]));
  }

  lemma ScanComma(rest: string, st: Scanner)
    requires !st.inQuotes
    ensures Scan("," + rest, st) == Scan(rest, EndField(st))
  {
    assert ("," + rest)[1..] == rest;
  }

  lemma ScanBreak(rest: string, st: Scanner)
    requires !st.inQuotes
    ensures Scan("\n" + rest, st) == Scan(rest, EndRow(st))
  {
    assert ("\n" + rest)[1..] == rest;
  }

  lemma AppendFirst<T>(prefix: seq<T>, s: seq<T>)
    requires s != []
    ensures prefix + [s[0]] + s[1..] == prefix + s
  {
  }

  lemma AppendFirstOfMany<T>(prefix: seq<T>, s: seq<T>)
    requires |s| > 1
    ensures prefix + [s[0]] + s[1..][..|s| - 2] == prefix + s[..|s| - 1]
  {
  }

  lemma RowTextStep(row: Row, rest: string)
    requires |row| > 1
    ensures PrintRow(row) + rest == PrintField(row[0]) + ("," + (PrintRow(row[1..]) + rest))
  {
    PrintRowStep(row);
  }

  /** All fields of a row but the last are read back one by one. */
  lemma {:induction false} ScanRowStart(row: Row, rest: string, st: Scanner)
    requires row != [] && !st.inQuotes && st.field == ""
    ensures Scan(PrintRow(row) + rest, st) ==
            Scan(PrintField(Last(row)) + rest, st.(current := st.current + row[..|row| - 1]))
    decreases |row|
  {
    if |row| == 1 {
      assert st.current + row[..0] == st.current;
    } else {
      RowTextStep(row, rest);
      hide Scan, PrintField, PrintRow;
      var tail := PrintRow(row[1..]) + rest;
      ScanField(row[0], "," + tail, st);
      assert st.field + row[0] == row[0];
      ScanComma(tail, st.(field := row[0]));
      ScanRowStart(row[1..], rest, st.(current := st.current + [row[0]]));
      AppendFirstOfMany(st.current, row);
    }
  }

  lemma {:induction false} ScanRow(row: Row, rest: string, st: Scanner)
    requires row != [] && !st.inQuotes && st.field == ""
    requires rest == "" || rest[0] == '\n' || rest[0] == '\r'
    requires rest != "" && rest[0] == '\n' ==> !EndsInReturn(Last(row))
    ensures Scan(PrintRow(row) + rest, st) ==
            Scan(rest, st.(current := st.current + row[..|row| - 1], field := Last(row)))
  {
    ScanRowStart(row, rest, st);
    var last := st.(current := st.current + row[..|row| - 1]);
    ScanField(Last(row), rest, last);
    assert last.field + Last(row) == Last(row);
  }

  /** A row break after a plain trailing carriage return takes the return with it. */
  lemma {:induction false} ScanSwallowingRow(row: Row, rest: string, st: Scanner)
    requires row != [] && !st.inQuotes && st.field == ""
    requires EndsInReturn(Last(row))
    ensures var shortened := row[..|row| - 1] + [Last(row)[..|Last(row)| - 1]];
            Scan(PrintRow(row) + ("\n" + rest), st) ==
            Scan(rest, Scanner(st.rows + [st.current + shortened], [], "", false))
  {
    var field := Last(row);
    var kept := field[..|field| - 1];
    ScanRowStart(row, "\n" + rest, st);
    var at := st.(current := st.current + row[..|row| - 1]);
    SwallowedField(field, rest, at);
    assert at.current + [kept] == st.current + (row[..|row| - 1] + [kept]);
  }

  lemma {:induction false} SwallowedField(field: string, rest: string, st: Scanner)
    requires EndsInReturn(field) && !st.inQuotes && st.field == ""
    ensures Scan(field + ("\n" + rest), st) ==
            Scan(rest, EndRow(st.(field := field[..|field| - 1])))
  {
    SwallowedTail(field, rest, st);
    assert st.field + field[..|field| - 1] == field[..|field| - 1];
  }

  lemma {:induction false} SwallowedTail(field: string, rest: string, st: Scanner)
    requires EndsInReturn(field) && !st.inQuotes
    ensures Scan(field + ("\n" + rest), st) ==
            Scan(rest, EndRow(st.(field := st.field + field[..|field| - 1])))
    decreases |field|
  {
    var all := field + ("\n" + rest);
    if |field| == 1 {
      assert all[0] == '\r' && all[1] == '\n' && all[2..] == rest;
      assert st.field + field[..0] == st.field;
    } else {
      assert all[0] == field[0] && all[1] == field[1];
      assert all[1..] == field[1..] + ("\n" + rest);
      SwallowedTail(field[1..], rest, Append(st, field[0]));
      assert st.field + [field[0]] + field[1..][..|field| - 2] == st.field + field[..|field| - 1];
    }
  }

  // ---- Tables ------------------------------------------------------------------

  function PrintTable(table: Table): string {
    JoinWith(seq(|table|, k requires 0 <= k < |table| => PrintRow(table[k])), '\n')
  }

  lemma PrintTableStep(table: Table)
    requires |table| > 1
    ensures PrintTable(table) == PrintRow(table[0]) + ("\n" + PrintTable(table[1..]))
  {
    var lines := seq(|table|, k requires 0 <= k < |table| => PrintRow(table[k]));
    assert lines[1..] == seq(|table[1..]|, k requires 0 <= k < |table[1..]| => PrintRow(table[1..][k]));
  }

  predicate RowsNotEmpty(table: Table) {
    forall k | 0 <= k < |table| :: table[k] != []
  }

  /** No row but the last loses a carriage return to its row break. */
  predicate KeepsReturns(table: Table)
    requires RowsNotEmpty(table)
  {
    forall k | 0 <= k < |table| - 1 :: !EndsInReturn(Last(table[k]))
  }

  /** The last row is not a single empty field, which prints as nothing. */
  predicate EndsVisibly(table: Table) {
    table == [] || table[|table| - 1] != [""]
  }

  function WithoutInvisibleEnd(table: Table): Table {
    if EndsVisibly(table) then table else table[..|table| - 1]
  }

  function AtRow(rows: Table): Scanner {
    Scanner(rows, [], "", false)
  }

  lemma LastCompletes(row: Row)
    requires row != []
    ensures row[..|row| - 1] + [Last(row)] == row
  {
  }

  /** A row that keeps its text, its break, and then whatever follows. */
  lemma ScanRowAndBreak(row: Row, rest: string, rows: Table)
    requires row != [] && !EndsInReturn(Last(row))
    ensures Scan(PrintRow(row) + ("\n" + rest), AtRow(rows)) == Scan(rest, AtRow(rows + [row]))
  {
    ScanRow(row, "\n" + rest, AtRow(rows));
    hide Scan, PrintRow;
    LastCompletes(row);
    ScanBreak(rest, Scanner(rows, row[..|row| - 1], Last(row), false));
    assert [] + row[..|row| - 1] == row[..|row| - 1];
  }

  lemma ScanLastRow(row: Row, rows: Table)
    requires row != []
    ensures Close(Scan(PrintRow(row), AtRow(rows))) == if row == [""] then rows else rows + [row]
  {
    assert PrintRow(row) + "" == PrintRow(row);
    ScanRow(row, "", AtRow(rows));
    hide PrintRow;
    LastCompletes(row);
    assert [] + row[..|row| - 1] == row[..|row| - 1];
  }

  lemma PrintOneRow(table: Table)
    requires |table| == 1
    ensures PrintTable(table) == PrintRow(table[0])
  {
  }

  lemma VisibleStep(table: Table, rows: Table)
    requires |table| > 1
    ensures rows + [table[0]] + WithoutInvisibleEnd(table[1..]) == rows + WithoutInvisibleEnd(table)
  {
    assert table[|table| - 1] == table[1..][|table| - 2];
    assert [table[0]] + WithoutInvisibleEnd(table[1..]) == WithoutInvisibleEnd(table);
  }

  lemma {:induction false} ScanTable(table: Table, rows: Table)
    requires RowsNotEmpty(table) && KeepsReturns(table)
    ensures Close(Scan(PrintTable(table), AtRow(rows))) == rows + WithoutInvisibleEnd(table)
    decreases |table|
  {
    if |table| == 1 {
      PrintOneRow(table);
      hide Scan, PrintRow, PrintTable;
      ScanLastRow(table[0], rows);
      assert table == [table[0]];
    } else if |table| > 1 {
      PrintTableStep(table);
      hide Scan, PrintRow, PrintTable;
      ScanRowAndBreak(table[0], PrintTable(table[1..]), rows);
      ScanTable(table[1..], rows + [table[0]]);
      VisibleStep(table, rows);
    }
  }

  lemma SwallowingRowShows(row: Row, rest: string, rows: Table, table: Table)
    requires row != [] && EndsInReturn(Last(row))
    requires |table| > |rows| && table[|rows|] == row
    ensures Close(Scan(PrintRow(row) + ("\n" + rest), AtRow(rows))) != table
  {
    ScanSwallowingRow(row, rest, AtRow(rows));
    hide Scan, PrintRow;
    var shortened := row[..|row| - 1] + [Last(row)[..|Last(row)| - 1]];
    assert [] + shortened == shortened;
    ScannerKeeps(rest, AtRow(rows + [shortened]));
    assert (rows + [shortened])[|rows|] == shortened;
    assert shortened[|row| - 1] != row[|row| - 1];
  }

  lemma {:induction false} SwallowedReturnShows(table: Table, rows: Table)
    requires RowsNotEmpty(table) && !KeepsReturns(table)
    ensures Close(Scan(PrintTable(table), AtRow(rows))) != rows + table
    decreases |table|
  {
    PrintTableStep(table);
    hide Scan, PrintRow, PrintTable;
    var rest := PrintTable(table[1..]);
    if EndsInReturn(Last(table[0])) {
      SwallowingRowShows(table[0], rest, rows, rows + table);
    } else {
      ScanRowAndBreak(table[0], rest, rows);
      var k :| 0 <= k < |table| - 1 && EndsInReturn(Last(table[k]));
      assert table[1..][k - 1] == table[k];
      SwallowedReturnShows(table[1..], rows + [table[0]]);
      AppendFirst(rows, table);
    }
  }

  /** A printed table is read back as it was exactly when nothing in it is invisible to the parser. */
  lemma TableRoundTrip(table: Table)
    requires RowsNotEmpty(table)
    ensures Parse(PrintTable(table)) == table <==> KeepsReturns(table) && EndsVisibly(table)
  {
    if KeepsReturns(table) {
      ScanTable(table, []);
      assert [] + WithoutInvisibleEnd(table) == WithoutInvisibleEnd(table);
    } else {
      SwallowedReturnShows(table, []);
      assert [] + table == table;
    }
  }

  // ---- Lines that end in CR LF ---------------------------------------------------

  /** The table as other programs print it, with a carriage return in every break. */
  function PrintCrlf(table: Table): string {
    if table == [] then ""
    else if |table| == 1 then PrintRow(table[0])
    else PrintRow(table[0]) + ("\r\n" + PrintCrlf(table[1..]))
  }

  lemma ScanCrlf(rest: string, st: Scanner)
    requires !st.inQuotes
    ensures Scan("\r\n" + rest, st) == Scan(rest, EndRow(st))
  {
    var all := "\r\n" + rest;
    assert all[0] == '\r' && all[1] == '\n' && all[2..] == rest;
  }

  lemma ScanRowAndCrlf(row: Row, rest: string, rows: Table)
    requires row != []
    ensures Scan(PrintRow(row) + ("\r\n" + rest), AtRow(rows)) == Scan(rest, AtRow(rows + [row]))
  {
    ScanRow(row, "\r\n" + rest, AtRow(rows));
    hide Scan, PrintRow;
    LastCompletes(row);
    ScanCrlf(rest, Scanner(rows, row[..|row| - 1], Last(row), false));
    assert [] + row[..|row| - 1] == row[..|row| - 1];
  }

  lemma {:induction false} ScanCrlfTable(table: Table, rows: Table)
    requires RowsNotEmpty(table)
    ensures Close(Scan(PrintCrlf(table), AtRow(rows))) == rows + WithoutInvisibleEnd(table)
    decreases |table|
  {
    if |table| == 1 {
      hide Scan, PrintRow;
      ScanLastRow(table[0], rows);
      assert table == [table[0]];
    } else if |table| > 1 {
      hide Scan, PrintRow;
      ScanRowAndCrlf(table[0], PrintCrlf(table[1..]), rows);
      ScanCrlfTable(table[1..], rows + [table[0]]);
      VisibleStep(table, rows);
    }
  }

  /** With CR LF breaks every table is read back, carriage returns in fields and all, but for a last row of one empty field. */
  lemma CrlfRoundTrip(table: Table)
    requires RowsNotEmpty(table)
    ensures Parse(PrintCrlf(table)) == table <==> EndsVisibly(table)
  {
    ScanCrlfTable(table, []);
    assert [] + WithoutInvisibleEnd(table) == WithoutInvisibleEnd(table);
  }

  // ---- Raw headers ---------------------------------------------------------------

  function Quotes(n: nat): string {
    seq(n, _ => '"')
  }

  /** The field at column `j` of the first row is `header`. */
  predicate ReadsHeader(r: Table, j: nat, header: string) {
    r != [] && j < |r[0]| && r[0][j] == header
  }

  /** Once the partial field differs from the header, it is not read back. */
  lemma DifferentPrefix(rest: string, st: Scanner, header: string)
    requires st.rows == [] && st.field != "" && !(st.field <= header)
    ensures !ReadsHeader(Close(Scan(rest, st)), |st.current|, header)
  {
    ScannerKeeps(rest, st);
  }

  lemma DifferentField(rest: string, st: Scanner, j: nat, header: string)
    requires st.rows == [] && j < |st.current| && st.current[j] != header
    ensures !ReadsHeader(Close(Scan(rest, st)), j, header)
  {
    ScannerKeeps(rest, st);
  }

  lemma DifferentRow(rest: string, st: Scanner, j: nat, header: string)
    requires st.rows != [] && (j >= |st.rows[0]| || st.rows[0][j] != header)
    ensures !ReadsHeader(Close(Scan(rest, st)), j, header)
  {
    ScannerKeeps(rest, st);
  }

  /** The scanner is about to read a character that is not the quote the header has there. */
  lemma {:induction false} QuoteMissing(rest: string, st: Scanner, header: string)
    requires st.rows == [] && st.field < header && header[|st.field|] == '"'
    requires rest != "" ==> rest[0] != '"'
    ensures !ReadsHeader(Close(Scan(rest, st)), |st.current|, header)
  {
    if rest != "" {
      var after := Step(rest, st);
      var tail := rest[Taken(rest, st)..];
      assert Scan(rest, st) == Scan(tail, after);
      hide Scan;
      if after.rows != [] {
        assert after.rows[0] == st.current + [st.field];
        assert after.rows[0][|st.current|] == st.field;
        DifferentRow(tail, after, |st.current|, header);
      } else if |after.current| > |st.current| {
        DifferentField(tail, after, |st.current|, header);
      } else {
        assert after.field[|st.field|] == rest[0];
        DifferentPrefix(tail, after, header);
      }
    }
  }

  /** A run of quotes never yields as many quotes as it has. */
  lemma {:induction false} QuotesAreLost(m: nat, rest: string, st: Scanner, n: nat, header: string)
    requires st.rows == [] && n > m
    requires st.field + Quotes(n) <= header
    requires rest != "" ==> rest[0] != '"'
    ensures !ReadsHeader(Close(Scan(Quotes(m) + rest, st)), |st.current|, header)
    decreases m
  {
    assert header[|st.field|] == '"' by {
      assert (st.field + Quotes(n))[|st.field|] == '"';
    }
    var all := Quotes(m) + rest;
    if m == 0 {
      assert all == rest;
      QuoteMissing(rest, st, header);
    } else if m == 1 || !st.inQuotes {
      assert all[0] == '"' && (m == 1 && rest != "" ==> all[1] == rest[0]);
      assert all[1..] == Quotes(m - 1) + rest;
      QuotesAreLost(m - 1, rest, st.(inQuotes := !st.inQuotes), n, header);
    } else {
      assert all[0] == '"' && all[1] == '"';
      assert all[2..] == Quotes(m - 2) + rest;
      assert st.field + Quotes(n) == st.field + ['"'] + Quotes(n - 1);
      QuotesAreLost(m - 2, rest, Append(st, '"'), n - 1, header);
    }
  }

  lemma QuotesCons(s: string, n: nat)
    requires s != "" && s[0] == '"' && n < |s| && s[1..] == Quotes(n) + s[1..][n..]
    ensures s == Quotes(n + 1) + s[n + 1..]
  {
    assert Quotes(n + 1) == ['"'] + Quotes(n);
    assert s == ['"'] + s[1..] && s[1..][n..] == s[n + 1..];
  }

  function LeadingQuotes(s: string): (n: nat)
    ensures n <= |s| && s == Quotes(n) + s[n..]
    ensures n < |s| ==> s[n] != '"'
  {
    if s == "" || s[0] != '"' then 0
    else
      var n := LeadingQuotes(s[1..]);
      QuotesCons(s, n);
      n + 1
  }

  lemma ScanOpenQuote(rest: string, st: Scanner)
    requires !st.inQuotes
    ensures Scan("\"" + rest, st) == Scan(rest, st.(inQuotes := true))
  {
    assert ("\"" + rest)[1..] == rest;
  }

  lemma QuotedPrefix(a: string, b: string, field: string, tail: string)
    ensures "\"" + (a + b) + tail == "\"" + (a + (b + tail))
    ensures field + ("\"" + a) <= field + ("\"" + (a + b))
  {
    assert field + ("\"" + (a + b)) == field + ("\"" + a) + b;
  }

  lemma SplitQuotes(q: string, field: string, tail: string)
    requires q != "" && q[0] == '"'
    ensures var m := LeadingQuotes(q[1..]);
            && q + tail == "\"" + (Quotes(m) + (q[1..][m..] + tail))
            && field + Quotes(m + 1) <= field + q
  {
    var m := LeadingQuotes(q[1..]);
    assert Quotes(m + 1) == "\"" + Quotes(m);
    assert q == "\"" + q[1..];
    hide Quotes;
    QuotedPrefix(Quotes(m), q[1..][m..], field, tail);
  }

  /** A raw quote in a header is never read back. */
  lemma {:induction false} RawQuoteShows(q: string, tail: string, st: Scanner, header: string)
    requires st.rows == [] && !st.inQuotes && AtBreak(tail)
    requires q != "" && q[0] == '"' && st.field + q == header
    ensures !ReadsHeader(Close(Scan(q + tail, st)), |st.current|, header)
  {
    hide Scan, Quotes;
    var m := LeadingQuotes(q[1..]);
    var rest := q[1..][m..] + tail;
    SplitQuotes(q, st.field, tail);
    ScanOpenQuote(Quotes(m) + rest, st);
    QuotesAreLost(m, rest, st.(inQuotes := true), m + 1, header);
  }

  /** What one step outside quotes does to a separator met inside a header. */
  lemma RawSeparatorShows(q: string, tail: string, st: Scanner, header: string)
    requires st.rows == [] && !st.inQuotes
    requires q != "" && st.field + q == header
    requires Step(q + tail, st).rows != [] || |Step(q + tail, st).current| > |st.current|
    ensures !ReadsHeader(Close(Scan(q + tail, st)), |st.current|, header)
  {
    var text := q + tail;
    var after := Step(text, st);
    var rest := text[Taken(text, st)..];
    assert Scan(text, st) == Scan(rest, after);
    hide Scan;
    assert |st.field| < |header|;
    if after.rows != [] {
      assert after.rows[0][|st.current|] == st.field;
      DifferentRow(rest, after, |st.current|, header);
    } else {
      assert after.current[|st.current|] == st.field;
      DifferentField(rest, after, |st.current|, header);
    }
  }

  lemma {:induction false} BadFieldShows(q: string, tail: string, st: Scanner, header: string)
    requires st.rows == [] && !st.inQuotes && AtBreak(tail)
    requires !Plain(q) && st.field + q == header
    ensures !ReadsHeader(Close(Scan(q + tail, st)), |st.current|, header)
    decreases |q|
  {
    var text := q + tail;
    if q[0] == '"' {
      RawQuoteShows(q, tail, st, header);
    } else if Step(text, st).rows != [] || |Step(text, st).current| > |st.current| {
      RawSeparatorShows(q, tail, st, header);
    } else {
      assert text[0] == q[0] && Step(text, st) == Append(st, q[0]);
      assert text[1..] == q[1..] + tail;
      assert Scan(text, st) == Scan(q[1..] + tail, Append(st, q[0]));
      hide Scan;
      assert st.field + [q[0]] + q[1..] == header;
      BadFieldShows(q[1..], tail, Append(st, q[0]), header);
    }
  }

  predicate AllPlain(headers: seq<string>) {
    forall j | 0 <= j < |headers| :: Plain(headers[j])
  }

  lemma JoinWithStep(parts: seq<string>, separator: char, rest: string)
    requires |parts| > 1
    ensures JoinWith(parts, separator) + rest == parts[0] + ([separator] + (JoinWith(parts[1..], separator) + rest))
  {
  }

  /** A header that holds a comma, a quote or a newline spoils the first row. */
  lemma {:induction false} BadHeaderShows(headers: seq<string>, rest: string, st: Scanner)
    requires st.rows == [] && !st.inQuotes && st.field == ""
    requires !AllPlain(headers) && (rest == "" || rest[0] == '\n')
    ensures var r := Close(Scan(JoinWith(headers, ',') + rest, st));
            r == [] || r[0] != st.current + headers
    decreases |headers|
  {
    var tail := rest;
    if |headers| > 1 {
      JoinWithStep(headers, ',', rest);
      tail := "," + (JoinWith(headers[1..], ',') + rest);
    }
    assert JoinWith(headers, ',') + rest == headers[0] + tail;
    hide Scan, JoinWith;
    if Plain(headers[0]) {
      ScanPlain(headers[0], tail, st);
      assert st.field + headers[0] == headers[0];
      ScanComma(JoinWith(headers[1..], ',') + rest, st.(field := headers[0]));
      BadHeaderShows(headers[1..], rest, st.(current := st.current + [headers[0]]));
      AppendFirst(st.current, headers);
    } else {
      assert st.field + headers[0] == headers[0];
      BadFieldShows(headers[0], tail, st, headers[0]);
      assert (st.current + headers)[|st.current|] == headers[0];
    }
  }

  // ---- The round trip ------------------------------------------------------------

  /** Every row the parser returns has at least one field. */
  lemma {:induction false} ScanRowsNotEmpty(rest: string, st: Scanner)
    requires RowsNotEmpty(st.rows)
    ensures RowsNotEmpty(Close(Scan(rest, st)))
    decreases |rest|
  {
    if rest != "" {
      ScanRowsNotEmpty(rest[Taken(rest, st)..], Step(rest, st));
    }
  }

  lemma PlainHeaderLine(headers: seq<string>)
    requires AllPlain(headers)
    ensures PrintRow(headers) == JoinWith(headers, ',')
  {
    assert seq(|headers|, i requires 0 <= i < |headers| => PrintField(headers[i])) == headers;
  }

  function ExportedTable(headers: seq<string>, data: seq<seq<Option<string>>>): Table {
    [headers] + DataTable(data)
  }

  /** The exported table: the header, and each value as its text, a missing one as the empty text. */
  lemma ExportedCells(headers: seq<string>, data: seq<seq<Option<string>>>, k: nat, i: nat)
    requires k < |data| && i < |data[k]|
    ensures var table := ExportedTable(headers, data);
            && |table| == |data| + 1 && table[0] == headers && |table[k + 1]| == |data[k]|
            && table[k + 1][i] == if data[k][i] == None then "" else data[k][i].value
  {
  }

  lemma PlainHeadersPrintATable(headers: seq<string>, data: seq<seq<Option<string>>>)
    requires AllPlain(headers)
    ensures ExportToCsv(headers, data) == PrintTable(ExportedTable(headers, data))
  {
    PlainHeaderLine(headers);
    var table := ExportedTable(headers, data);
    hide PrintRow;
    assert seq(|table|, k requires 0 <= k < |table| => PrintRow(table[k])) ==
           [JoinWith(headers, ',')] + seq(|data|, k requires 0 <= k < |data| => PrintRow(RowText(data[k])));
  }

  lemma ExportStartsWithHeader(headers: seq<string>, data: seq<seq<Option<string>>>) returns (rest: string)
    ensures ExportToCsv(headers, data) == JoinWith(headers, ',') + rest
    ensures rest == "" || rest[0] == '\n'
  {
    var header := JoinWith(headers, ',');
    var lines := seq(|data|, k requires 0 <= k < |data| => PrintRow(RowText(data[k])));
    hide PrintRow;
    if data == [] {
      rest := "";
      assert [header] + lines == [header];
    } else {
      rest := "\n" + JoinWith(lines, '\n');
      JoinWithStep([header] + lines, '\n', "");
      assert ([header] + lines)[1..] == lines;
    }
  }

  /** When an export survives being read back: decided from the table alone. */
  predicate InExactDomain(headers: seq<string>, data: seq<seq<Option<string>>>)
    requires forall k | 0 <= k < |data| :: |data[k]| == |headers|
  {
    && headers != []
    && AllPlain(headers)
    && KeepsReturns(ExportedTable(headers, data))
    && EndsVisibly(ExportedTable(headers, data))
  }

  /** Reading an export back gives the exported table exactly on this domain. */
  lemma ExportRoundTrip(headers: seq<string>, data: seq<seq<Option<string>>>)
    requires forall k | 0 <= k < |data| :: |data[k]| == |headers|
    ensures Parse(ExportToCsv(headers, data)) == ExportedTable(headers, data) <==> InExactDomain(headers, data)
  {
    var table := ExportedTable(headers, data);
    assert table[0] == headers;
    hide Scan, PrintRow, ExportToCsv, Close, PrintTable;
    if headers == [] {
      ScanRowsNotEmpty(ExportToCsv(headers, data), START);
      assert !RowsNotEmpty(table);
    } else if AllPlain(headers) {
      assert RowsNotEmpty(table);
      PlainHeadersPrintATable(headers, data);
      TableRoundTrip(table);
    } else {
      var rest := ExportStartsWithHeader(headers, data);
      BadHeaderShows(headers, rest, START);
      assert START.current + headers == headers;
    }
  }
}
