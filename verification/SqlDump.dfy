/** The INSERT statements of a table dump (admin/sqlconsole.go), and a reader that takes the text
    of such a dump apart again. */
module SqlDump {
  import opened Decimal
  import opened Seqs
  import opened SqlLiterals

  /** A column of a row as it is written: its value, and whether the column is binary. */
  datatype Cell = Cell(v: SqlValue, binary: bool)

  type Row = seq<Cell>

  predicate WritableRow(row: Row) {
    row != [] && forall i :: 0 <= i < |row| ==> Writable(row[i].v)
  }

  /** A row as it is written: its text, and the cells it was written from. */
  datatype Line = Line(row: Row, text: string)

  predicate IsLine(l: Line) {
    WritableRow(l.row) && l.text == RowText(l.row)
  }

  predicate AreLines(lines: seq<Line>) {
    forall i :: 0 <= i < |lines| ==> IsLine(lines[i])
  }

  /** The rows of one statement, in order. */
  type Batch = seq<Line>

  /** The rows written so far: those of the closed statements, and those of the open one. */
  datatype Batches = Batches(closed: seq<Batch>, open: Batch)

  /** One INSERT statement, as read. */
  datatype Statement = Statement(table: string, cols: seq<string>, rows: seq<seq<Literal>>)

  const LIMIT := 1048576

  lemma Regroup(a: string, b: string, c: string, d: string)
    ensures a + b + c + d == a + (b + (c + d))
  {}

  // ---------------------------------------------------------------- the text

  function CellsText(row: Row): string
    requires WritableRow(row)
  {
    var n := |row| - 1;
    var last := row[n];
    if n == 0 then ValueText(last.v, last.binary)
    else CellsText(row[..n]) + "," + ValueText(last.v, last.binary)
  }

  function RowText(row: Row): string
    requires WritableRow(row)
  {
    "(" + CellsText(row) + ")"
  }

  function RowsText(b: Batch): string
    requires b != []
  {
    var n := |b| - 1;
    if n == 0 then b[n].text else RowsText(b[..n]) + ",\n" + b[n].text
  }

  /** Every backtick doubled. */
  function Doubled(name: string): string {
    if name == "" then "" else (if name[0] == '`' then "``" else [name[0]]) + Doubled(name[1..])
  }

  function QuoteIdent(name: string): string {
    "`" + Doubled(name) + "`"
  }

  function ColumnsText(cols: seq<string>): string
    requires cols != []
  {
    if |cols| == 1 then QuoteIdent(cols[0]) else QuoteIdent(cols[0]) + ", " + ColumnsText(cols[1..])
  }

  function InsertText(table: string, cols: seq<string>): string
    requires cols != []
  {
    "INSERT INTO " + QuoteIdent(table) + " (" + ColumnsText(cols) + ") VALUES\n"
  }

  predicate NoneEmpty(closed: seq<Batch>) {
    forall i :: 0 <= i < |closed| ==> closed[i] != []
  }

  function StatementsText(insert: string, closed: seq<Batch>): string
    requires NoneEmpty(closed)
  {
    if closed == [] then ""
    else
      var n := |closed| - 1;
      StatementsText(insert, closed[..n]) + (insert + (RowsText(closed[n]) + ";\n"))
  }

  // ---------------------------------------------------------------- batching

  function Size(b: Batch): nat {
    if b == [] then 0 else Size(b[..|b| - 1]) + |b[|b| - 1].text|
  }

  function Concat(closed: seq<Batch>): seq<Line> {
    if closed == [] then [] else Concat(closed[..|closed| - 1]) + closed[|closed| - 1]
  }

  /** One more row: the open statement is closed once its rows reach the limit. */
  function Add(s: Batches, l: Line): (s': Batches)
    requires NoneEmpty(s.closed)
    ensures NoneEmpty(s'.closed)
  {
    var open := s.open + [l];
    if Size(open) >= LIMIT then Batches(s.closed + [open], []) else Batches(s.closed, open)
  }

  /** Which statement each row goes to. */
  function Split(lines: seq<Line>): (s: Batches)
    ensures NoneEmpty(s.closed)
  {
    if lines == [] then Batches([], []) else Add(Split(lines[..|lines| - 1]), lines[|lines| - 1])
  }

  /** The statements of the whole table: the last one is closed early if rows are left in it. */
  function AllBatches(lines: seq<Line>): (closed: seq<Batch>)
    ensures NoneEmpty(closed)
  {
    var s := Split(lines);
    if s.open == [] then s.closed else s.closed + [s.open]
  }

  /** The INSERT text of a table. */
  function TableText(table: string, cols: seq<string>, lines: seq<Line>): string
    requires cols != []
  {
    StatementsText(InsertText(table, cols), AllBatches(lines))
  }

  function Held(s: Batches): seq<Line> {
    Concat(s.closed) + s.open
  }

  lemma AddHolds(s: Batches, l: Line)
    requires NoneEmpty(s.closed)
    ensures Held(Add(s, l)) == Held(s) + [l]
  {
    var open := s.open + [l];
    Assoc(Concat(s.closed), s.open, [l]);
    SplitLast(s.closed, open);
    NoneBefore(Concat(s.closed) + open);
  }

  lemma {:induction false} SplitLosesNothing(lines: seq<Line>)
    ensures Held(Split(lines)) == lines
  {
    if lines != [] {
      var n := |lines| - 1;
      SplitLosesNothing(lines[..n]);
      AddHolds(Split(lines[..n]), lines[n]);
      assert lines[..n] + [lines[n]] == lines;
    }
  }

  /** Every row goes into exactly one statement, in order. */
  lemma BatchesHoldAllRows(lines: seq<Line>)
    ensures Concat(AllBatches(lines)) == lines
  {
    SplitLosesNothing(lines);
    var s := Split(lines);
    SplitLast(s.closed, s.open);
    NoneBefore(Concat(s.closed));
  }

  /** The rows before a statement's last one stay under the limit. */
  predicate UnderLimitButLast(b: Batch) {
    b != [] && Size(b[..|b| - 1]) < LIMIT
  }

  predicate Full(b: Batch) {
    UnderLimitButLast(b) && Size(b) >= LIMIT
  }

  predicate AllFull(closed: seq<Batch>) {
    forall i :: 0 <= i < |closed| ==> Full(closed[i])
  }

  lemma AddKeepsBounds(s: Batches, l: Line)
    requires NoneEmpty(s.closed) && Size(s.open) < LIMIT && AllFull(s.closed)
    ensures Size(Add(s, l).open) < LIMIT && AllFull(Add(s, l).closed)
  {
    SplitLast(s.open, l);
  }

  lemma {:induction false} SplitIsBounded(lines: seq<Line>)
    ensures Size(Split(lines).open) < LIMIT && AllFull(Split(lines).closed)
  {
    if lines != [] {
      var n := |lines| - 1;
      SplitIsBounded(lines[..n]);
      AddKeepsBounds(Split(lines[..n]), lines[n]);
    }
  }

  /** A statement's row bytes stay under the limit plus one row, and only the last statement may
      be closed before its rows reach the limit. */
  lemma BatchesAreBounded(lines: seq<Line>, i: nat)
    requires i < |AllBatches(lines)|
    ensures UnderLimitButLast(AllBatches(lines)[i])
    ensures i + 1 < |AllBatches(lines)| ==> Full(AllBatches(lines)[i])
    ensures var b := AllBatches(lines)[i];
            b != [] && Size(b[..|b| - 1]) < 1_048_576 && (i + 1 < |AllBatches(lines)| ==> Size(b) >= 1_048_576)
  {
    SplitIsBounded(lines);
    var s := Split(lines);
    if i < |s.closed| {
      assert AllBatches(lines)[i] == s.closed[i];
    } else {
      assert AllBatches(lines)[i] == s.open != [];
      assert Size(s.open) >= Size(s.open[..|s.open| - 1]);
    }
  }

  // ---------------------------------------------------------------- the reader

  function Expect(s: string, p: string): (r: Option<string>)
    ensures r.Some? ==> |r.value| == |s| - |p|
  {
    if p <= s then Some(s[|p|..]) else None
  }

  /** Reads literals up to the closing parenthesis. */
  function ReadCells(s: string, acc: seq<Literal>): (r: Option<(seq<Literal>, string)>)
    ensures r.Some? ==> |r.value.1| < |s|
    decreases |s|
  {
    var l := ReadLiteral(s);
    if l == None || l.value.1 == "" then None
    else
      var (v, rest) := l.value;
      if rest[0] == ',' then ReadCells(rest[1..], acc + [v])
      else if rest[0] == ')' then Some((acc + [v], rest[1..]))
      else None
  }

  /** Reads rows up to the end of the statement. */
  function ReadRows(s: string, acc: seq<seq<Literal>>): (r: Option<(seq<seq<Literal>>, string)>)
    ensures r.Some? ==> |r.value.1| < |s|
    decreases |s|
  {
    if s == "" || s[0] != '(' then None
    else
      var c := ReadCells(s[1..], []);
      if c == None then None
      else
        var (row, rest) := c.value;
        if ",\n" <= rest then ReadRows(rest[2..], acc + [row])
        else if ";\n" <= rest then Some((acc + [row], rest[2..]))
        else None
  }

  /** Reads on within a quoted identifier of which `acc` has been read. */
  function ReadIdent(s: string, acc: string): (r: Option<(string, string)>)
    ensures r.Some? ==> |r.value.1| < |s|
  {
    if s == "" then None
    else if s[0] != '`' then ReadIdent(s[1..], acc + [s[0]])
    else if |s| > 1 && s[1] == '`' then ReadIdent(s[2..], acc + "`")
    else Some((acc, s[1..]))
  }

  /** Reads quoted column names up to the closing parenthesis. */
  function ReadColumns(s: string, acc: seq<string>): (r: Option<(seq<string>, string)>)
    ensures r.Some? ==> |r.value.1| < |s|
    decreases |s|
  {
    if s == "" || s[0] != '`' then None
    else
      var q := ReadIdent(s[1..], "");
      if q == None then None
      else
        var (name, rest) := q.value;
        if ", " <= rest then ReadColumns(rest[2..], acc + [name])
        else if ")" <= rest then Some((acc + [name], rest[1..]))
        else None
  }

  /** Reads the head of an INSERT statement, up to its rows. */
  function ReadInsert(s: string): (r: Option<(string, seq<string>, string)>)
    ensures r.Some? ==> |r.value.2| < |s|
  {
    var a := Expect(s, "INSERT INTO `");
    if a == None then None
    else
      var t := ReadIdent(a.value, "");
      if t == None then None
      else
        var b := Expect(t.value.1, " (");
        if b == None then None
        else
          var c := ReadColumns(b.value, []);
          if c == None then None
          else
            var d := Expect(c.value.1, " VALUES\n");
            if d == None then None else Some((t.value.0, c.value.0, d.value))
  }

  function ReadStatements(s: string, acc: seq<Statement>): Option<seq<Statement>>
    decreases |s|
  {
    if s == "" then Some(acc)
    else
      var head := ReadInsert(s);
      if head == None then None
      else
        var (table, cols, rest) := head.value;
        var rows := ReadRows(rest, []);
        if rows == None then None
        else ReadStatements(rows.value.1, acc + [Statement(table, cols, rows.value.0)])
  }

  // ---------------------------------------------------------------- reading what was written

  function Literals(row: Row): seq<Literal> {
    if row == [] then [] else Literals(row[..|row| - 1]) + [LiteralOf(row[|row| - 1].v, row[|row| - 1].binary)]
  }

  function AllLiterals(lines: seq<Line>): seq<seq<Literal>> {
    if lines == [] then [] else AllLiterals(lines[..|lines| - 1]) + [Literals(lines[|lines| - 1].row)]
  }

  lemma CellReadsOn(cell: Cell, rest: string, acc: seq<Literal>)
    requires Writable(cell.v)
    ensures var t := ValueText(cell.v, cell.binary); var l := LiteralOf(cell.v, cell.binary);
            && ReadCells(t + ("," + rest), acc) == ReadCells(rest, acc + [l])
            && ReadCells(t + (")" + rest), acc) == Some((acc + [l], rest))
  {
    ValueReadsBack(cell.v, cell.binary, "," + rest);
    ValueReadsBack(cell.v, cell.binary, ")" + rest);
    assert ("," + rest)[1..] == rest == (")" + rest)[1..];
  }

  /** The text and the literals of a row of more than one cell. */
  lemma LastCell(row: Row)
    requires WritableRow(row) && |row| > 1
    ensures var n := |row| - 1; var before, cell := row[..n], row[n];
            && WritableRow(before)
            && CellsText(row) == CellsText(before) + "," + ValueText(cell.v, cell.binary)
            && Literals(row) == Literals(before) + [LiteralOf(cell.v, cell.binary)]
  {}

  lemma OneCell(row: Row)
    requires WritableRow(row) && |row| == 1
    ensures CellsText(row) == ValueText(row[0].v, row[0].binary)
    ensures Literals(row) == [LiteralOf(row[0].v, row[0].binary)]
  {
    NoneBefore([LiteralOf(row[0].v, row[0].binary)]);
  }

  lemma {:induction false} CellsReadOn(row: Row, s: string, acc: seq<Literal>)
    requires WritableRow(row)
    ensures ReadCells(CellsText(row) + ("," + s), acc) == ReadCells(s, acc + Literals(row))
  {
    var n := |row| - 1;
    var before, cell := row[..n], row[n];
    if n == 0 {
      OneCell(row);
      CellReadsOn(cell, s, acc);
    } else {
      LastCell(row);
      CellReadsOn(cell, s, acc + Literals(before));
      Assoc(acc, Literals(before), [LiteralOf(cell.v, cell.binary)]);
      var last := ValueText(cell.v, cell.binary);
      CellsReadOn(before, last + ("," + s), acc);
      Regroup(CellsText(before), ",", last, "," + s);
    }
  }

  lemma RowReadsBack(row: Row, rest: string)
    requires WritableRow(row)
    ensures ReadCells(CellsText(row) + (")" + rest), []) == Some((Literals(row), rest))
  {
    var n := |row| - 1;
    var before, cell := row[..n], row[n];
    CellReadsOn(cell, rest, Literals(before));
    if n > 0 {
      var last := ValueText(cell.v, cell.binary);
      CellsReadOn(before, last + (")" + rest), []);
      NoneBefore(Literals(before));
      Regroup(CellsText(before), ",", last, ")" + rest);
    }
  }

  /** A row followed by the two characters `mark`. */
  lemma RowReads(row: Row, mark: string, rest: string)
    requires WritableRow(row) && |mark| == 2
    ensures var s := RowText(row) + (mark + rest);
            s[0] == '(' && ReadCells(s[1..], []) == Some((Literals(row), mark + rest))
  {
    var s := RowText(row) + (mark + rest);
    RowReadsBack(row, mark + rest);
    Regroup("(", CellsText(row), ")", mark + rest);
    assert s[1..] == CellsText(row) + (")" + (mark + rest));
  }

  lemma LineReadsOn(l: Line, rest: string, acc: seq<seq<Literal>>)
    requires IsLine(l)
    ensures ReadRows(l.text + (",\n" + rest), acc) == ReadRows(rest, acc + [Literals(l.row)])
  {
    RowReads(l.row, ",\n", rest);
    assert (",\n" + rest)[2..] == rest;
  }

  lemma LastLineReads(l: Line, rest: string, acc: seq<seq<Literal>>)
    requires IsLine(l)
    ensures ReadRows(l.text + (";\n" + rest), acc) == Some((acc + [Literals(l.row)], rest))
  {
    RowReads(l.row, ";\n", rest);
    assert (";\n" + rest)[0] == ';' && (";\n" + rest)[2..] == rest;
  }

  lemma {:induction false} RowsReadOn(b: Batch, s: string, acc: seq<seq<Literal>>)
    requires b != [] && AreLines(b)
    ensures ReadRows(RowsText(b) + (",\n" + s), acc) == ReadRows(s, acc + AllLiterals(b))
  {
    var n := |b| - 1;
    var before := b[..n];
    LineReadsOn(b[n], s, acc + AllLiterals(before));
    Assoc(acc, AllLiterals(before), [Literals(b[n].row)]);
    if n == 0 {
      NoneBefore(acc);
    } else {
      RowsReadOn(before, b[n].text + (",\n" + s), acc);
      Regroup(RowsText(before), ",\n", b[n].text, ",\n" + s);
    }
  }

  lemma RowsReadBack(b: Batch, rest: string)
    requires b != [] && AreLines(b)
    ensures ReadRows(RowsText(b) + (";\n" + rest), []) == Some((AllLiterals(b), rest))
  {
    var n := |b| - 1;
    var before := b[..n];
    LastLineReads(b[n], rest, AllLiterals(before));
    if n > 0 {
      RowsReadOn(before, b[n].text + (";\n" + rest), []);
      NoneBefore(AllLiterals(before));
      Regroup(RowsText(before), ",\n", b[n].text, ";\n" + rest);
    }
  }

  /** A quoted identifier reads back as the name, backticks included. */
  lemma {:induction false} IdentReadsBack(name: string, rest: string, acc: string)
    requires rest == "" || rest[0] != '`'
    ensures ReadIdent(Doubled(name) + "`" + rest, acc) == Some((acc + name, rest))
  {
    var s := Doubled(name) + "`" + rest;
    if name == "" {
      assert s == "`" + rest && s[1..] == rest;
      assert |s| > 1 ==> s[1] == rest[0];
      assert acc + name == acc;
    } else {
      var tail := Doubled(name[1..]) + "`" + rest;
      IdentReadsBack(name[1..], rest, acc + [name[0]]);
      assert acc + [name[0]] + name[1..] == acc + name;
      if name[0] == '`' {
        assert s == "``" + tail && s[2..] == tail;
      } else {
        assert s == [name[0]] + tail && s[1..] == tail;
      }
    }
  }

  lemma {:induction false} ColumnsReadBack(cols: seq<string>, rest: string, acc: seq<string>)
    requires cols != []
    ensures ReadColumns(ColumnsText(cols) + ")" + rest, acc) == Some((acc + cols, rest))
  {
    var s := ColumnsText(cols) + ")" + rest;
    if |cols| == 1 {
      IdentReadsBack(cols[0], ")" + rest, "");
      assert s[1..] == Doubled(cols[0]) + "`" + (")" + rest);
      assert (")" + rest)[1..] == rest;
      assert "" + cols[0] == cols[0] && [cols[0]] == cols;
    } else {
      var tail := ColumnsText(cols[1..]) + ")" + rest;
      IdentReadsBack(cols[0], ", " + tail, "");
      assert s[1..] == Doubled(cols[0]) + "`" + (", " + tail);
      assert (", " + tail)[2..] == tail;
      assert "" + cols[0] == cols[0];
      ColumnsReadBack(cols[1..], rest, acc + [cols[0]]);
      assert acc + [cols[0]] + cols[1..] == acc + cols;
    }
  }

  lemma InsertReadsBack(table: string, cols: seq<string>, rest: string)
    requires cols != []
    ensures ReadInsert(InsertText(table, cols) + rest) == Some((table, cols, rest))
  {
    var s := InsertText(table, cols) + rest;
    var d := " VALUES\n" + rest;
    var c := ColumnsText(cols) + ")" + d;
    var b := " (" + c;
    var a := Doubled(table) + "`" + b;
    assert s == "INSERT INTO `" + a;
    assert Expect(s, "INSERT INTO `") == Some(a);
    IdentReadsBack(table, b, "");
    assert "" + table == table;
    assert Expect(b, " (") == Some(c);
    ColumnsReadBack(cols, d, []);
    assert [] + cols == cols;
    assert Expect(d, " VALUES\n") == Some(rest);
  }

  predicate AreAllLines(closed: seq<Batch>) {
    forall i :: 0 <= i < |closed| ==> AreLines(closed[i])
  }

  function StatementsOf(table: string, cols: seq<string>, closed: seq<Batch>): seq<Statement> {
    if closed == [] then []
    else
      var n := |closed| - 1;
      StatementsOf(table, cols, closed[..n]) + [Statement(table, cols, AllLiterals(closed[n]))]
  }

  lemma RegroupStatement(a: string, insert: string, rows: string, s: string)
    ensures a + (insert + (rows + ";\n")) + s == a + (insert + (rows + (";\n" + s)))
  {}

  lemma StatementReads(table: string, cols: seq<string>, b: Batch, s: string, acc: seq<Statement>)
    requires cols != [] && b != [] && AreLines(b)
    ensures ReadStatements(InsertText(table, cols) + (RowsText(b) + (";\n" + s)), acc)
         == ReadStatements(s, acc + [Statement(table, cols, AllLiterals(b))])
  {
    InsertReadsBack(table, cols, RowsText(b) + (";\n" + s));
    RowsReadBack(b, s);
  }

  lemma {:induction false} StatementsReadOn(table: string, cols: seq<string>, closed: seq<Batch>, s: string)
    requires cols != [] && NoneEmpty(closed) && AreAllLines(closed)
    ensures ReadStatements(StatementsText(InsertText(table, cols), closed) + s, [])
         == ReadStatements(s, StatementsOf(table, cols, closed))
  {
    var insert := InsertText(table, cols);
    if closed == [] {
      assert StatementsText(insert, closed) + s == s;
    } else {
      var n := |closed| - 1;
      var rest := RowsText(closed[n]) + (";\n" + s);
      StatementsReadOn(table, cols, closed[..n], insert + rest);
      RegroupStatement(StatementsText(insert, closed[..n]), insert, RowsText(closed[n]), s);
      StatementReads(table, cols, closed[n], s, StatementsOf(table, cols, closed[..n]));
    }
  }

  lemma {:induction false} LinesOfBatches(closed: seq<Batch>)
    requires AreLines(Concat(closed))
    ensures AreAllLines(closed)
  {
    if closed != [] {
      var n := |closed| - 1;
      var before, last := Concat(closed[..n]), closed[n];
      forall i | 0 <= i < |before| ensures IsLine(before[i]) {
        assert Concat(closed)[i] == before[i];
      }
      forall i | 0 <= i < |last| ensures IsLine(last[i]) {
        assert Concat(closed)[|before| + i] == last[i];
      }
      LinesOfBatches(closed[..n]);
      forall i | 0 <= i < |closed| ensures AreLines(closed[i]) {
        if i < n { assert closed[..n][i] == closed[i]; }
      }
    }
  }

  /** The dump of a table, read as MySQL reads it, is one INSERT into that table and those columns
      per batch, holding the batch's rows. */
  lemma DumpReadsBack(table: string, cols: seq<string>, lines: seq<Line>)
    requires cols != [] && AreLines(lines)
    ensures ReadStatements(TableText(table, cols, lines), [])
         == Some(StatementsOf(table, cols, AllBatches(lines)))
  {
    BatchesHoldAllRows(lines);
    LinesOfBatches(AllBatches(lines));
    StatementsReadOn(table, cols, AllBatches(lines), "");
    NoneBefore(TableText(table, cols, lines));
  }

  /** The rows of all statements, one after the other. */
  function RowsOf(statements: seq<Statement>): seq<seq<Literal>> {
    if statements == [] then []
    else RowsOf(statements[..|statements| - 1]) + statements[|statements| - 1].rows
  }

  lemma {:induction false} AllLiteralsAppend(a: seq<Line>, b: seq<Line>)
    ensures AllLiterals(a + b) == AllLiterals(a) + AllLiterals(b)
  {
    if b == [] {
      NoneBefore(a);
      NoneBefore(AllLiterals(a));
    } else {
      var n := |b| - 1;
      AllLiteralsAppend(a, b[..n]);
      assert (a + b)[..|a + b| - 1] == a + b[..n];
      Assoc(AllLiterals(a), AllLiterals(b[..n]), [Literals(b[n].row)]);
    }
  }

  lemma {:induction false} RowsOfStatements(table: string, cols: seq<string>, closed: seq<Batch>)
    ensures RowsOf(StatementsOf(table, cols, closed)) == AllLiterals(Concat(closed))
  {
    if closed != [] {
      var n := |closed| - 1;
      RowsOfStatements(table, cols, closed[..n]);
      AllLiteralsAppend(Concat(closed[..n]), closed[n]);
      SplitLast(StatementsOf(table, cols, closed[..n]), Statement(table, cols, AllLiterals(closed[n])));
    }
  }

  /** All rows come back, once each and in order. */
  lemma DumpKeepsEveryRow(table: string, cols: seq<string>, lines: seq<Line>)
    requires cols != [] && AreLines(lines)
    ensures ReadStatements(TableText(table, cols, lines), []).Some?
    ensures RowsOf(ReadStatements(TableText(table, cols, lines), []).value) == AllLiterals(lines)
  {
    DumpReadsBack(table, cols, lines);
    BatchesHoldAllRows(lines);
    RowsOfStatements(table, cols, AllBatches(lines));
  }

  // ---------------------------------------------------------------- the writer

  /** Binary values are left out unless blobs are wanted. */
  function CellOf(v: SqlValue, binary: bool, blobs: bool): Cell {
    Cell(if binary && !blobs then Null else v, binary)
  }

  function RowOf(vals: seq<SqlValue>, binary: seq<bool>, blobs: bool): (row: Row)
    requires |vals| == |binary|
    ensures |row| == |vals| && forall i :: 0 <= i < |row| ==> row[i] == CellOf(vals[i], binary[i], blobs)
  {
    if vals == [] then []
    else
      var n := |vals| - 1;
      RowOf(vals[..n], binary[..n], blobs) + [CellOf(vals[n], binary[n], blobs)]
  }

  /** A row as scanned: a value for each column. */
  predicate Scanned(vals: seq<SqlValue>, cols: nat) {
    |vals| == cols && forall i :: 0 <= i < |vals| ==> Writable(vals[i])
  }

  predicate AllScanned(rows: seq<seq<SqlValue>>, cols: nat) {
    forall i :: 0 <= i < |rows| ==> Scanned(rows[i], cols)
  }

  function LineOf(vals: seq<SqlValue>, binary: seq<bool>, blobs: bool): (l: Line)
    requires binary != [] && Scanned(vals, |binary|)
    ensures IsLine(l)
  {
    var row := RowOf(vals, binary, blobs);
    Line(row, RowText(row))
  }

  /** The lines of a table. */
  function LinesOf(rows: seq<seq<SqlValue>>, binary: seq<bool>, blobs: bool): (lines: seq<Line>)
    requires binary != [] && AllScanned(rows, |binary|)
    ensures |lines| == |rows| && AreLines(lines)
  {
    if rows == [] then []
    else
      var n := |rows| - 1;
      assert Scanned(rows[n], |binary|);
      LinesOf(rows[..n], binary, blobs) + [LineOf(rows[n], binary, blobs)]
  }

  lemma {:induction false} LineAt(rows: seq<seq<SqlValue>>, binary: seq<bool>, blobs: bool, i: nat)
    requires binary != [] && AllScanned(rows, |binary|) && i < |rows|
    ensures Scanned(rows[i], |binary|) && LinesOf(rows, binary, blobs)[i] == LineOf(rows[i], binary, blobs)
  {
    assert Scanned(rows[i], |binary|);
    if i < |rows| - 1 {
      LineAt(rows[..|rows| - 1], binary, blobs, i);
    }
  }

  /** What a scanned row reads back as: the literal of each value, NULL for a binary value that is
      left out. */
  predicate RowIs(row: seq<Literal>, vals: seq<SqlValue>, binary: seq<bool>, blobs: bool)
    requires |vals| == |binary|
  {
    && |row| == |vals|
    && forall j :: 0 <= j < |row| ==>
         row[j] == if binary[j] && !blobs then LNull else LiteralOf(vals[j], binary[j])
  }

  lemma {:induction false} LiteralsAt(row: Row)
    ensures |Literals(row)| == |row|
    ensures forall j :: 0 <= j < |row| ==> Literals(row)[j] == LiteralOf(row[j].v, row[j].binary)
  {
    if row != [] { LiteralsAt(row[..|row| - 1]); }
  }

  predicate RowsAre(lits: seq<seq<Literal>>, rows: seq<seq<SqlValue>>, binary: seq<bool>, blobs: bool)
    requires AllScanned(rows, |binary|)
  {
    && |lits| == |rows|
    && forall i :: 0 <= i < |rows| ==> Scanned(rows[i], |binary|) && RowIs(lits[i], rows[i], binary, blobs)
  }

  lemma {:induction false} AllLiteralsAt(lines: seq<Line>)
    ensures |AllLiterals(lines)| == |lines|
    ensures forall i :: 0 <= i < |lines| ==> AllLiterals(lines)[i] == Literals(lines[i].row)
  {
    if lines != [] { AllLiteralsAt(lines[..|lines| - 1]); }
  }

  lemma LiteralsOfLine(vals: seq<SqlValue>, binary: seq<bool>, blobs: bool)
    requires binary != [] && Scanned(vals, |binary|)
    ensures RowIs(Literals(LineOf(vals, binary, blobs).row), vals, binary, blobs)
  {
    LiteralsAt(RowOf(vals, binary, blobs));
  }

  lemma LiteralsOfTable(rows: seq<seq<SqlValue>>, binary: seq<bool>, blobs: bool)
    requires binary != [] && AllScanned(rows, |binary|)
    ensures RowsAre(AllLiterals(LinesOf(rows, binary, blobs)), rows, binary, blobs)
  {
    var lines := LinesOf(rows, binary, blobs);
    AllLiteralsAt(lines);
    forall i | 0 <= i < |rows|
      ensures Scanned(rows[i], |binary|) && RowIs(AllLiterals(lines)[i], rows[i], binary, blobs)
    {
      LineAt(rows, binary, blobs, i);
      LiteralsOfLine(rows[i], binary, blobs);
    }
  }

  /** The dump of a table, read as MySQL reads it, gives back every row of the table, once each and
      in order, and every value of it. */
  lemma TableReadsBack(table: string, cols: seq<string>, rows: seq<seq<SqlValue>>, binary: seq<bool>, blobs: bool)
    returns (statements: seq<Statement>)
    requires binary != [] && |cols| == |binary| && AllScanned(rows, |binary|)
    ensures ReadStatements(TableText(table, cols, LinesOf(rows, binary, blobs)), []) == Some(statements)
    ensures forall k :: 0 <= k < |statements| ==> statements[k].table == table && statements[k].cols == cols
    ensures RowsAre(RowsOf(statements), rows, binary, blobs)
  {
    var lines := LinesOf(rows, binary, blobs);
    statements := StatementsOf(table, cols, AllBatches(lines));
    DumpReadsBack(table, cols, lines);
    DumpKeepsEveryRow(table, cols, lines);
    LiteralsOfTable(rows, binary, blobs);
    StatementsAre(table, cols, AllBatches(lines));
  }

  lemma {:induction false} StatementsAre(table: string, cols: seq<string>, closed: seq<Batch>)
    ensures var st := StatementsOf(table, cols, closed);
            |st| == |closed| && forall k :: 0 <= k < |st| ==> st[k].table == table && st[k].cols == cols
  {
    if closed != [] { StatementsAre(table, cols, closed[..|closed| - 1]); }
  }

  /** The text of the first `i` cells. */
  function CellsUpTo(row: Row, i: nat): string
    requires WritableRow(row) && i <= |row|
  {
    if i == 0 then "" else CellsText(row[..i])
  }

  lemma CellsUpToMore(row: Row, i: nat)
    requires WritableRow(row) && i < |row|
    ensures CellsUpTo(row, i + 1)
         == (if i > 0 then CellsUpTo(row, i) + "," else CellsUpTo(row, i)) + ValueText(row[i].v, row[i].binary)
  {
    TakeMore(row, i);
    SplitLast(row[..i], row[i]);
    NoneBefore(ValueText(row[i].v, row[i].binary));
  }

  /** Writes one row into the row buffer. */
  method WriteRow(sb: Builder, vals: seq<SqlValue>, binary: seq<bool>, blobs: bool)
    requires binary != [] && Scanned(vals, |binary|)
    modifies sb
    ensures IsLine(Line(RowOf(vals, binary, blobs), sb.text))
  {
    ghost var row := RowOf(vals, binary, blobs);
    ghost var cells := CellsUpTo(row, 0);
    sb.Reset();
    sb.Write("(");
    var i := 0;
    while i < |vals|
      invariant 0 <= i <= |vals| && sb.text == "(" + cells && cells == CellsUpTo(row, i)
    {
      CellsUpToMore(row, i);
      cells := WriteCell(sb, i > 0, vals[i], binary[i], blobs, cells);
      i := i + 1;
    }
    assert row[..i] == row;
    sb.Write(")");
  }

  /** Writes one value, after a comma unless it is the first. */
  method WriteCell(sb: Builder, comma: bool, val: SqlValue, binary: bool, blobs: bool, ghost cells: string)
    returns (ghost cells': string)
    requires Writable(val) && sb.text == "(" + cells
    modifies sb
    ensures cells' == (if comma then cells + "," else cells) + ValueText(CellOf(val, binary, blobs).v, binary)
    ensures sb.text == "(" + cells'
  {
    if comma {
      sb.Write(",");
    }
    var v := val;
    if binary && !blobs {
      v := Null;
    }
    WriteSqlValue(sb, v, binary);
    cells' := (if comma then cells + "," else cells) + ValueText(v, binary);
    Assoc("(", cells, ",");
    Assoc("(", if comma then cells + "," else cells, ValueText(v, binary));
  }

  /** The text of the statements so far, the last one open. */
  function SoFar(insert: string, s: Batches): string
    requires NoneEmpty(s.closed)
  {
    StatementsText(insert, s.closed) + (if s.open == [] then "" else insert + RowsText(s.open))
  }

  /** What is written for one more row. */
  function Addition(insert: string, s: Batches, l: Line): string {
    (if s.open == [] then insert else ",\n") + (l.text + (if Size(s.open + [l]) >= LIMIT then ";\n" else ""))
  }

  lemma AdditionAdds(insert: string, s: Batches, l: Line)
    requires NoneEmpty(s.closed)
    ensures SoFar(insert, Add(s, l)) == SoFar(insert, s) + Addition(insert, s, l)
  {
    var closed, end := StatementsText(insert, s.closed), if Size(s.open + [l]) >= LIMIT then ";\n" else "";
    SplitLast(s.open, l);
    SplitLast(s.closed, s.open + [l]);
    if s.open == [] {
      NoneBefore(closed);
      NoneBefore(l.text);
    } else {
      NoneBefore(RowsText(s.open + [l]));
      JoinRow(closed, insert, RowsText(s.open), ",\n", l.text, end);
    }
    NoneBefore(closed + (insert + (RowsText(s.open + [l]) + ";\n")));
  }

  lemma JoinRow(closed: string, insert: string, rows: string, comma: string, line: string, end: string)
    ensures closed + (insert + rows) + (comma + (line + end)) == closed + (insert + (rows + comma + line + end))
  {
    Assoc(closed, insert + rows, comma + (line + end));
    Assoc(insert, rows, comma + (line + end));
    Regroup(rows, comma, line, end);
  }

  /** Appends a row, opening a statement for it if none is open, and closing it at the limit. */
  method AppendRow(w: Builder, insert: string, line: string, batch: nat, ghost s: Batches, ghost l: Line)
    returns (batch': nat)
    requires l.text == line != "" && batch == Size(s.open) && (batch == 0 <==> s.open == [])
    modifies w
    ensures w.text == old(w.text) + Addition(insert, s, l)
    ensures batch' == if Size(s.open + [l]) >= LIMIT then 0 else Size(s.open + [l])
  {
    SplitLast(s.open, l);
    if batch == 0 { w.Write(insert); } else { w.Write(",\n"); }
    w.Write(line);
    batch' := batch + |line|;
    if batch' >= LIMIT {
      w.Write(";\n");
      batch' := 0;
    }
    ghost var start := if s.open == [] then insert else ",\n";
    Regroup(old(w.text), start, line, if batch' == 0 then ";\n" else "");
    NoneBefore(old(w.text) + start + line);
  }

  /** How the dump stands after `lines` have been written. */
  predicate Written(text: string, batch: nat, start: string, insert: string, lines: seq<Line>) {
    var s := Split(lines);
    && text == start + SoFar(insert, s)
    && batch == Size(s.open) && (batch == 0 <==> s.open == [])
  }

  /** Writes one row of the table. */
  method DumpRow(w: Builder, sb: Builder, insert: string, vals: seq<SqlValue>, binary: seq<bool>, blobs: bool,
                 batch: nat, ghost start: string, ghost lines: seq<Line>)
    returns (batch': nat)
    requires w != sb && binary != [] && Scanned(vals, |binary|)
    requires Written(w.text, batch, start, insert, lines)
    modifies w, sb
    ensures Written(w.text, batch', start, insert, lines + [LineOf(vals, binary, blobs)])
  {
    ghost var l, s := LineOf(vals, binary, blobs), Split(lines);
    WriteRow(sb, vals, binary, blobs);
    batch' := AppendRow(w, insert, sb.text, batch, s, l);
    AdditionAdds(insert, s, l);
    Assoc(start, SoFar(insert, s), Addition(insert, s, l));
    SplitLast(lines, l);
    SplitLast(s.open, l);
  }

  lemma CloseText(start: string, s: Batches, insert: string)
    requires NoneEmpty(s.closed) && s.open != []
    ensures start + SoFar(insert, s) + ";\n" == start + StatementsText(insert, s.closed + [s.open])
  {
    SplitLast(s.closed, s.open);
    var closed, rows := StatementsText(insert, s.closed), RowsText(s.open);
    Assoc(start + closed, insert + rows, ";\n");
    Assoc(start, closed, insert + rows);
    Assoc(insert, rows, ";\n");
    Assoc(start, closed, insert + (rows + ";\n"));
  }

  lemma NothingWritten(start: string, insert: string)
    ensures Written(start, 0, start, insert, [])
  {
    NoneBefore(start);
  }

  /** Writes the rows of a table as INSERT statements. */
  method DumpTable(w: Builder, table: string, cols: seq<string>, binary: seq<bool>,
                   rows: seq<seq<SqlValue>>, blobs: bool)
    requires binary != [] && |cols| == |binary| && AllScanned(rows, |binary|)
    modifies w
    ensures w.text == old(w.text) + TableText(table, cols, LinesOf(rows, binary, blobs))
  {
    var insert := InsertText(table, cols);
    ghost var start, lines := w.text, LinesOf(rows, binary, blobs);
    var batch := DumpRows(w, insert, binary, rows, blobs);
    CloseDump(w, batch, start, insert, lines);
  }

  method DumpRows(w: Builder, insert: string, binary: seq<bool>, rows: seq<seq<SqlValue>>, blobs: bool)
    returns (batch: nat)
    requires binary != [] && AllScanned(rows, |binary|)
    modifies w
    ensures Written(w.text, batch, old(w.text), insert, LinesOf(rows, binary, blobs))
  {
    var sb := new Builder();
    batch := 0;
    ghost var start, lines, done := w.text, LinesOf(rows, binary, blobs), [];
    NothingWritten(start, insert);
    var i := 0;
    while i < |rows|
      invariant 0 <= i <= |rows| && fresh(sb) && w != sb
      invariant done == lines[..i] && Written(w.text, batch, start, insert, done)
    {
      TakeMore(lines, i);
      LineAt(rows, binary, blobs, i);
      batch := DumpRow(w, sb, insert, rows[i], binary, blobs, batch, start, done);
      done := done + [lines[i]];
      i := i + 1;
    }
    SplitAt(lines, i);
    NoneBefore(done);
  }

  /** Closes the last statement, if one is open. */
  method CloseDump(w: Builder, batch: nat, ghost start: string, ghost insert: string, ghost lines: seq<Line>)
    requires Written(w.text, batch, start, insert, lines)
    modifies w
    ensures w.text == start + StatementsText(insert, AllBatches(lines))
  {
    ghost var s := Split(lines);
    if batch > 0 {
      CloseText(start, s, insert);
      w.Write(";\n");
    } else {
      NoneBefore(StatementsText(insert, s.closed));
    }
  }
}
