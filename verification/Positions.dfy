/** Positions and their language-server form in three encodings (`extensions/code-intel/service.ts`). */
module Positions {
  import opened Wrappers

  /** A code point of a JavaScript string; a lone surrogate is one too. */
  type CodePoint = c: int | 0 <= c <= 0x10FFFF

  type Row = seq<CodePoint>

  datatype Encoding = Utf8 | Utf16 | Utf32

  datatype Position = Position(line: int, column: int)

  datatype LspPosition = LspPosition(line: int, character: int)

  datatype Result<T> = Ok(value: T) | InvalidPosition | ProtocolError

  function Width(c: CodePoint, encoding: Encoding): (w: nat)
    ensures 1 <= w <= 4
  {
    match encoding
    case Utf8 => if c < 0x80 then 1 else if c < 0x800 then 2 else if c < 0x10000 then 3 else 4
    case Utf16 => if c < 0x10000 then 1 else 2
    case Utf32 => 1
  }

  /** The lines of a text, cut at every line end of either kind. */
  function Rows(text: Row): (r: seq<Row>)
    ensures |r| > 0
  {
    if text == [] then [[]]
    else if |text| >= 2 && text[0] == 13 && text[1] == 10 then [[]] + Rows(text[2..])
    else if text[0] == 13 || text[0] == 10 then [[]] + Rows(text[1..])
    else var rest := Rows(text[1..]); [[text[0]] + rest[0]] + rest[1..]
  }

  /** How many units a piece of a row takes. */
  function Units(row: Row, encoding: Encoding): nat {
    if row == [] then 0 else Width(row[0], encoding) + Units(row[1..], encoding)
  }

  predicate ValidPosition(text: Row, p: Position) {
    1 <= p.line <= |Rows(text)| && 1 <= p.column <= |Rows(text)[p.line - 1]| + 1
  }

  function ToLspPosition(text: Row, p: Position, encoding: Encoding): Result<LspPosition> {
    if !ValidPosition(text, p) then InvalidPosition
    else Ok(LspPosition(p.line - 1, Units(Rows(text)[p.line - 1][..p.column - 1], encoding)))
  }

  /** The column that starts at a number of units. */
  function ColumnAt(row: Row, character: int, encoding: Encoding): (c: Option<nat>)
    ensures c.Some? ==> c.value <= |row|
  {
    if character == 0 then Some(0)
    else if row == [] then None
    else
      var rest := ColumnAt(row[1..], character - Width(row[0], encoding), encoding);
      if rest.None? then None else Some(1 + rest.value)
  }

  function FromLspPosition(text: Row, q: LspPosition, encoding: Encoding): Result<Position> {
    if q.line < 0 || q.character < 0 || q.line >= |Rows(text)| then ProtocolError
    else
      var column := ColumnAt(Rows(text)[q.line], q.character, encoding);
      if column.None? then ProtocolError else Ok(Position(q.line + 1, column.value + 1))
  }

  /** Columns and the units before them determine each other. */
  lemma {:induction false} ColumnsAndUnits(row: Row, n: nat, character: int, encoding: Encoding)
    requires n <= |row|
    ensures Units(row[..n], encoding) == character <==> ColumnAt(row, character, encoding) == Some(n)
  {
    if n == 0 {
      assert row[..0] == [];
      if row != [] && character != 0 {
        assert ColumnAt(row, character, encoding) != Some(0);
      }
    } else {
      assert row[..n][1..] == row[1..][..n - 1];
      ColumnsAndUnits(row[1..], n - 1, character - Width(row[0], encoding), encoding);
    }
  }

  lemma UnitsNext(row: Row, i: nat, encoding: Encoding)
    requires i < |row|
    ensures Units(row[..i + 1], encoding) == Units(row[..i], encoding) + Width(row[i], encoding)
  {
    if i > 0 {
      assert row[..i + 1][1..] == row[1..][..i] && row[..i][1..] == row[1..][..i - 1];
      UnitsNext(row[1..], i - 1, encoding);
    } else {
      assert row[..1][1..] == [] && row[..0] == [];
    }
  }

  /** Walks along the row, counting units. */
  method WalkRow(row: Row, character: int, encoding: Encoding) returns (c: Option<nat>)
    ensures c == ColumnAt(row, character, encoding)
  {
    hide Width, ColumnAt, Units;
    var units, column: nat := 0, 0;
    UnitsOfNothing(row, encoding);
    while column < |row|
      invariant column <= |row| && units == Units(row[..column], encoding)
      invariant forall k | 0 <= k < column :: Units(row[..k], encoding) != character
    {
      if units == character {
        ColumnsAndUnits(row, column, character, encoding);
        return Some(column);
      }
      UnitsNext(row, column, encoding);
      units := units + Width(row[column], encoding);
      column := column + 1;
    }
    ColumnsAndUnits(row, column, character, encoding);
    if units != character {
      var found := ColumnAt(row, character, encoding);
      if found.Some? {
        ColumnsAndUnits(row, found.value, character, encoding);
      }
      return None;
    }
    return Some(column);
  }

  lemma UnitsOfNothing(row: Row, encoding: Encoding)
    ensures Units(row[..0], encoding) == 0
  {
  }

  method ReadLspPosition(text: Row, q: LspPosition, encoding: Encoding) returns (r: Result<Position>)
    ensures r == FromLspPosition(text, q, encoding)
  {
    if q.line < 0 || q.character < 0 {
      return ProtocolError;
    }
    var rows := Rows(text);
    if q.line >= |rows| {
      return ProtocolError;
    }
    var column := WalkRow(rows[q.line], q.character, encoding);
    return if column.None? then ProtocolError else Ok(Position(q.line + 1, column.value + 1));
  }

  /** Every valid position survives the way there and back, in every encoding. */
  lemma ThereAndBack(text: Row, p: Position, encoding: Encoding)
    ensures ToLspPosition(text, p, encoding).Ok? <==> ValidPosition(text, p)
    ensures ValidPosition(text, p) ==>
      FromLspPosition(text, ToLspPosition(text, p, encoding).value, encoding) == Ok(p)
  {
    if ValidPosition(text, p) {
      var row := Rows(text)[p.line - 1];
      ColumnsAndUnits(row, p.column - 1, Units(row[..p.column - 1], encoding), encoding);
    }
  }

  /** A server position is accepted exactly when it is the form of a valid position, and
      then of the one that is returned: none that splits a code point is. */
  lemma AcceptedExactly(text: Row, q: LspPosition, p: Position, encoding: Encoding)
    ensures FromLspPosition(text, q, encoding) == Ok(p) <==>
      ValidPosition(text, p) && ToLspPosition(text, p, encoding) == Ok(q)
  {
    if 1 <= p.line <= |Rows(text)| {
      var row := Rows(text)[p.line - 1];
      if 1 <= p.column <= |row| + 1 {
        ColumnsAndUnits(row, p.column - 1, q.character, encoding);
      }
    }
  }

  /** Later columns have larger offsets. */
  lemma {:induction false} UnitsIncrease(row: Row, m: nat, n: nat, encoding: Encoding)
    requires m < n <= |row|
    ensures Units(row[..m], encoding) < Units(row[..n], encoding)
  {
    assert row[..n][1..] == row[1..][..n - 1];
    if m > 0 {
      assert row[..m][1..] == row[1..][..m - 1];
      UnitsIncrease(row[1..], m - 1, n - 1, encoding);
    }
  }

  lemma OrderIsKept(text: Row, p: Position, q: Position, encoding: Encoding)
    requires ValidPosition(text, p) && ValidPosition(text, q) && p.line == q.line
    ensures p.column < q.column <==>
      ToLspPosition(text, p, encoding).value.character < ToLspPosition(text, q, encoding).value.character
  {
    var row := Rows(text)[p.line - 1];
    if p.column < q.column {
      UnitsIncrease(row, p.column - 1, q.column - 1, encoding);
    } else if q.column < p.column {
      UnitsIncrease(row, q.column - 1, p.column - 1, encoding);
    }
  }
}
