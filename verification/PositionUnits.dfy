/** What the offsets of positions count (`extensions/code-intel/service.ts`). */
module PositionUnits {
  // The units are those of the encoded text, and the rows are its lines.

  import opened Positions
  import opened Wrappers

  // ----------------------------------------------------------------------- encoded text

  /** A lone surrogate is a code point of a string, but of no text. */
  predicate Surrogate(c: CodePoint) {
    0xD800 <= c < 0xE000
  }

  /** Section 3 of RFC 3629, as bytes; a lone surrogate is written as the replacement
      character. */
  function Utf8Bytes(c: CodePoint): seq<int> {
    if Surrogate(c) then [0xEF, 0xBF, 0xBD]
    else if c <= 0x7F then [c]
    else
      var q, last := c / 0x40, 0x80 + c % 0x40;
      if c <= 0x7FF then [0xC0 + q, last]
      else if c <= 0xFFFF then [0xE0 + q / 0x40, 0x80 + q % 0x40, last]
      else [0xF0 + q / 0x40 / 0x40, 0x80 + q / 0x40 % 0x40, 0x80 + q % 0x40, last]
  }

  /** Section 2.1 of RFC 2781. */
  function Utf16Units(c: CodePoint): seq<int> {
    if c < 0x10000 then [c] else [0xD800 + (c - 0x10000) / 0x400, 0xDC00 + (c - 0x10000) % 0x400]
  }

  function Encoded(c: CodePoint, encoding: Encoding): seq<int> {
    match encoding
    case Utf8 => Utf8Bytes(c)
    case Utf16 => Utf16Units(c)
    case Utf32 => [c]
  }

  function EncodedRow(row: Row, encoding: Encoding): seq<int> {
    if row == [] then [] else Encoded(row[0], encoding) + EncodedRow(row[1..], encoding)
  }

  /** Six more bits. */
  function More(high: int, next: int): int {
    high * 0x40 + (next - 0x80)
  }

  /** What the first bytes of a text say, by their leading bits. */
  function ReadUtf8(b: seq<int>): Option<int> {
    if |b| >= 1 && b[0] < 0x80 then Some(b[0])
    else if |b| >= 2 && 0xC0 <= b[0] < 0xE0 then Some(More(b[0] - 0xC0, b[1]))
    else if |b| >= 3 && 0xE0 <= b[0] < 0xF0 then Some(More(More(b[0] - 0xE0, b[1]), b[2]))
    else if |b| >= 4 && 0xF0 <= b[0] < 0xF8 then Some(More(More(More(b[0] - 0xF0, b[1]), b[2]), b[3]))
    else None
  }

  function ReadUtf16(u: seq<int>): Option<int> {
    if |u| >= 2 && 0xD800 <= u[0] < 0xDC00 && 0xDC00 <= u[1] < 0xE000 then
      Some(0x10000 + (u[0] - 0xD800) * 0x400 + (u[1] - 0xDC00))
    else if |u| >= 1 then Some(u[0])
    else None
  }

  /** These are encodings: bytes that fit, of which the code point is read again. */
  lemma EncodingsAreRead(c: CodePoint)
    ensures forall b | b in Utf8Bytes(c) :: b < 0x100
    ensures !Surrogate(c) ==> ReadUtf8(Utf8Bytes(c)) == Some(c)
    ensures forall u | u in Utf16Units(c) :: u < 0x10000
    ensures ReadUtf16(Utf16Units(c)) == Some(c)
  {
  }

  /** So an offset is the number of units of what stands before it. */
  lemma {:induction false} UnitsAreCounted(row: Row, encoding: Encoding)
    ensures Units(row, encoding) == |EncodedRow(row, encoding)|
  {
    if row != [] {
      UnitsAreCounted(row[1..], encoding);
      WidthIsLength(row[0], encoding);
    }
  }

  lemma WidthIsLength(c: CodePoint, encoding: Encoding)
    ensures Width(c, encoding) == |Encoded(c, encoding)|
  {
  }

  lemma OffsetsAreLengths(text: Row, p: Position, encoding: Encoding)
    requires ValidPosition(text, p)
    ensures ToLspPosition(text, p, encoding) ==
      Ok(LspPosition(p.line - 1, |EncodedRow(Rows(text)[p.line - 1][..p.column - 1], encoding)|))
  {
    UnitsAreCounted(Rows(text)[p.line - 1][..p.column - 1], encoding);
  }

  // ------------------------------------------------------------------------------ lines

  const CR: CodePoint := 13
  const LF: CodePoint := 10

  datatype LineEnd = CrLf | OnlyCr | OnlyLf

  function EndOf(e: LineEnd): Row {
    match e
    case CrLf => [CR, LF]
    case OnlyCr => [CR]
    case OnlyLf => [LF]
  }

  /** Rows with line ends between them. */
  function Joined(rows: seq<Row>, ends: seq<LineEnd>): Row
    requires |rows| == |ends| + 1
  {
    if ends == [] then rows[0] else rows[0] + EndOf(ends[0]) + Joined(rows[1..], ends[1..])
  }

  /** No row has a line end in it, and none was cut in two. */
  predicate WellCut(rows: seq<Row>, ends: seq<LineEnd>) {
    && |rows| == |ends| + 1
    && (forall i | 0 <= i < |rows| :: CR !in rows[i] && LF !in rows[i])
    && forall i | 0 <= i < |ends| - 1 :: ends[i] == OnlyCr && rows[i + 1] == [] ==> ends[i + 1] != OnlyLf
  }

  lemma WellCutCons(row: Row, e: LineEnd, rows: seq<Row>, ends: seq<LineEnd>)
    requires WellCut(rows, ends) && CR !in row && LF !in row
    requires e == OnlyCr && rows[0] == [] && ends != [] ==> ends[0] != OnlyLf
    ensures WellCut([row] + rows, [e] + ends)
    ensures Joined([row] + rows, [e] + ends) == row + EndOf(e) + Joined(rows, ends)
  {
    var r, n := [row] + rows, [e] + ends;
    assert r[1..] == rows && n[1..] == ends;
    forall i | 0 <= i < |n| - 1
      ensures n[i] == OnlyCr && r[i + 1] == [] ==> n[i + 1] != OnlyLf
    {
      if i > 0 {
        assert n[i] == ends[i - 1] && r[i + 1] == rows[i] && n[i + 1] == ends[i];
      }
    }
  }

  /** The rows are the lines of the text, whichever of the three line ends stand between
      them, and a carriage return with its line feed is one of them. */
  lemma {:induction false} RowsAreLines(text: Row) returns (ends: seq<LineEnd>)
    ensures WellCut(Rows(text), ends) && Joined(Rows(text), ends) == text
  {
    if text == [] {
      ends := [];
    } else if |text| >= 2 && text[0] == CR && text[1] == LF {
      ends := RowsAreLines(text[2..]);
      WellCutCons([], CrLf, Rows(text[2..]), ends);
      ends := [CrLf] + ends;
      assert text == [CR, LF] + text[2..];
    } else if text[0] == CR || text[0] == LF {
      var e := if text[0] == CR then OnlyCr else OnlyLf;
      ends := RowsAreLines(text[1..]);
      StartsWithItsEnd(Rows(text[1..]), ends, text[1..]);
      WellCutCons([], e, Rows(text[1..]), ends);
      ends := [e] + ends;
      assert text == [text[0]] + text[1..];
    } else {
      ends := RowsAreLines(text[1..]);
      Longer(text[0], Rows(text[1..]), ends);
      assert text == [text[0]] + text[1..];
    }
  }

  lemma StartsWithItsEnd(rows: seq<Row>, ends: seq<LineEnd>, text: Row)
    requires WellCut(rows, ends) && Joined(rows, ends) == text
    ensures rows[0] == [] && ends != [] && ends[0] == OnlyLf ==> text != [] && text[0] == LF
  {
  }

  lemma Longer(c: CodePoint, rows: seq<Row>, ends: seq<LineEnd>)
    requires WellCut(rows, ends) && c != CR && c != LF
    ensures
      var longer := [[c] + rows[0]] + rows[1..];
      WellCut(longer, ends) && Joined(longer, ends) == [c] + Joined(rows, ends)
  {
    var longer := [[c] + rows[0]] + rows[1..];
    assert longer[1..] == rows[1..];
    assert forall i | 0 < i < |rows| :: longer[i] == rows[i];
  }
}
