/**
 The hexdump printer (libs/utils/src/hexdump.c): rows of sixteen columns, each with an offset,
 a hexadecimal field and a character field. Counters are 32-bit and unsigned.
 */
module Hexdump {
  import opened Wrappers
  import opened Digits

  const COLS: nat := 16
  const WRAP: nat := 0x1_0000_0000

  type byte = b: nat | b < 256 witness 0

  /** isprint in the C locale; a char above 127 is negative, and not printable. */
  predicate IsPrint(b: byte) {
    0x20 <= b <= 0x7e
  }

  // ---------------------------------------------------------------- what is written

  /** One call of fprintf or putchar. */
  datatype Write = Text(s: string) | Offset(i: nat) | Byte(b: byte) | Blank | Char(c: char)

  function Cell(mem: seq<byte>, i: nat): Write {
    if i < |mem| then Byte(mem[i]) else Blank
  }

  function Glyph(mem: seq<byte>, j: nat): Write {
    Char(if j >= |mem| then ' ' else if IsPrint(mem[j]) then mem[j] as char else '.')
  }

  /** A row is an offset, sixteen cells, sixteen characters and a newline. */
  const PER_ROW: nat := 2 * COLS + 2

  function RowWrite(mem: seq<byte>, i: nat, p: nat): Write {
    if p == 0 then Offset(i)
    else if p <= COLS then Cell(mem, i + p - 1)
    else if p <= 2 * COLS then Glyph(mem, i + p - 1 - COLS)
    else Char('\n')
  }

  /** The writes of `row` whole rows, and the first p of the next. */
  function Writes(mem: seq<byte>, row: nat, p: nat): seq<Write>
    decreases row, p
  {
    if p != 0 then Writes(mem, row, p - 1) + [RowWrite(mem, COLS * row, p - 1)]
    else if row == 0 then []
    else Writes(mem, row - 1, PER_ROW)
  }

  /** The length rounded up to whole rows. */
  function RoundedUp(len: nat): nat {
    len + if len % COLS != 0 then COLS - len % COLS else 0
  }

  /** The loop bound as the source computes it, in 32 bits. */
  function Bound(len: nat): nat {
    RoundedUp(len) % WRAP
  }

  lemma RoundedUpIsRows(len: nat)
    ensures RoundedUp(len) == COLS * ((len + COLS - 1) / COLS)
  {
  }

  /** The bound does not wrap up to 2^32 - 16, and then there is one row per started group of
      sixteen bytes; beyond that it wraps to zero. */
  lemma BoundWraps(len: nat)
    requires len < WRAP
    ensures Bound(len) % COLS == 0
    ensures len <= WRAP - COLS ==> Bound(len) == RoundedUp(len) < WRAP
    ensures len > WRAP - COLS ==> Bound(len) == 0
  {
    var rows := (len + COLS - 1) / COLS;
    RoundedUpIsRows(len);
    if len <= WRAP - COLS {
      assert rows <= WRAP / COLS - 1;
    } else {
      assert rows == WRAP / COLS;
    }
  }

  lemma WholeRows(i: nat, row: nat, col: nat)
    requires i == COLS * row + col && col < COLS && i % COLS == 0
    ensures col == 0 && row == i / COLS
  {
  }

  method Print(desc: Option<string>, mem: seq<byte>) returns (out: seq<Write>)
    requires |mem| < WRAP
    ensures out == Heading(desc) + Writes(mem, Bound(|mem|) / COLS, 0)
  {
    out := [];
    if desc.Some? {
      out := out + [Text(desc.value + "\n")];
    }
    ghost var head := out;
    BoundWraps(|mem|);
    var i := 0;
    ghost var row, col := 0, 0;
    while i < Bound(|mem|)
      invariant 0 <= i <= Bound(|mem|) && i == COLS * row + col && 0 <= row && 0 <= col < COLS
      invariant out == head + Writes(mem, row, if col == 0 then 0 else 1 + col)
    {
      out := PrintColumn(mem, i, out, head, row, col);
      row, col := if col + 1 < COLS then row else row + 1, if col + 1 < COLS then col + 1 else 0;
      i := i + 1;
    }
    WholeRows(i, row, col);
  }

  /** The body of the loop over i. */
  method PrintColumn(mem: seq<byte>, i: nat, before: seq<Write>, ghost head: seq<Write>, ghost row: nat, ghost col: nat)
    returns (out: seq<Write>)
    requires i == COLS * row + col && col < COLS
    requires before == head + Writes(mem, row, if col == 0 then 0 else 1 + col)
    ensures out == head + if col + 1 < COLS then Writes(mem, row, 2 + col) else Writes(mem, row + 1, 0)
  {
    out := before;
    if i % COLS == 0 {
      out := out + [Offset(i)];
    }
    assert out == head + Writes(mem, row, 1 + col);
    if i < |mem| {
      out := out + [Byte(mem[i])];
    } else {
      out := out + [Blank];
    }
    assert out == head + Writes(mem, row, 2 + col);
    if i % COLS == COLS - 1 {
      out := PrintGlyphs(mem, i, out, head, row);
    }
  }

  /** The loop over j, and the end of the row. */
  method PrintGlyphs(mem: seq<byte>, i: nat, before: seq<Write>, ghost head: seq<Write>, ghost row: nat)
    returns (out: seq<Write>)
    requires i == COLS * row + COLS - 1 && before == head + Writes(mem, row, 1 + COLS)
    ensures out == head + Writes(mem, row + 1, 0)
  {
    out := before;
    var j := i - (COLS - 1);
    while j <= i
      invariant COLS * row <= j <= i + 1
      invariant out == head + Writes(mem, row, 1 + COLS + (j - COLS * row))
    {
      if j >= |mem| {
        out := out + [Char(' ')];
      } else if IsPrint(mem[j]) {
        out := out + [Char(mem[j] as char)];
      } else {
        out := out + [Char('.')];
      }
      j := j + 1;
    }
    out := out + [Char('\n')];
  }

  // ---------------------------------------------------------------- the text, read back

  function Render(w: Write): string {
    match w
    case Text(s) => s
    case Offset(i) => "0x" + Hex(i, 6) + ": "
    case Byte(b) => Hex(b, 2) + " "
    case Blank => "   "
    case Char(c) => [c]
  }

  /** The strings f(0), f(1), ... f(n-1), one after the other. */
  function Join(f: nat -> string, n: nat): string {
    if n == 0 then "" else Join(f, n - 1) + f(n - 1)
  }

  /** What the writes put on the stream, each formatted by `render`. */
  function Output(render: Write -> string, ws: seq<Write>): string {
    if ws == [] then "" else Output(render, ws[..|ws| - 1]) + render(ws[|ws| - 1])
  }

  function FindColon(s: string): (p: nat)
    ensures p <= |s|
  {
    if s == "" || s[0] == ':' then 0 else 1 + FindColon(s[1..])
  }

  function ByteOf(a: char, b: char): byte {
    (16 * DigitValue(a) + DigitValue(b)) % 256
  }

  /** The bytes in the first n cells of three characters: two digits and a blank, or, behind the
      last byte, three blanks. Anything else is refused. */
  function ParseCells(s: string, n: nat): Option<seq<byte>>
    requires 3 * n <= |s|
  {
    if n == 0 then Some([])
    else
      match ParseCells(s, n - 1)
      case None => None
      case Some(front) =>
        var a, b, c := s[3 * (n - 1)], s[3 * (n - 1) + 1], s[3 * (n - 1) + 2];
        if a == ' ' && b == ' ' && c == ' ' then Some(front)
        else if IsDigit(a) && IsDigit(b) && c == ' ' && |front| == n - 1 then Some(front + [ByteOf(a, b)])
        else None
  }

  /** `0x` and six digits, or more if they are needed. */
  function ParseOffset(s: string): Option<nat> {
    if |s| >= 8 && s[..2] == "0x" && AreDigits(s[2..]) && (|s| > 8 ==> s[2] != '0') then Some(HexValue(s[2..]))
    else None
  }

  datatype ParsedRow = ParsedRow(offset: nat, bytes: seq<byte>, text: string)

  const BODY: nat := 4 * COLS + 1

  /** A reader that knows only the layout, and refuses every text that departs from it: rows of an
      offset that ends in a colon and a blank, sixteen cells, sixteen characters and a newline. */
  function Parse(s: string): Option<seq<ParsedRow>>
    decreases |s|
  {
    if s == "" then Some([])
    else
      var p := FindColon(s);
      if |s| < p + 2 + BODY then None
      else
        match ParseRow(s[..p + 2 + BODY], p)
        case None => None
        case Some(row) => Behind([row], Parse(s[p + 2 + BODY..]))
  }

  function ParseRow(row: string, p: nat): Option<ParsedRow>
    requires |row| == p + 2 + BODY
  {
    match (ParseOffset(row[..p]), ParseCells(row[p + 2..], COLS))
    case (Some(offset), Some(bytes)) =>
      if row[p + 1] == ' ' && row[|row| - 1] == '\n'
      then Some(ParsedRow(offset, bytes, row[p + 2 + 3 * COLS..][..COLS]))
      else None
    case _ => None
  }

  function Behind(rows: seq<ParsedRow>, rest: Option<seq<ParsedRow>>): Option<seq<ParsedRow>> {
    match rest case None => None case Some(more) => Some(rows + more)
  }

  /** What the first rows are to say. */
  function Meant(mem: seq<byte>, rows: nat): seq<ParsedRow> {
    Listed((r: nat) => MeantRow(mem, r), rows)
  }

  function Listed(m: nat -> ParsedRow, n: nat): seq<ParsedRow> {
    if n == 0 then [] else Listed(m, n - 1) + [m(n - 1)]
  }

  function MeantRow(mem: seq<byte>, row: nat): ParsedRow {
    RowOf(mem, COLS * row)
  }

  function RowOf(mem: seq<byte>, i: nat): ParsedRow {
    ParsedRow(i, Part(mem, i, COLS), Shown(Part(mem, i, COLS)))
  }

  /** How a reader sees the bytes of a row as text: those that can be printed as themselves, the
      others as dots, and blanks after the last. */
  function Shown(bytes: seq<byte>): (s: string)
    ensures |s| == COLS
  {
    seq(COLS, k requires 0 <= k < COLS =>
      if k >= |bytes| then ' ' else if IsPrint(bytes[k]) then bytes[k] as char else '.')
  }

  function Part(mem: seq<byte>, i: nat, n: nat): seq<byte> {
    if |mem| <= i then [] else if i + n <= |mem| then mem[i..i + n] else mem[i..]
  }

  function Bytes(rows: seq<ParsedRow>): seq<byte> {
    if rows == [] then [] else Bytes(rows[..|rows| - 1]) + rows[|rows| - 1].bytes
  }

  // Joined strings, whatever they are.

  function Shift(f: nat -> string, a: nat): nat -> string {
    (k: nat) => f(a + k)
  }

  lemma {:induction false} JoinSplit(f: nat -> string, a: nat, b: nat)
    ensures Join(f, a + b) == Join(f, a) + Join(Shift(f, a), b)
  {
    if b == 0 {
      assert Join(f, a) + "" == Join(f, a);
    } else {
      JoinSplit(f, a, b - 1);
      assert Join(f, a) + Join(Shift(f, a), b - 1) + f(a + b - 1) == Join(f, a) + (Join(Shift(f, a), b - 1) + f(a + b - 1));
    }
  }

  /** Single characters joined are a string of that length. */
  lemma {:induction false} JoinChars(f: nat -> string, n: nat)
    requires forall k: nat :: k < n ==> |f(k)| == 1
    ensures |Join(f, n)| == n && forall k: nat :: k < n ==> Join(f, n)[k] == f(k)[0]
  {
    if n != 0 { JoinChars(f, n - 1); }
  }

  // The fields of a row.

  lemma ByteIsRead(b: byte)
    ensures var s := Hex(b, 2);
      |s| == 2 && IsDigit(s[0]) && IsDigit(s[1]) && ByteOf(s[0], s[1]) == b
  {
    assert b / 16 < 16 && Hex(b / 16, 1) == [Digit(b / 16)];
    assert Hex(b, 2) == [Digit(b / 16)] + [Digit(b % 16)];
  }

  /** Reading one more cell turns `before`, what n cells said, into `after`. */
  ghost predicate CellStep(cell: string, before: seq<byte>, after: seq<byte>, n: nat) {
    |cell| == 3 && cell[2] == ' ' &&
    if cell[0] == ' ' then cell[1] == ' ' && after == before
    else IsDigit(cell[0]) && IsDigit(cell[1]) && |before| == n && after == before + [ByteOf(cell[0], cell[1])]
  }

  lemma CellIsRead(mem: seq<byte>, i: nat, n: nat)
    ensures CellStep(Render(Cell(mem, i + n)), Part(mem, i, n), Part(mem, i, n + 1), n)
  {
    if i + n < |mem| { ByteIsRead(mem[i + n]); }
  }

  lemma ParseCellsStep(front: string, cell: string, rest: string, n: nat, before: seq<byte>, after: seq<byte>)
    requires |front| == 3 * n && ParseCells(front + (cell + rest), n) == Some(before)
    requires CellStep(cell, before, after, n)
    ensures ParseCells(front + cell + rest, n + 1) == Some(after)
  {
    assert front + cell + rest == front + (cell + rest);
    assert forall k :: 0 <= k < 3 ==> (front + (cell + rest))[3 * n + k] == cell[k];
    assert (front + (cell + rest))[3 * n] == cell[0] && (front + (cell + rest))[3 * n + 1] == cell[1];
    assert (front + (cell + rest))[3 * n + 2] == cell[2];
  }

  lemma {:induction false} CellsAreRead(f: nat -> string, part: nat -> seq<byte>, n: nat, rest: string)
    requires part(0) == [] && forall k: nat :: k < n ==> CellStep(f(k), part(k), part(k + 1), k)
    ensures |Join(f, n)| == 3 * n
    ensures ParseCells(Join(f, n) + rest, n) == Some(part(n))
  {
    if n != 0 {
      assert CellStep(f(n - 1), part(n - 1), part(n - 1 + 1), n - 1);
      CellsAreRead(f, part, n - 1, f(n - 1) + rest);
      ParseCellsStep(Join(f, n - 1), f(n - 1), rest, n - 1, part(n - 1), part(n));
    }
  }

  function Parts(mem: seq<byte>, i: nat): nat -> seq<byte> {
    (n: nat) => Part(mem, i, n)
  }

  lemma {:induction false} ColonIsFound(a: string, b: string)
    requires forall k :: 0 <= k < |a| ==> a[k] != ':'
    ensures FindColon(a + (":" + b)) == |a|
  {
    if a != "" {
      assert (a + (":" + b))[1..] == a[1..] + (":" + b);
      ColonIsFound(a[1..], b);
    }
  }

  ghost predicate ReadsOffset(offset: string, i: nat) {
    && 10 <= |offset| && ParseOffset(offset[..|offset| - 2]) == Some(i) && offset[|offset| - 1] == ' '
    && forall body :: FindColon(offset + body) == |offset| - 2
  }

  /** Six digits are as many as the offsets up to 2^24 need. */
  lemma OffsetIsRead(i: nat)
    ensures ReadsOffset(Render(Offset(i)), i)
    ensures i < 0x100_0000 ==> |Render(Offset(i))| == 10
  {
    var a, offset := "0x" + Hex(i, 6), Render(Offset(i));
    HexIsDigits(i, 6);
    HexWidth(i, 6);
    assert Power(6) == 0x100_0000 by { assert Power(2) == 256 && Power(4) == 0x1_0000; }
    assert offset[..|offset| - 2] == a && a[..2] == "0x" && a[2..] == Hex(i, 6);
    forall body ensures FindColon(offset + body) == |offset| - 2 {
      assert offset + body == a + (":" + (" " + body));
      ColonIsFound(a, " " + body);
    }
  }

  lemma RowIsParsed(offset: string, cells: string, tail: string, i: nat, bytes: seq<byte>)
    requires ReadsOffset(offset, i) && |cells| == 3 * COLS && |tail| == COLS + 1 && tail[COLS] == '\n'
    requires ParseCells(cells + tail, COLS) == Some(bytes)
    ensures ParseRow(offset + (cells + tail), |offset| - 2) == Some(ParsedRow(i, bytes, tail[..COLS]))
  {
    var row, p := offset + (cells + tail), |offset| - 2;
    assert row[..p] == offset[..p] && row[p + 2..] == cells + tail && row[p + 1] == offset[p + 1];
    assert row[p + 2 + 3 * COLS..] == tail && row[|row| - 1] == tail[COLS];
  }

  lemma FrontIsRow(offset: string, cells: string, tail: string, rest: string, i: nat, bytes: seq<byte>)
    requires ReadsOffset(offset, i) && |cells| == 3 * COLS && |tail| == COLS + 1 && tail[COLS] == '\n'
    requires ParseCells(cells + tail, COLS) == Some(bytes)
    ensures Parse(offset + (cells + tail) + rest) == Behind([ParsedRow(i, bytes, tail[..COLS])], Parse(rest))
  {
    var row, p := offset + (cells + tail), |offset| - 2;
    var s := row + rest;
    RowIsParsed(offset, cells, tail, i, bytes);
    assert FindColon(s) == p by {
      assert s == offset + (cells + tail + rest);
    }
    assert s[..p + 2 + BODY] == row && s[p + 2 + BODY..] == rest;
  }

  /** The strings of one row, as far as the reader depends on them: an offset, sixteen cells of
      three characters, and seventeen single characters. */
  ghost predicate IsRow(f: nat -> string, mem: seq<byte>, i: nat) {
    && ReadsOffset(f(0), i)
    && AreCells(Shift(f, 1), mem, i)
    && AreChars(Shift(Shift(f, 1), COLS), Shown(Part(mem, i, COLS)))
  }

  ghost predicate AreCells(g: nat -> string, mem: seq<byte>, i: nat) {
    forall k: nat :: k < COLS ==> CellStep(g(k), Part(mem, i, k), Part(mem, i, k + 1), k)
  }

  ghost predicate AreChars(h: nat -> string, text: string)
    requires |text| == COLS
  {
    forall k: nat :: k < COLS + 1 ==> |h(k)| == 1 && h(k)[0] == if k < COLS then text[k] else '\n'
  }

  lemma CharsAreText(h: nat -> string, text: string)
    requires |text| == COLS && AreChars(h, text)
    ensures |Join(h, COLS + 1)| == COLS + 1 && Join(h, COLS + 1)[..COLS] == text && Join(h, COLS + 1)[COLS] == '\n'
  {
    JoinChars(h, COLS + 1);
  }

  lemma RowSplit(f: nat -> string)
    ensures var g := Shift(f, 1);
      Join(f, PER_ROW) == f(0) + (Join(g, COLS) + Join(Shift(g, COLS), COLS + 1))
  {
    JoinSplit(f, 1, PER_ROW - 1);
    JoinSplit(Shift(f, 1), COLS, COLS + 1);
    OneString(f);
  }

  lemma RowFields(f: nat -> string, mem: seq<byte>, i: nat) returns (cells: string, tail: string)
    requires IsRow(f, mem, i)
    ensures Join(f, PER_ROW) == f(0) + (cells + tail) && |cells| == 3 * COLS && |tail| == COLS + 1
    ensures ParseCells(cells + tail, COLS) == Some(Part(mem, i, COLS))
    ensures tail[..COLS] == Shown(Part(mem, i, COLS)) && tail[COLS] == '\n'
  {
    var g := Shift(f, 1);
    var h := Shift(g, COLS);
    cells, tail := Join(g, COLS), Join(h, COLS + 1);
    RowSplit(f);
    CellFields(g, mem, i, tail);
    CharsAreText(h, Shown(Part(mem, i, COLS)));
  }

  lemma CellFields(g: nat -> string, mem: seq<byte>, i: nat, tail: string)
    requires AreCells(g, mem, i)
    ensures |Join(g, COLS)| == 3 * COLS && ParseCells(Join(g, COLS) + tail, COLS) == Some(Part(mem, i, COLS))
  {
    CellsAreRead(g, Parts(mem, i), COLS, tail);
  }

  /** A row is read back whatever follows it. */
  lemma RowIsRead(f: nat -> string, mem: seq<byte>, i: nat, rest: string)
    requires IsRow(f, mem, i)
    ensures Parse(Join(f, PER_ROW) + rest) == Behind([RowOf(mem, i)], Parse(rest))
  {
    var cells, tail := RowFields(f, mem, i);
    FrontIsRow(f(0), cells, tail, rest, i, Part(mem, i, COLS));
  }

  lemma OneString(f: nat -> string)
    ensures Join(f, 1) == f(0)
  {
    assert Join(f, 0) == "" && "" + f(0) == f(0);
  }

  function RowTexts(render: Write -> string, mem: seq<byte>, i: nat): nat -> string {
    (p: nat) => render(RowWrite(mem, i, p))
  }

  lemma RowTextsAreRow(mem: seq<byte>, i: nat)
    ensures IsRow(RowTexts(Render, mem, i), mem, i)
  {
    var g := Shift(RowTexts(Render, mem, i), 1);
    OffsetIsRead(i);
    RowTextAt(mem, i, 0);
    forall k: nat | k < COLS ensures CellStep(g(k), Part(mem, i, k), Part(mem, i, k + 1), k) {
      RowCell(mem, i, k);
    }
    var h, text := Shift(g, COLS), Shown(Part(mem, i, COLS));
    forall k: nat | k < COLS + 1 ensures |h(k)| == 1 && h(k)[0] == if k < COLS then text[k] else '\n' {
      RowChar(mem, i, k);
    }
  }

  lemma RowCell(mem: seq<byte>, i: nat, k: nat)
    requires k < COLS
    ensures CellStep(Shift(RowTexts(Render, mem, i), 1)(k), Part(mem, i, k), Part(mem, i, k + 1), k)
  {
    ShiftAt(RowTexts(Render, mem, i), 1, k);
    RowTextAt(mem, i, 1 + k);
    CellIsRead(mem, i, k);
  }

  lemma RowChar(mem: seq<byte>, i: nat, k: nat)
    requires k < COLS + 1
    ensures var c := Shift(Shift(RowTexts(Render, mem, i), 1), COLS)(k);
      |c| == 1 && c[0] == if k < COLS then Shown(Part(mem, i, COLS))[k] else '\n'
  {
    ShiftAt(Shift(RowTexts(Render, mem, i), 1), COLS, k);
    ShiftAt(RowTexts(Render, mem, i), 1, COLS + k);
    RowTextAt(mem, i, 1 + (COLS + k));
  }

  lemma ShiftAt(f: nat -> string, a: nat, k: nat)
    ensures Shift(f, a)(k) == f(a + k)
  {
  }

  lemma RowTextAt(mem: seq<byte>, i: nat, p: nat)
    ensures RowTexts(Render, mem, i)(p) == Render(RowWrite(mem, i, p))
  {
  }

  // The whole dump.

  lemma {:induction false} RowOutput(render: Write -> string, mem: seq<byte>, row: nat, p: nat)
    ensures Output(render, Writes(mem, row, p)) ==
      Output(render, Writes(mem, row, 0)) + Join(RowTexts(render, mem, COLS * row), p)
  {
    var base, f := Output(render, Writes(mem, row, 0)), RowTexts(render, mem, COLS * row);
    if p == 0 {
      assert base + "" == base;
    } else {
      RowOutput(render, mem, row, p - 1);
      var front := Writes(mem, row, p - 1);
      assert Writes(mem, row, p)[..|front|] == front;
      Assoc(base, Join(f, p - 1), f(p - 1));
    }
  }

  lemma Assoc(a: string, b: string, c: string)
    ensures a + (b + c) == a + b + c
  {
  }

  function RowStrings(render: Write -> string, mem: seq<byte>): nat -> string {
    (r: nat) => Join(RowTexts(render, mem, COLS * r), PER_ROW)
  }

  lemma {:induction false} OutputIsRows(render: Write -> string, mem: seq<byte>, rows: nat)
    ensures Output(render, Writes(mem, rows, 0)) == Join(RowStrings(render, mem), rows)
  {
    if rows != 0 {
      OutputIsRows(render, mem, rows - 1);
      RowOutput(render, mem, rows - 1, PER_ROW);
    }
  }

  lemma BehindTwice(a: seq<ParsedRow>, b: seq<ParsedRow>, rest: Option<seq<ParsedRow>>)
    ensures Behind(a, Behind(b, rest)) == Behind(a + b, rest)
  {
    if rest.Some? { assert a + (b + rest.value) == a + b + rest.value; }
  }

  type Reader = string -> Option<seq<ParsedRow>>

  ghost predicate ReadsRow(parse: Reader, f: nat -> string, m: nat -> ParsedRow, r: nat, rest: string) {
    parse(f(r) + rest) == Behind([m(r)], parse(rest))
  }

  lemma {:induction false} RowsAreRead(parse: Reader, f: nat -> string, m: nat -> ParsedRow, rows: nat, rest: string)
    requires forall r: nat, s :: ReadsRow(parse, f, m, r, s)
    ensures parse(Join(f, rows) + rest) == Behind(Listed(m, rows), parse(rest))
  {
    if rows == 0 {
      assert "" + rest == rest;
      assert parse(rest).Some? ==> [] + parse(rest).value == parse(rest).value;
    } else {
      assert ReadsRow(parse, f, m, rows - 1, rest);
      Assoc(Join(f, rows - 1), f(rows - 1), rest);
      RowsAreRead(parse, f, m, rows - 1, f(rows - 1) + rest);
      BehindTwice(Listed(m, rows - 1), [m(rows - 1)], parse(rest));
    }
  }

  /** What is left of the buffer when it is cut off after so many rows. */
  function Front(mem: seq<byte>, rows: nat): seq<byte> {
    if COLS * rows <= |mem| then mem[..COLS * rows] else mem
  }

  lemma FrontGrows(mem: seq<byte>, row: nat)
    ensures Front(mem, row + 1) == Front(mem, row) + MeantRow(mem, row).bytes
  {
  }

  lemma {:induction false} BytesOfListed(m: nat -> ParsedRow, front: nat -> seq<byte>, n: nat)
    requires front(0) == [] && forall k: nat :: k < n ==> front(k + 1) == front(k) + m(k).bytes
    ensures |Listed(m, n)| == n && Bytes(Listed(m, n)) == front(n)
  {
    if n != 0 {
      BytesOfListed(m, front, n - 1);
      BytesAppend(Listed(m, n - 1), m(n - 1));
      assert front(n - 1 + 1) == front(n - 1) + m(n - 1).bytes;
    }
  }

  lemma MeantBytes(mem: seq<byte>, rows: nat)
    ensures |Meant(mem, rows)| == rows && Bytes(Meant(mem, rows)) == Front(mem, rows)
  {
    forall k: nat ensures Front(mem, k + 1) == Front(mem, k) + MeantRow(mem, k).bytes {
      FrontGrows(mem, k);
    }
    BytesOfListed((r: nat) => MeantRow(mem, r), (k: nat) => Front(mem, k), rows);
  }

  lemma BytesAppend(rows: seq<ParsedRow>, row: ParsedRow)
    ensures Bytes(rows + [row]) == Bytes(rows) + row.bytes
  {
    assert (rows + [row])[..|rows|] == rows;
  }

  lemma DumpIsRead(mem: seq<byte>, rows: nat)
    ensures Parse(Output(Render, Writes(mem, rows, 0))) == Some(Meant(mem, rows))
  {
    var f := RowStrings(Render, mem);
    var m := (r: nat) => MeantRow(mem, r);
    forall r: nat, s ensures ReadsRow(Parse, f, m, r, s) {
      RowTextsAreRow(mem, COLS * r);
      RowIsRead(RowTexts(Render, mem, COLS * r), mem, COLS * r, s);
    }
    OutputIsRows(Render, mem, rows);
    RowsAreRead(Parse, f, m, rows, "");
    assert Join(f, rows) + "" == Join(f, rows);
    assert Listed(m, rows) + [] == Listed(m, rows);
  }

  /** The dump is invertible exactly up to 2^32 - 16 bytes. The text has one row per started
      group of sixteen bytes and nothing else; read by layout alone, each row says its offset and
      its bytes, and together the rows give back the buffer. Beyond that length nothing is
      printed. */
  lemma DumpIsInvertible(mem: seq<byte>)
    requires |mem| < WRAP
    ensures var rows := Bound(|mem|) / COLS;
            var parsed := Parse(Output(Render, Writes(mem, rows, 0)));
      && parsed == Some(Meant(mem, rows))
      && (Bytes(parsed.value) == mem <==> |mem| <= WRAP - COLS)
      && (|mem| <= WRAP - COLS ==> |parsed.value| == (|mem| + COLS - 1) / COLS)
  {
    BoundWraps(|mem|);
    RoundedUpIsRows(|mem|);
    DumpIsRead(mem, Bound(|mem|) / COLS);
    MeantBytes(mem, Bound(|mem|) / COLS);
  }

  lemma {:induction false} ListedAt(m: nat -> ParsedRow, n: nat)
    ensures |Listed(m, n)| == n && forall r: nat :: r < n ==> Listed(m, n)[r] == m(r)
  {
    if n != 0 { ListedAt(m, n - 1); }
  }

  lemma {:induction false} OutputBehind(render: Write -> string, w: Write, ws: seq<Write>)
    ensures Output(render, [w] + ws) == render(w) + Output(render, ws)
  {
    if ws == [] {
      assert [w] + ws == [w] && [w][..0] == [];
    } else {
      var m := |ws| - 1;
      OutputBehind(render, w, ws[..m]);
      assert ([w] + ws)[..m + 1] == [w] + ws[..m];
    }
  }

  function Heading(desc: Option<string>): seq<Write> {
    match desc case None => [] case Some(d) => [Text(d + "\n")]
  }

  lemma HeadingIsFirst(desc: Option<string>, ws: seq<Write>)
    ensures Output(Render, Heading(desc) + ws) ==
      (match desc case None => "" case Some(d) => d + "\n") + Output(Render, ws)
  {
    if desc.Some? {
      OutputBehind(Render, Text(desc.value + "\n"), ws);
    } else {
      assert [] + ws == ws;
    }
  }

  /** The printed text: the heading, if there is one, on a line of its own, and behind it the dump,
      which is read back. */
  method PrintAndParse(desc: Option<string>, mem: seq<byte>)
    returns (text: string, dump: string, parsed: Option<seq<ParsedRow>>)
    requires |mem| < WRAP
    ensures text == (match desc case None => "" case Some(d) => d + "\n") + dump && parsed == Parse(dump)
    ensures parsed.Some? && (Bytes(parsed.value) == mem <==> |mem| <= WRAP - COLS)
    ensures |parsed.value| == if |mem| <= WRAP - COLS then (|mem| + COLS - 1) / COLS else 0
    ensures forall r :: 0 <= r < |parsed.value| ==> parsed.value[r] == MeantRow(mem, r)
  {
    var rows := Bound(|mem|) / COLS;
    var out := Print(desc, mem);
    text := Output(Render, out);
    dump := Output(Render, Writes(mem, rows, 0));
    parsed := Parse(dump);
    HeadingIsFirst(desc, Writes(mem, rows, 0));
    ReadsWhole(mem, rows);
  }

  lemma ReadsWhole(mem: seq<byte>, rows: nat)
    requires |mem| < WRAP && rows == Bound(|mem|) / COLS
    ensures var parsed := Parse(Output(Render, Writes(mem, rows, 0)));
      && parsed.Some? && (Bytes(parsed.value) == mem <==> |mem| <= WRAP - COLS)
      && |parsed.value| == (if |mem| <= WRAP - COLS then (|mem| + COLS - 1) / COLS else 0)
      && forall r :: 0 <= r < |parsed.value| ==> parsed.value[r] == MeantRow(mem, r)
  {
    DumpIsInvertible(mem);
    BoundWraps(|mem|);
    ListedAt((r: nat) => MeantRow(mem, r), rows);
  }

  // Where everything stands.

  /** A row with an offset of six digits. */
  ghost predicate StandsAt(row: string) {
    |row| == 75 && row[..2] == "0x" && AreDigits(row[2..8]) && row[8] == ':' && row[9] == ' ' && row[74] == '\n'
  }

  lemma RowLooks(digits: string, cells: string, tail: string)
    requires |digits| == 6 && AreDigits(digits) && |cells| == 48 && |tail| == 17 && tail[16] == '\n'
    ensures StandsAt("0x" + digits + ": " + (cells + tail))
  {
    var row := "0x" + digits + ": " + (cells + tail);
    assert row[2..8] == digits && row[..2] == "0x" && row[8] == ':' && row[9] == ' ';
    assert row[74] == tail[16];
  }

  lemma StandsIfRow(f: nat -> string, mem: seq<byte>, i: nat, digits: string)
    requires IsRow(f, mem, i) && f(0) == "0x" + digits + ": " && |digits| == 6 && AreDigits(digits)
    ensures StandsAt(Join(f, PER_ROW))
  {
    var cells, tail := RowFields(f, mem, i);
    RowLooks(digits, cells, tail);
  }

  lemma OffsetText(i: nat)
    requires i < 0x100_0000
    ensures Render(Offset(i)) == "0x" + Hex(i, 6) + ": " && |Hex(i, 6)| == 6 && AreDigits(Hex(i, 6))
  {
    OffsetIsRead(i);
    HexIsDigits(i, 6);
  }

  lemma RowStands(mem: seq<byte>, r: nat)
    requires 16 * r < 0x100_0000
    ensures StandsAt(RowStrings(Render, mem)(r))
  {
    var f := RowTexts(Render, mem, COLS * r);
    RowTextsAreRow(mem, COLS * r);
    OffsetText(COLS * r);
    RowTextAt(mem, COLS * r, 0);
    StandsIfRow(f, mem, COLS * r, Hex(COLS * r, 6));
  }

  ghost predicate AllStand(f: nat -> string, n: nat) {
    forall r: nat :: r < n ==> StandsAt(f(r))
  }

  lemma {:induction false} RowsLength(f: nat -> string, n: nat)
    requires AllStand(f, n)
    ensures |Join(f, n)| == 75 * n
  {
    if n != 0 { RowsLength(f, n - 1); }
  }

  lemma FrontSlice(front: string, back: string, lo: nat, hi: nat)
    requires lo <= hi <= |front|
    ensures (front + back)[lo..hi] == front[lo..hi]
  {
  }

  lemma {:induction false} RowAt(f: nat -> string, n: nat, r: nat)
    requires AllStand(f, n) && r < n
    ensures 75 * r + 75 <= |Join(f, n)| && StandsAt(Join(f, n)[75 * r..75 * r + 75])
  {
    RowsLength(f, n - 1);
    if r < n - 1 {
      RowAt(f, n - 1, r);
      FrontSlice(Join(f, n - 1), f(n - 1), 75 * r, 75 * r + 75);
    } else {
      assert Join(f, n)[75 * r..75 * r + 75] == f(r);
    }
  }

  /** Up to 2^24 bytes the dump is 75 characters for each started group of sixteen, and in each of
      these rows everything stands at its place. */
  lemma DumpLayout(mem: seq<byte>)
    requires |mem| <= 0x100_0000
    ensures var rows := (|mem| + 15) / 16;
            var text := Output(Render, Writes(mem, Bound(|mem|) / COLS, 0));
      |text| == 75 * rows && forall r :: 0 <= r < rows ==> StandsAt(text[75 * r..75 * r + 75])
  {
    var rows := (|mem| + 15) / 16;
    var f := RowStrings(Render, mem);
    RowCount(mem);
    OutputIsRows(Render, mem, rows);
    forall r: nat | r < rows ensures StandsAt(f(r)) {
      RowStands(mem, r);
    }
    RowsLength(f, rows);
    forall r: nat | r < rows ensures StandsAt(Join(f, rows)[75 * r..75 * r + 75]) {
      RowAt(f, rows, r);
    }
  }

  lemma RowCount(mem: seq<byte>)
    requires |mem| <= WRAP - COLS
    ensures Bound(|mem|) / COLS == (|mem| + 15) / 16
  {
    BoundWraps(|mem|);
    RoundedUpIsRows(|mem|);
  }
}
