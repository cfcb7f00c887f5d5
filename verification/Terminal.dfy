/**
 An unbounded terminal that wraps lazily, and the text layout it produces.
 */
module Terminal {
  const HEIGHT: nat := 25
  const WIDTH: nat := 80
  const NEWLINE: nat := 10

  // A character cell; bytes and colour codes are u8.
  datatype ScreenChar = ScreenChar(ascii: nat, color: nat)

  type Row = seq<ScreenChar>

  function Blank(color: nat): ScreenChar {
    ScreenChar(0x20, color)
  }

  function BlankRow(color: nat): Row {
    seq(WIDTH, i => Blank(color))
  }

  // All rows ever started; writing happens in the last one.
  datatype Terminal = Terminal(rows: seq<Row>, column: nat)

  ghost predicate Valid(t: Terminal) {
    && |t.rows| >= HEIGHT && t.column <= WIDTH
    && forall i :: 0 <= i < |t.rows| ==> |t.rows[i]| == WIDTH
  }

  // What the hardware shows: the last 25 rows.
  function View(t: Terminal): seq<Row>
    requires |t.rows| >= HEIGHT
  {
    t.rows[|t.rows| - HEIGHT..]
  }

  function NewLine(t: Terminal, color: nat): Terminal {
    Terminal(t.rows + [BlankRow(color)], 0)
  }

  function PutAt(t: Terminal, cell: ScreenChar): Terminal
    requires Valid(t) && t.column < WIDTH
  {
    var last := |t.rows| - 1;
    Terminal(t.rows[last := t.rows[last][t.column := cell]], t.column + 1)
  }

  // A full row is left only when another character comes.
  function Put(t: Terminal, byte: nat, color: nat): (t': Terminal)
    requires Valid(t)
    ensures Valid(t')
  {
    if byte == NEWLINE then NewLine(t, color)
    else PutAt(if t.column >= WIDTH then NewLine(t, color) else t, ScreenChar(byte, color))
  }

  function Write(t: Terminal, text: seq<nat>, color: nat): (t': Terminal)
    requires Valid(t)
    ensures Valid(t')
    decreases |text|
  {
    if text == [] then t else Write(Put(t, text[0], color), text[1..], color)
  }

  lemma {:induction false} WriteConcat(t: Terminal, a: seq<nat>, b: seq<nat>, color: nat)
    requires Valid(t)
    ensures Write(t, a + b, color) == Write(Write(t, a, color), b, color)
    decreases |a|
  {
    if a == [] {
      assert a + b == b;
    } else {
      assert (a + b)[0] == a[0] && (a + b)[1..] == a[1..] + b;
      WriteConcat(Put(t, a[0], color), a[1..], b, color);
    }
  }

  // -------- the layout of a text, without any notion of time --------

  function Cells(text: seq<nat>, color: nat): (r: Row)
    ensures |r| == |text| && forall i :: 0 <= i < |text| ==> r[i] == ScreenChar(text[i], color)
  {
    seq(|text|, i requires 0 <= i < |text| => ScreenChar(text[i], color))
  }

  // Index of the first newline, or the length.
  function LineLength(text: seq<nat>): (n: nat)
    ensures n <= |text|
    ensures n < |text| ==> text[n] == NEWLINE
    ensures forall i :: 0 <= i < n ==> text[i] != NEWLINE
  {
    if text == [] || text[0] == NEWLINE then 0 else 1 + LineLength(text[1..])
  }

  // A logical line cut into rows of at most 80 cells; an empty line takes a row too.
  function Cut(line: Row): (rows: seq<Row>)
    ensures |rows| >= 1
    decreases |line|
  {
    if |line| <= WIDTH then [line] else [line[..WIDTH]] + Cut(line[WIDTH..])
  }

  // The rows of a text whose first line continues `prefix`.
  function Layout(prefix: Row, text: seq<nat>, color: nat): (rows: seq<Row>)
    ensures |rows| >= 1
    decreases |text|
  {
    var n := LineLength(text);
    var first := Cut(prefix + Cells(text[..n], color));
    if n == |text| then first else first + Layout([], text[n + 1..], color)
  }

  // The row as shown, on top of what was there.
  function Over(row: Row, background: Row): Row {
    if |row| <= |background| then row + background[|row|..] else row
  }

  function OverBlank(rows: seq<Row>, color: nat): seq<Row> {
    seq(|rows|, i requires 0 <= i < |rows| => Over(rows[i], BlankRow(color)))
  }

  // The rows on the terminal: the first one over the row that was being written.
  function Shown(rows: seq<Row>, current: Row, color: nat): seq<Row>
    requires |rows| >= 1
  {
    [Over(rows[0], current)] + OverBlank(rows[1..], color)
  }

  lemma {:induction false} LayoutNewline(prefix: Row, text: seq<nat>, color: nat)
    requires |prefix| <= WIDTH && text != [] && text[0] == NEWLINE
    ensures Layout(prefix, text, color) == [prefix] + Layout([], text[1..], color)
  {
    assert LineLength(text) == 0;
    assert prefix + Cells(text[..0], color) == prefix;
  }

  lemma {:induction false} LayoutUnfold(prefix: Row, text: seq<nat>, color: nat)
    ensures var n := LineLength(text);
      var first := Cut(prefix + Cells(text[..n], color));
      Layout(prefix, text, color) == if n == |text| then first else first + Layout([], text[n + 1..], color)
  {
  }

  lemma {:induction false} LineLengthStep(text: seq<nat>)
    requires text != [] && text[0] != NEWLINE
    ensures LineLength(text) == 1 + LineLength(text[1..])
  {
  }

  lemma {:induction false} CellsStep(text: seq<nat>, n: nat, color: nat)
    requires 1 <= n <= |text|
    ensures Cells(text[..n], color) == [ScreenChar(text[0], color)] + Cells(text[1..][..n - 1], color)
    ensures n < |text| ==> text[n + 1..] == text[1..][n..]
  {
  }

  lemma {:induction false} LayoutPut(prefix: Row, text: seq<nat>, color: nat)
    requires |prefix| < WIDTH && text != [] && text[0] != NEWLINE
    ensures Layout(prefix, text, color) == Layout(prefix + [ScreenChar(text[0], color)], text[1..], color)
  {
    var cell := ScreenChar(text[0], color);
    var n, rest := LineLength(text), text[1..];
    LineLengthStep(text);
    LayoutUnfold(prefix, text, color);
    LayoutUnfold(prefix + [cell], rest, color);
    hide Layout, Cut, LineLength;
    CellsStep(text, n, color);
    assert prefix + ([cell] + Cells(rest[..n - 1], color)) == prefix + [cell] + Cells(rest[..n - 1], color);
  }

  lemma {:induction false} LayoutWrap(prefix: Row, text: seq<nat>, color: nat)
    requires |prefix| == WIDTH && text != [] && text[0] != NEWLINE
    ensures Layout(prefix, text, color) == [prefix] + Layout([ScreenChar(text[0], color)], text[1..], color)
  {
    var cell := ScreenChar(text[0], color);
    var n, rest := LineLength(text), text[1..];
    LineLengthStep(text);
    var line := prefix + Cells(text[..n], color);
    var line' := [cell] + Cells(rest[..n - 1], color);
    assert line[..WIDTH] == prefix && line[WIDTH..] == line';
    assert Cut(line) == [prefix] + Cut(line');
    assert n < |text| ==> text[n + 1..] == rest[n..];
  }

  // Where the terminal ends up.
  function Final(t: Terminal, rows: seq<Row>, color: nat): Terminal
    requires Valid(t) && |rows| >= 1
  {
    var last := |t.rows| - 1;
    Terminal(t.rows[..last] + Shown(rows, t.rows[last], color), |rows[|rows| - 1]|)
  }

  // Started rows keep what they show; a new row begins blank.
  lemma {:induction false} FinalAfterNewLine(t: Terminal, rows: seq<Row>, color: nat)
    requires Valid(t) && |rows| >= 1
    ensures var last := t.rows[|t.rows| - 1];
      Final(NewLine(t, color), rows, color) == Final(t, [last[..t.column]] + rows, color)
  {
    var n := |t.rows| - 1;
    var last := t.rows[n];
    var all := [last[..t.column]] + rows;
    var t' := NewLine(t, color);
    assert last[..t.column] + last[t.column..] == last;
    assert t'.rows[..n + 1] == t.rows[..n] + [last];
    assert all[1..] == rows;
    assert OverBlank(rows, color) == [Over(rows[0], BlankRow(color))] + OverBlank(rows[1..], color);
  }

  lemma {:induction false} FinalAfterPut(t: Terminal, cell: ScreenChar, rows: seq<Row>, color: nat)
    requires Valid(t) && t.column < WIDTH && |rows| >= 1 && t.column < |rows[0]| <= WIDTH
    ensures Final(PutAt(t, cell), rows, color) == Final(t, rows, color)
  {
    var n := |t.rows| - 1;
    var t' := PutAt(t, cell);
    assert t'.rows[..n] == t.rows[..n];
    assert t'.rows[n][|rows[0]|..] == t.rows[n][|rows[0]|..];
  }

  lemma {:induction false} LayoutStartsWith(prefix: Row, text: seq<nat>, color: nat)
    requires |prefix| <= WIDTH
    ensures |prefix| <= |Layout(prefix, text, color)[0]| <= WIDTH
  {
  }

  lemma {:induction false} NothingIsFinal(t: Terminal, color: nat)
    requires Valid(t)
    ensures var prefix := t.rows[|t.rows| - 1][..t.column];
      t == Final(t, Layout(prefix, [], color), color)
  {
    var last := t.rows[|t.rows| - 1];
    var prefix := last[..t.column];
    assert Layout(prefix, [], color) == [prefix] by { assert prefix + Cells([], color) == prefix; }
    assert prefix + last[t.column..] == last;
    assert t.rows[..|t.rows| - 1] + [last] == t.rows;
  }

  // Writing byte by byte, wrapping only when a character does not fit any more, shows
  // exactly the text cut into lines and the lines cut into rows.
  lemma {:induction false} WriteIsLayout(t: Terminal, text: seq<nat>, color: nat)
    requires Valid(t)
    ensures var prefix := t.rows[|t.rows| - 1][..t.column];
      Write(t, text, color) == Final(t, Layout(prefix, text, color), color)
    decreases |text|
  {
    var last := t.rows[|t.rows| - 1];
    var prefix := last[..t.column];
    hide Layout, Final;
    if text == [] {
      NothingIsFinal(t, color);
    } else {
      var t' := Put(t, text[0], color);
      var rest := text[1..];
      WriteIsLayout(t', rest, color);
      var prefix' := t'.rows[|t'.rows| - 1][..t'.column];
      var cell := ScreenChar(text[0], color);
      if text[0] == NEWLINE {
        LayoutNewline(prefix, text, color);
        assert prefix' == [];
        FinalAfterNewLine(t, Layout([], rest, color), color);
      } else if t.column < WIDTH {
        LayoutPut(prefix, text, color);
        assert prefix' == prefix + [cell];
        LayoutStartsWith(prefix', rest, color);
        FinalAfterPut(t, cell, Layout(prefix', rest, color), color);
      } else {
        LayoutWrap(prefix, text, color);
        assert prefix' == [cell];
        LayoutStartsWith(prefix', rest, color);
        FinalAfterPut(NewLine(t, color), cell, Layout(prefix', rest, color), color);
        FinalAfterNewLine(t, Layout(prefix', rest, color), color);
      }
    }
  }
}
