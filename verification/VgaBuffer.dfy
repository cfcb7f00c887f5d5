/**
 The VGA text writer: an in-place 25x80 buffer that shows the end of an unbounded
 terminal.
 */
module VgaBuffer {
  import opened Terminal
  import Screens = Terminal

  // write_string replaces what is neither printable ASCII nor a newline.
  function Printable(byte: nat): nat {
    if 0x20 <= byte <= 0x7e || byte == NEWLINE then byte else 0xfe
  }

  function Sanitized(text: seq<nat>): (r: seq<nat>)
    ensures |r| == |text| && forall i :: 0 <= i < |text| ==> r[i] == Printable(text[i])
  {
    seq(|text|, i requires 0 <= i < |text| => Printable(text[i]))
  }

  class Writer {
    var columnPosition: nat
    const colorCode: nat
    const buffer: array2<ScreenChar>
    // The terminal whose last rows the buffer holds.
    ghost var terminal: Terminal

    ghost predicate Shaped()
    {
      buffer.Length0 == HEIGHT && buffer.Length1 == WIDTH
    }

    // The rows on the screen.
    ghost function Screen(): (rows: seq<Row>)
      requires Shaped()
      reads buffer
      ensures |rows| == HEIGHT && forall r :: 0 <= r < HEIGHT ==> |rows[r]| == WIDTH
    {
      seq(HEIGHT, r requires 0 <= r < HEIGHT reads buffer => RowOf(r))
    }

    ghost function RowOf(r: nat): (row: Row)
      requires Shaped() && r < HEIGHT
      reads buffer
      ensures |row| == WIDTH && forall c :: 0 <= c < WIDTH ==> row[c] == buffer[r, c]
    {
      seq(WIDTH, c requires 0 <= c < WIDTH reads buffer => buffer[r, c])
    }

    ghost predicate Valid()
      reads this, buffer
    {
      && Shaped()
      && Screens.Valid(terminal)
      && columnPosition == terminal.column
      && Screen() == View(terminal)
    }

    // Any screen content may be what the writer starts from.
    constructor (buffer: array2<ScreenChar>, colorCode: nat)
      requires buffer.Length0 == HEIGHT && buffer.Length1 == WIDTH
      ensures Valid() && this.buffer == buffer && this.colorCode == colorCode
      ensures terminal == Terminal(Screen(), 0) && columnPosition == 0
    {
      this.columnPosition, this.colorCode, this.buffer := 0, colorCode, buffer;
      new;
      terminal := Terminal(Screen(), 0);
      assert View(terminal) == Screen();
    }

    // clear_row: every cell of one row becomes a blank in the current colour.
    method ClearRow(row: nat)
      requires Shaped() && row < HEIGHT
      modifies buffer
      ensures RowOf(row) == BlankRow(colorCode)
      ensures forall r, c :: 0 <= r < HEIGHT && 0 <= c < WIDTH && r != row ==> buffer[r, c] == old(buffer[r, c])
    {
      var blank := Blank(colorCode);
      for col := 0 to WIDTH
        invariant forall c :: 0 <= c < col ==> buffer[row, c] == blank
        invariant forall r, c :: 0 <= r < HEIGHT && 0 <= c < WIDTH && r != row ==> buffer[r, c] == old(buffer[r, c])
      {
        buffer[row, col] := blank;
      }
    }

    // Moves every row but the first one up, cell by cell and in place.
    method ShiftUp()
      requires Shaped()
      modifies buffer
      ensures forall r, c :: 0 <= r < HEIGHT - 1 && 0 <= c < WIDTH ==> buffer[r, c] == old(buffer[r + 1, c])
    {
      for row := 1 to HEIGHT
        invariant forall r, c :: 0 <= r < row - 1 && 0 <= c < WIDTH ==> buffer[r, c] == old(buffer[r + 1, c])
        invariant forall r, c :: row - 1 <= r < HEIGHT && 0 <= c < WIDTH ==> buffer[r, c] == old(buffer[r, c])
      {
        for col := 0 to WIDTH
          invariant forall r, c :: 0 <= r < row - 1 && 0 <= c < WIDTH ==> buffer[r, c] == old(buffer[r + 1, c])
          invariant forall c :: 0 <= c < col ==> buffer[row - 1, c] == old(buffer[row, c])
          invariant forall r, c :: row <= r < HEIGHT && 0 <= c < WIDTH ==> buffer[r, c] == old(buffer[r, c])
        {
          var character := buffer[row, col];
          buffer[row - 1, col] := character;
        }
      }
    }

    // new_line: scroll by one row and go back to its first column.
    method NewLine()
      requires Valid()
      modifies this, buffer
      ensures Valid() && columnPosition == 0
      ensures terminal == Screens.NewLine(old(terminal), colorCode)
      ensures Screen() == old(Screen())[1..] + [BlankRow(colorCode)]
    {
      ShiftUp();
      ClearRow(HEIGHT - 1);
      columnPosition := 0;
      terminal := Screens.NewLine(terminal, colorCode);
      forall r | 0 <= r < HEIGHT - 1
        ensures RowOf(r) == old(RowOf(r + 1))
      {
      }
      assert Screen() == old(Screen())[1..] + [BlankRow(colorCode)];
      assert View(terminal) == View(old(terminal))[1..] + [BlankRow(colorCode)];
    }

    method WriteByte(byte: nat)
      requires Valid()
      modifies this, buffer
      ensures Valid()
      ensures terminal == Put(old(terminal), byte, colorCode)
    {
      if byte == NEWLINE {
        NewLine();
      } else {
        if columnPosition >= WIDTH {
          NewLine();
        }
        WriteCell(ScreenChar(byte, colorCode));
      }
    }

    // Writes a character at the current position and advances.
    method WriteCell(cell: ScreenChar)
      requires Valid() && columnPosition < WIDTH
      modifies this, buffer
      ensures Valid()
      ensures terminal == PutAt(old(terminal), cell)
    {
      var row, col := HEIGHT - 1, columnPosition;
      buffer[row, col] := cell;
      columnPosition := columnPosition + 1;
      terminal := PutAt(terminal, cell);
      assert View(terminal) == View(old(terminal))[row := View(old(terminal))[row][col := cell]];
      forall r | 0 <= r < HEIGHT
        ensures RowOf(r) == View(terminal)[r]
      {
        assert old(Screen())[r] == old(RowOf(r)) == View(old(terminal))[r];
      }
    }

    // The bytes of a UTF-8 string, one by one.
    method WriteString(s: seq<nat>)
      requires Valid()
      modifies this, buffer
      ensures Valid()
      ensures terminal == Write(old(terminal), Sanitized(s), colorCode)
    {
      var i := 0;
      while i < |s|
        invariant 0 <= i <= |s| && Valid()
        invariant terminal == Write(old(terminal), Sanitized(s[..i]), colorCode)
      {
        if 0x20 <= s[i] <= 0x7e || s[i] == NEWLINE {
          WriteByte(s[i]);
        } else {
          WriteByte(0xfe);
        }
        assert Sanitized(s[..i + 1]) == Sanitized(s[..i]) + [Printable(s[i])];
        WriteOne(old(terminal), Sanitized(s[..i]), Printable(s[i]), colorCode);
        i := i + 1;
      }
      assert s[..i] == s;
    }
  }

  // Replacing what cannot be shown moves nothing: the text breaks into the same rows, and
  // replacing again changes nothing. A text is left alone exactly when it can be shown.
  lemma {:induction false} SanitizedKeepsLayout(prefix: Row, text: seq<nat>, color: nat)
    ensures var rows, rows' := Layout(prefix, text, color), Layout(prefix, Sanitized(text), color);
      |rows| == |rows'| && forall i :: 0 <= i < |rows| ==> |rows[i]| == |rows'[i]|
    ensures Sanitized(Sanitized(text)) == Sanitized(text)
    ensures Sanitized(text) == text <==>
            forall i :: 0 <= i < |text| ==> 0x20 <= text[i] <= 0x7e || text[i] == NEWLINE || text[i] == 0xfe
    decreases |text|
  {
    var text' := Sanitized(text);
    var n := LineLength(text);
    SanitizedLine(text);
    hide Cut, LineLength, Layout;
    LayoutUnfold(prefix, text, color);
    LayoutUnfold(prefix, text', color);
    CutLengths(prefix + Cells(text[..n], color), prefix + Cells(text'[..n], color));
    if n < |text| {
      assert Sanitized(text[n + 1..]) == text'[n + 1..];
      SanitizedKeepsLayout([], text[n + 1..], color);
    }
  }

  lemma {:induction false} SanitizedLine(text: seq<nat>)
    ensures LineLength(Sanitized(text)) == LineLength(text)
  {
    if text == [] {
    } else {
      assert Sanitized(text)[1..] == Sanitized(text[1..]);
      SanitizedLine(text[1..]);
    }
  }

  lemma {:induction false} CutLengths(a: Row, b: Row)
    requires |a| == |b|
    ensures |Cut(a)| == |Cut(b)| && forall i :: 0 <= i < |Cut(a)| ==> |Cut(a)[i]| == |Cut(b)[i]|
    decreases |a|
  {
    if |a| > WIDTH {
      CutLengths(a[WIDTH..], b[WIDTH..]);
    }
  }

  // What a byte does after any text from any screen: a newline starts a row of spaces in the
  // current colour; a printable byte appears at the cursor; every other one appears as the
  // square 0xfe.
  lemma {:induction false} ByteShown(t: Terminal, text: seq<nat>, byte: nat, color: nat)
    requires Screens.Valid(t)
    ensures var t' := Write(t, Sanitized(text + [byte]), color);
      && |View(t')| == 25 && |View(t')[24]| == 80
      && if byte == 10 then
           t'.column == 0 && forall i :: 0 <= i < 80 ==> View(t')[24][i] == ScreenChar(0x20, color)
         else
           && 1 <= t'.column <= 80
           && View(t')[24][t'.column - 1] == ScreenChar(if 0x20 <= byte <= 0x7e then byte else 0xfe, color)
  {
    assert Sanitized(text + [byte]) == Sanitized(text) + [Printable(byte)];
    WriteOne(t, Sanitized(text), Printable(byte), color);
    hide Write;
  }

  lemma {:induction false} WriteOne(t: Terminal, text: seq<nat>, byte: nat, color: nat)
    requires Screens.Valid(t)
    ensures Write(t, text + [byte], color) == Put(Write(t, text, color), byte, color)
  {
    WriteConcat(t, text, [byte], color);
    var t' := Write(t, text, color);
    assert Write(t', [byte], color) == Write(Put(t', byte, color), [], color);
  }

  // After printing a text, the screen is the last 25 rows of what was there and of the
  // text laid out behind it.
  lemma {:induction false} ScreenAfterWrite(t: Terminal, s: seq<nat>, color: nat)
    requires Screens.Valid(t)
    ensures var last := |t.rows| - 1;
      var rows := Layout(t.rows[last][..t.column], Sanitized(s), color);
      var shown := t.rows[..last] + Shown(rows, t.rows[last], color);
      var t' := Write(t, Sanitized(s), color);
      && View(t') == shown[|shown| - HEIGHT..]
      && t'.column == |rows[|rows| - 1]|
      && |t'.rows| == |t.rows| + |rows| - 1
  {
    WriteIsLayout(t, Sanitized(s), color);
  }

  // println of a printable text that fits on a line: it appears in the second last row,
  // above a blank one, whatever was on the screen. 80 characters still fit.
  lemma {:induction false} PrintlnOutput(t: Terminal, s: seq<nat>, color: nat)
    requires Screens.Valid(t) && |s| <= 80
    requires forall i :: 0 <= i < |s| ==> 0x20 <= s[i] <= 0x7e
    ensures var t' := Write(t, Sanitized([NEWLINE] + s + [NEWLINE]), color);
      && |View(t')| == 25 && |View(t')[23]| == 80 && |View(t')[24]| == 80
      && (forall i :: 0 <= i < 80 ==>
            View(t')[23][i] == ScreenChar(if i < |s| then s[i] else 0x20, color))
      && (forall i :: 0 <= i < 80 ==> View(t')[24][i] == ScreenChar(0x20, color))
      && t'.column == 0
  {
    var text := [NEWLINE] + s + [NEWLINE];
    assert Sanitized(text) == text;
    var prefix := t.rows[|t.rows| - 1][..t.column];
    WriteIsLayout(t, text, color);
    LayoutOfLine(prefix, s, color);
    hide Layout, LineLength, Cut, Write;
    assert Over([], BlankRow(color)) == BlankRow(color);
  }

  lemma {:induction false} LayoutOfLine(prefix: Row, s: seq<nat>, color: nat)
    requires |prefix| <= WIDTH && |s| <= WIDTH
    requires forall i :: 0 <= i < |s| ==> s[i] != NEWLINE
    ensures Layout(prefix, [NEWLINE] + s + [NEWLINE], color) == [prefix, Cells(s, color), []]
  {
    var line := s + [NEWLINE];
    var text := [NEWLINE] + s + [NEWLINE];
    LayoutNewline(prefix, text, color);
    assert text[1..] == line;
    LineOfPrintable(s);
    LayoutUnfold([], line, color);
    assert line[..|s|] == s && line[|s| + 1..] == [];
    assert [] + Cells(s, color) == Cells(s, color);
    assert Layout([], [], color) == [[]] by {
      assert [] + Cells([][..0], color) == [];
    }
  }

  // A line of more than 80 characters continues in the next row.
  lemma {:induction false} LongLineWraps(t: Terminal, s: seq<nat>, color: nat)
    requires Screens.Valid(t) && 80 < |s| <= 160
    requires forall i :: 0 <= i < |s| ==> 0x20 <= s[i] <= 0x7e
    ensures var t' := Write(t, Sanitized([NEWLINE] + s), color);
      && |View(t')| == 25 && |View(t')[23]| == 80 && |View(t')[24]| == 80
      && (forall i :: 0 <= i < 80 ==> View(t')[23][i] == ScreenChar(s[i], color))
      && (forall i :: 0 <= i < 80 ==>
            View(t')[24][i] == ScreenChar(if i + 80 < |s| then s[i + 80] else 0x20, color))
      && t'.column == |s| - 80
  {
    var text := [NEWLINE] + s;
    assert Sanitized(text) == text;
    var prefix := t.rows[|t.rows| - 1][..t.column];
    WriteIsLayout(t, text, color);
    LayoutOfLongLine(prefix, s, color);
    hide Layout, LineLength, Cut, Write;
  }

  lemma {:induction false} LayoutOfLongLine(prefix: Row, s: seq<nat>, color: nat)
    requires |prefix| <= WIDTH && 80 < |s| <= 160
    requires forall i :: 0 <= i < |s| ==> s[i] != NEWLINE
    ensures var cells := Cells(s, color);
      Layout(prefix, [NEWLINE] + s, color) == [prefix, cells[..80], cells[80..]]
  {
    var cells, text := Cells(s, color), [NEWLINE] + s;
    LayoutNewline(prefix, text, color);
    assert text[1..] == s;
    LayoutUnfold([], s, color);
    assert LineLength(s) == |s| && s[..|s|] == s && [] + cells == cells;
    assert Cut(cells) == [cells[..80]] + Cut(cells[80..]) && Cut(cells[80..]) == [cells[80..]];
  }

  lemma {:induction false} LineOfPrintable(s: seq<nat>)
    requires forall i :: 0 <= i < |s| ==> s[i] != NEWLINE
    ensures LineLength(s + [NEWLINE]) == |s|
  {
    if s == [] {
      assert s + [NEWLINE] == [NEWLINE];
    } else {
      assert (s + [NEWLINE])[1..] == s[1..] + [NEWLINE];
      LineOfPrintable(s[1..]);
      LineLengthStep(s + [NEWLINE]);
    }
  }
}
