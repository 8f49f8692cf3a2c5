/** The text console of kernel/console.cpp: a `kRows x (kColumns + 1)`
    character buffer and a (row, column) cursor.

    Drawing glyphs and clearing pixels (`WriteAscii`, `WriteString`,
    `writer_.Write`) are effects on the framebuffer that leave the buffer
    and cursor alone, so the model keeps only the buffer and the cursor.
    `kRows` and `kColumns` come from console.hpp, which is not part of this
    model; they are carried in the state as `rows` and `columns`, fixed at
    construction and positive. */
module TextConsole {

  /** The terminator of a C string and the value of a cleared cell. */
  const Nul: char := '\0'

  datatype Console = Console(rows: nat, columns: nat, buf: seq<seq<char>>, cursorRow: nat, cursorColumn: nat)
  {
    /** Every row has `columns + 1` cells; the cursor is on a row and at
        most one past the last printable column. */
    predicate Valid()
    {
      && rows > 0
      && columns > 0
      && |buf| == rows
      && (forall r :: 0 <= r < rows ==> |buf[r]| == columns + 1)
      && cursorRow < rows
      && cursorColumn <= columns
    }
  }

  /** Every row keeps a NUL in its extra last cell, so that a row handed
      to `WriteString` ends inside the row. */
  ghost predicate RowsTerminated(c: Console)
    requires c.Valid()
  {
    forall r :: 0 <= r < c.rows ==> c.buf[r][c.columns] == Nul
  }

  /** Two consoles differ at most in the cell (row, column). */
  ghost predicate SameExceptCell(c: Console, d: Console, row: nat, column: nat)
    requires c.Valid() && d.Valid() && c.rows == d.rows && c.columns == d.columns
  {
    forall r, i :: 0 <= r < c.rows && 0 <= i <= c.columns && (r != row || i != column) ==>
      d.buf[r][i] == c.buf[r][i]
  }

  /** A row of cleared cells (the `memset` of the last row). */
  function BlankRow(columns: nat): (row: seq<char>)
    ensures |row| == columns + 1
    ensures forall i :: 0 <= i < |row| ==> row[i] == Nul
  {
    seq(columns + 1, _ => Nul)
  }

  /** The constructor: zeroed buffer, cursor at the top-left cell. */
  function NewConsole(rows: nat, columns: nat): (c: Console)
    requires rows > 0 && columns > 0
    ensures c.Valid() && c.rows == rows && c.columns == columns
    ensures c.cursorRow == 0 && c.cursorColumn == 0
    ensures forall r, i :: 0 <= r < rows && 0 <= i <= columns ==> c.buf[r][i] == Nul
    ensures RowsTerminated(c)
  {
    Console(rows, columns, seq(rows, _ => BlankRow(columns)), 0, 0)
  }

  /** `NewLine`: back to column 0 and down one row; on the last row the
      buffer scrolls up by one row instead and the last row is cleared. */
  function NewLine(c: Console): (d: Console)
    requires c.Valid()
    ensures d.Valid() && d.rows == c.rows && d.columns == c.columns
    ensures d.cursorColumn == 0
    ensures c.cursorRow < c.rows - 1 ==> d.cursorRow == c.cursorRow + 1 && d.buf == c.buf
    ensures c.cursorRow == c.rows - 1 ==>
              && d.cursorRow == c.cursorRow
              && (forall r :: 0 <= r < c.rows - 1 ==> d.buf[r] == c.buf[r + 1])
              && d.buf[c.rows - 1] == BlankRow(c.columns)
    ensures RowsTerminated(c) ==> RowsTerminated(d)
  {
    if c.cursorRow < c.rows - 1 then
      c.(cursorRow := c.cursorRow + 1, cursorColumn := 0)
    else
      c.(buf := c.buf[1..] + [BlankRow(c.columns)], cursorColumn := 0)
  }

  /** One iteration of the `PutString` loop for a character other than NUL:
      a newline moves the cursor; another character is stored and the
      column advances, unless the row is already full, in which case the
      character is dropped. */
  function PutChar(c: Console, ch: char): (d: Console)
    requires c.Valid() && ch != Nul
    ensures d.Valid() && d.rows == c.rows && d.columns == c.columns
    ensures ch == '\n' ==> d == NewLine(c)
    ensures ch != '\n' && c.cursorColumn == c.columns ==> d == c
    ensures ch != '\n' && c.cursorColumn < c.columns ==>
              && d.cursorRow == c.cursorRow
              && d.cursorColumn == c.cursorColumn + 1
              && d.buf[c.cursorRow][c.cursorColumn] == ch
              && SameExceptCell(c, d, c.cursorRow, c.cursorColumn)
    ensures RowsTerminated(c) ==> RowsTerminated(d)
  {
    if ch == '\n' then NewLine(c)
    else if c.cursorColumn < c.columns then
      var row := c.buf[c.cursorRow][c.cursorColumn := ch];
      c.(buf := c.buf[c.cursorRow := row], cursorColumn := c.cursorColumn + 1)
    else
      c
  }

  /** `PutString`: feed characters up to the first NUL (or the end of the
      sequence). */
  function PutString(c: Console, s: seq<char>): (d: Console)
    requires c.Valid()
    ensures d.Valid() && d.rows == c.rows && d.columns == c.columns
    ensures RowsTerminated(c) ==> RowsTerminated(d)
    decreases |s|
  {
    if |s| == 0 || s[0] == Nul then c
    else PutString(PutChar(c, s[0]), s[1..])
  }

  /** Whatever follows the first NUL is never looked at. */
  lemma {:induction false} PutStringStopsAtNul(c: Console, s: seq<char>, rest: seq<char>)
    requires c.Valid()
    requires Nul !in s
    ensures PutString(c, s + [Nul] + rest) == PutString(c, s)
    decreases |s|
  {
    if |s| > 0 {
      assert (s + [Nul] + rest)[1..] == s[1..] + [Nul] + rest;
      PutStringStopsAtNul(PutChar(c, s[0]), s[1..], rest);
    }
  }

  /** Printing two NUL-free pieces one after the other is printing their
      concatenation. */
  lemma {:induction false} PutStringConcat(c: Console, s: seq<char>, t: seq<char>)
    requires c.Valid()
    requires Nul !in s
    ensures PutString(c, s + t) == PutString(PutString(c, s), t)
    decreases |s|
  {
    if |s| == 0 {
      assert s + t == t;
    } else {
      assert (s + t)[0] == s[0];
      assert (s + t)[1..] == s[1..] + t;
      PutStringConcat(PutChar(c, s[0]), s[1..], t);
    }
  }

  /** The cursor row after a NUL-free string: one row down per newline,
      held at the last row once the console scrolls. */
  lemma {:induction false} PutStringRow(c: Console, s: seq<char>)
    requires c.Valid()
    requires Nul !in s
    ensures PutString(c, s).cursorRow == Min(c.rows - 1, c.cursorRow + multiset(s)['\n'])
    decreases |s|
  {
    if |s| > 0 {
      assert s == [s[0]] + s[1..];
      assert multiset(s)['\n'] == multiset([s[0]])['\n'] + multiset(s[1..])['\n'];
      PutStringRow(PutChar(c, s[0]), s[1..]);
    }
  }

  function Min(a: int, b: int): int
  {
    if a <= b then a else b
  }

  /** A NUL- and newline-free string that fits in the rest of the row is
      written into the row at the cursor, the column moves past it, and no
      other cell changes. */
  lemma {:induction false} PutStringWritesRow(c: Console, s: seq<char>)
    requires c.Valid()
    requires Nul !in s && '\n' !in s
    requires c.cursorColumn + |s| <= c.columns
    ensures var d := PutString(c, s);
            && d.cursorRow == c.cursorRow
            && d.cursorColumn == c.cursorColumn + |s|
            && d.buf[c.cursorRow][c.cursorColumn..c.cursorColumn + |s|] == s
            && (forall r, i ::
                  (0 <= r < c.rows && 0 <= i <= c.columns
                   && (r != c.cursorRow || i < c.cursorColumn || c.cursorColumn + |s| <= i)) ==>
                  d.buf[r][i] == c.buf[r][i])
    decreases |s|
  {
    if |s| > 0 {
      var c1 := PutChar(c, s[0]);
      PutStringWritesRow(c1, s[1..]);
      var d := PutString(c1, s[1..]);
      assert d == PutString(c, s);
      var row := c.cursorRow;
      var col := c.cursorColumn;
      assert d.buf[row][col] == s[0] by {
        assert d.buf[row][col] == c1.buf[row][col];
      }
      forall i | 0 <= i < |s|
        ensures d.buf[row][col + i] == s[i]
      {
        if i > 0 {
          assert d.buf[row][col + 1 .. col + |s|][i - 1] == s[1..][i - 1];
        }
      }
    }
  }

  /** Once the row is full, everything up to the next newline is dropped. */
  lemma {:induction false} PutStringFullRowDrops(c: Console, s: seq<char>)
    requires c.Valid()
    requires c.cursorColumn == c.columns
    requires Nul !in s && '\n' !in s
    ensures PutString(c, s) == c
    decreases |s|
  {
    if |s| > 0 {
      PutStringFullRowDrops(c, s[1..]);
    }
  }
}
