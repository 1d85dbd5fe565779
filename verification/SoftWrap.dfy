/**
 The editor's two soft-wrap layouts: the rows that are drawn, and the cell the
 cursor is put in, worked out independently of each other.
 */
module SoftWrap {
  /** A grapheme cluster: its text by number, its display width, its UTF-8 length. */
  datatype Grapheme = Grapheme(id: nat, width: nat, bytes: nat)

  type Row = seq<Grapheme>

  /** The buffer split at line feeds: at least one line, perhaps empty ones. */
  type Buffer = lines: seq<Row> | lines != [] witness [[]]

  function Width(row: Row): nat {
    if row == [] then 0 else Width(row[..|row| - 1]) + row[|row| - 1].width
  }

  function Flatten(rows: seq<Row>): Row {
    if rows == [] then [] else Flatten(rows[..|rows| - 1]) + rows[|rows| - 1]
  }

  /** Does the next cluster start a new row? An empty row takes anything. */
  predicate Wraps(current: Row, g: Grapheme, width: nat) {
    Width(current) + g.width > width && Width(current) > 0
  }

  /** Finished rows and the row being filled. */
  datatype Laid = Laid(done: seq<Row>, current: Row) {
    function Add(g: Grapheme, width: nat): Laid {
      if Wraps(current, g, width) then Laid(done + [current], [g]) else Laid(done, current + [g])
    }

    function Rows(): seq<Row> {
      done + [current]
    }
  }

  function Lay(line: Row, width: nat): Laid {
    if line == [] then Laid([], []) else Lay(line[..|line| - 1], width).Add(line[|line| - 1], width)
  }

  /** The rows of one line; a full last row of the buffer is followed by an empty one. */
  function LineRows(line: Row, width: nat, final: bool): (rows: seq<Row>)
    ensures rows != []
  {
    var laid := Lay(line, width);
    if line == [] then [[]] else laid.Rows() + if final && Width(laid.current) == width then [[]] else []
  }

  /** The rows of the first `n` lines. */
  function RowsThrough(lines: Buffer, width: nat, n: nat): seq<Row>
    requires n <= |lines|
  {
    if n == 0 then [] else RowsThrough(lines, width, n - 1) + LineRows(lines[n - 1], width, n == |lines|)
  }

  function AtLeastOne(width: nat): nat {
    if width == 0 then 1 else width
  }

  lemma Nothing(width: nat)
    ensures Lay([], width) == Laid([], []) && Width([]) == 0 && Bytes([]) == 0
  {
  }

  lemma LayAppend(line: Row, g: Grapheme, width: nat)
    ensures Lay(line + [g], width) == Lay(line, width).Add(g, width)
  {
    assert (line + [g])[..|line|] == line;
  }

  lemma WidthAppend(row: Row, g: Grapheme)
    ensures Width(row + [g]) == Width(row) + g.width && Bytes(row + [g]) == Bytes(row) + g.bytes
  {
    assert (row + [g])[..|row|] == row;
  }

  method VisualLines(lines: Buffer, columns: nat) returns (rows: seq<Row>)
    ensures rows == RowsThrough(lines, AtLeastOne(columns), |lines|)
  {
    hide Lay, Width;
    var width := AtLeastOne(columns);
    rows := [];
    for idx := 0 to |lines|
      invariant rows == RowsThrough(lines, width, idx)
    {
      var logical := lines[idx];
      if logical == [] {
        rows := rows + [[]];
      } else {
        var done, current, currentWidth := WrapLine(logical, width);
        rows := rows + (done + [current] + if idx + 1 == |lines| && currentWidth == width then [[]] else []);
      }
    }
  }

  method WrapLine(logical: Row, width: nat) returns (done: seq<Row>, current: Row, currentWidth: nat)
    ensures Laid(done, current) == Lay(logical, width) && currentWidth == Width(current)
  {
    hide Lay, Width;
    Nothing(width);
    done, current, currentWidth := [], [], 0;
    for k := 0 to |logical|
      invariant Laid(done, current) == Lay(logical[..k], width) && currentWidth == Width(current)
    {
      var g := logical[k];
      assert logical[..k + 1] == logical[..k] + [g];
      LayAppend(logical[..k], g, width);
      if currentWidth + g.width > width && currentWidth > 0 {
        done, current, currentWidth := done + [current], [], 0;
      }
      WidthAppend(current, g);
      assert [] + [g] == [g];
      current, currentWidth := current + [g], currentWidth + g.width;
    }
    assert logical[..|logical|] == logical;
  }

  // ----- The cursor ----------------------------------------------------------

  /** A cursor between clusters: before cluster `k` of line `i`, or at its end. */
  datatype Place = Place(i: nat, k: nat)

  predicate InBuffer(lines: Buffer, at: Place) {
    at.i < |lines| && at.k <= |lines[at.i]|
  }

  function Bytes(row: Row): nat {
    if row == [] then 0 else Bytes(row[..|row| - 1]) + row[|row| - 1].bytes
  }

  /** The byte offset where line `i` starts. */
  function LineStart(lines: Buffer, i: nat): nat
    requires i <= |lines|
  {
    if i == 0 then 0 else LineStart(lines, i - 1) + Bytes(lines[i - 1]) + 1
  }

  function Offset(lines: Buffer, at: Place): nat
    requires InBuffer(lines, at)
  {
    LineStart(lines, at.i) + Bytes(lines[at.i][..at.k])
  }

  datatype Cell = Cell(col: nat, row: nat)

  /** The cursor goes to the start of the row after the one it was counted in. */
  predicate Full(lines: Buffer, width: nat, at: Place)
    requires InBuffer(lines, at)
  {
    var line, current := lines[at.i], Lay(lines[at.i][..at.k], width).current;
    if at.k < |line| then Wraps(current, line[at.k], width) else Width(current) >= width
  }

  /** The cell of a place, from the layout of what stands before it on its line. */
  function CellOf(lines: Buffer, width: nat, at: Place): Cell
    requires InBuffer(lines, at)
  {
    var laid := Lay(lines[at.i][..at.k], width);
    var row := |RowsThrough(lines, width, at.i)| + |laid.done|;
    if Full(lines, width, at) then Cell(0, row + 1) else Cell(Width(laid.current), row)
  }

  /** Every cluster takes at least one byte. */
  predicate Real(lines: Buffer) {
    forall i, k :: 0 <= i < |lines| && 0 <= k < |lines[i]| ==> lines[i][k].bytes > 0
  }

  lemma {:induction false} LaterStart(lines: Buffer, i: nat, j: nat)
    requires i < j <= |lines|
    ensures LineStart(lines, i) + Bytes(lines[i]) < LineStart(lines, j)
  {
    if i < j - 1 {
      LaterStart(lines, i, j - 1);
    }
  }

  lemma {:induction false} LongerPrefix(row: Row, k: nat, n: nat)
    requires k <= n <= |row| && forall i :: 0 <= i < |row| ==> row[i].bytes > 0
    ensures Bytes(row[..k]) <= Bytes(row[..n])
    ensures k < n ==> Bytes(row[..k]) < Bytes(row[..n])
  {
    if k < n {
      assert row[..n][..n - 1] == row[..n - 1];
      LongerPrefix(row, k, n - 1);
    }
  }

  /** Places further on have larger offsets. */
  lemma OffsetsDiffer(lines: Buffer, here: Place, at: Place)
    requires Real(lines) && InBuffer(lines, here) && InBuffer(lines, at)
    requires here.i < at.i || (here.i == at.i && here.k <= at.k)
    ensures Offset(lines, here) == Offset(lines, at) <==> here == at
  {
    LongerPrefix(lines[here.i], here.k, |lines[here.i]|);
    assert lines[here.i][..|lines[here.i]|] == lines[here.i];
    if here.i < at.i {
      LaterStart(lines, here.i, at.i);
    } else {
      LongerPrefix(lines[here.i], here.k, at.k);
    }
  }

  /**
   Walks the buffer line by line up to the cursor, counting rows and bytes.
   `at` says which place the cursor's offset is.
   */
  method VisualCursor(lines: Buffer, columns: nat, target: nat, ghost at: Place) returns (cell: Cell)
    requires Real(lines) && InBuffer(lines, at) && target == Offset(lines, at)
    ensures cell == CellOf(lines, AtLeastOne(columns), at)
  {
    hide Real, Offset, Lay, RowsThrough, LineRows;
    var width := AtLeastOne(columns);
    var currentByte, row := 0, 0;
    NoRowsYet(lines, width);
    for idx := 0 to |lines|
      invariant idx <= at.i && (idx > 0 ==> at != Place(idx, 0))
      invariant currentByte == LineStart(lines, idx) && row == RowCount(lines, width, idx)
    {
      StartOfLine(lines, width, idx);
      OffsetsDiffer(lines, Place(idx, 0), at);
      if currentByte == target {
        return Cell(0, row);
      }
      var found;
      found, cell, currentByte, row := WalkLine(lines, width, idx, currentByte, row, target, at);
      if found {
        return;
      }
      if idx + 1 < |lines| {
        NextLine(lines, width, idx);
        currentByte, row := currentByte + 1, row + 1;
        StartOfLine(lines, width, idx + 1);
        OffsetsDiffer(lines, Place(idx + 1, 0), at);
        if currentByte == target {
          return Cell(0, row);
        }
      }
    }
    assert false;
  }

  function RowCount(lines: Buffer, width: nat, n: nat): nat
    requires n <= |lines|
  {
    |RowsThrough(lines, width, n)|
  }

  lemma NoRowsYet(lines: Buffer, width: nat)
    ensures RowCount(lines, width, 0) == 0
  {
  }

  lemma StartOfLine(lines: Buffer, width: nat, i: nat)
    requires i < |lines| && width > 0
    ensures Offset(lines, Place(i, 0)) == LineStart(lines, i)
    ensures CellOf(lines, width, Place(i, 0)) == Cell(0, RowCount(lines, width, i))
  {
    assert lines[i][..0] == [];
  }

  lemma NextLine(lines: Buffer, width: nat, i: nat)
    requires i + 1 < |lines|
    ensures RowCount(lines, width, i + 1) == RowCount(lines, width, i) + |Lay(lines[i], width).done| + 1
  {
  }

  /** One line of the walk. */
  method WalkLine(lines: Buffer, width: nat, idx: nat, startByte: nat, startRow: nat, target: nat, ghost at: Place)
    returns (found: bool, cell: Cell, currentByte: nat, row: nat)
    requires Real(lines) && InBuffer(lines, at) && target == Offset(lines, at) && width > 0
    requires idx < |lines| && idx <= at.i && startByte == LineStart(lines, idx) && startRow == RowCount(lines, width, idx)
    ensures found <==> at.i == idx
    ensures found ==> cell == CellOf(lines, width, at)
    ensures !found ==> currentByte == startByte + Bytes(lines[idx]) && row == startRow + |Lay(lines[idx], width).done|
  {
    hide Real, RowsThrough, LineStart, Lay, Width, Bytes;
    var logical := lines[idx];
    Nothing(width);
    currentByte, row := startByte, startRow;
    var col, lineWidth := 0, 0;
    for k := 0 to |logical|
      invariant at.i == idx ==> k <= at.k
      invariant currentByte == startByte + Bytes(logical[..k])
      invariant row == startRow + |Lay(logical[..k], width).done|
      invariant col == lineWidth == Width(Lay(logical[..k], width).current)
    {
      ghost var laid := Lay(logical[..k], width);
      var g := logical[k];
      if lineWidth + g.width > width && lineWidth > 0 {
        row, col, lineWidth := row + 1, 0, 0;
      }
      OffsetsDiffer(lines, Place(idx, k), at);
      if currentByte == target {
        return true, Cell(col, row), currentByte, row;
      }
      assert logical[..k + 1] == logical[..k] + [g];
      assert [] + [g] == [g];
      WidthAppend(laid.current, g);
      WidthAppend([], g);
      WidthAppend(logical[..k], g);
      LayAppend(logical[..k], g, width);
      col, lineWidth, currentByte := col + g.width, lineWidth + g.width, currentByte + g.bytes;
    }
    assert logical[..|logical|] == logical;
    OffsetsDiffer(lines, Place(idx, |logical|), at);
    if currentByte == target {
      return true, if col >= width then Cell(0, row + 1) else Cell(col, row), currentByte, row;
    }
    found, cell := false, Cell(0, 0);
  }

  // ----- The two layouts agree -----------------------------------------------

  /** The text before a place, line feeds left out. */
  function Before(lines: Buffer, at: Place): Row
    requires InBuffer(lines, at)
  {
    Flatten(lines[..at.i]) + lines[at.i][..at.k]
  }

  lemma {:induction false} FlattenConcat(a: seq<Row>, b: seq<Row>)
    ensures Flatten(a + b) == Flatten(a) + Flatten(b)
  {
    if b == [] {
      assert a + b == a;
    } else {
      assert (a + b)[..|a + b| - 1] == a + b[..|b| - 1];
      FlattenConcat(a, b[..|b| - 1]);
    }
  }

  lemma FlattenOne(row: Row)
    ensures Flatten([row]) == row
  {
    assert [row][..0] == [];
    assert Flatten([]) == [];
  }

  lemma OnlyRow(width: nat)
    ensures Lay([], width).Rows() == [[]]
  {
  }

  /** One more cluster is one more cluster of text. */
  lemma AddSpells(laid: Laid, g: Grapheme, width: nat)
    ensures Flatten(laid.Add(g, width).Rows()) == Flatten(laid.Rows()) + [g]
  {
    hide Flatten, Width;
    FlattenConcat(laid.done, [laid.current]);
    FlattenOne(laid.current);
    if Wraps(laid.current, g, width) {
      FlattenConcat(laid.Rows(), [[g]]);
      FlattenOne([g]);
    } else {
      FlattenConcat(laid.done, [laid.current + [g]]);
      FlattenOne(laid.current + [g]);
      assert Flatten(laid.done) + (laid.current + [g]) == Flatten(laid.done) + laid.current + [g];
    }
  }

  /** Wrapping a line drops nothing and reorders nothing. */
  lemma {:induction false} LaySpells(line: Row, width: nat)
    ensures Flatten(Lay(line, width).Rows()) == line
  {
    hide Flatten, Width;
    if line == [] {
      FlattenOne([]);
      OnlyRow(width);
    } else {
      var init, g := line[..|line| - 1], line[|line| - 1];
      LaySpells(init, width);
      AddSpells(Lay(init, width), g, width);
      assert line == init + [g];
    }
  }

  /** Row `r` of a layout starts with `start`, and the rows before it are `done`. */
  predicate Reaches(rows: seq<Row>, done: seq<Row>, start: Row) {
    done <= rows && |done| < |rows| && start <= rows[|done|]
  }

  /** The layout of a prefix is a prefix of the layout, up to its last row. */
  lemma {:induction false} LayPrefix(line: Row, width: nat, k: nat)
    requires k <= |line|
    ensures var part := Lay(line[..k], width); Reaches(Lay(line, width).Rows(), part.done, part.current)
    ensures k < |line| && Wraps(Lay(line[..k], width).current, line[k], width) ==>
      Reaches(Lay(line, width).Rows(), Lay(line[..k], width).Rows(), [])
  {
    if k == |line| {
      assert line[..k] == line;
    } else {
      var init, g := line[..|line| - 1], line[|line| - 1];
      assert init[..k] == line[..k];
      LayPrefix(init, width, k);
      assert line == init + [g];
      LayAppend(init, g, width);
      var part, before := Lay(line[..k], width), Lay(init, width);
      hide Lay, Wraps;
      AddReaches(before, g, width, part.done, part.current);
      if k == |line| - 1 {
        assert line[..k] == init;
      } else if Wraps(part.current, line[k], width) {
        AddReaches(before, g, width, part.Rows(), []);
      }
    }
  }

  /** Laying one more cluster keeps what was reached. */
  lemma AddReaches(laid: Laid, g: Grapheme, width: nat, done: seq<Row>, start: Row)
    requires Reaches(laid.Rows(), done, start)
    ensures Reaches(laid.Add(g, width).Rows(), done, start)
    ensures Wraps(laid.current, g, width) ==> Reaches(laid.Add(g, width).Rows(), laid.Rows(), [])
  {
    var rows, after := laid.Rows(), laid.Add(g, width).Rows();
    if Wraps(laid.current, g, width) {
      assert after == rows + [[g]];
    } else {
      assert after == laid.done + [laid.current + [g]];
      assert done <= laid.done;
    }
  }

  lemma {:induction false} RowsGrow(lines: Buffer, width: nat, n: nat, m: nat)
    requires n <= m <= |lines|
    ensures RowsThrough(lines, width, n) <= RowsThrough(lines, width, m)
    ensures n < m ==> RowsThrough(lines, width, n) + LineRows(lines[n], width, n + 1 == |lines|) <= RowsThrough(lines, width, m)
  {
    hide LineRows;
    if n < m - 1 {
      RowsGrow(lines, width, n, m - 1);
    }
  }

  lemma LineRowsSpell(line: Row, width: nat, final: bool)
    ensures Flatten(LineRows(line, width, final)) == line
  {
    hide Lay;
    var laid := Lay(line, width);
    LaySpells(line, width);
    FlattenOne([]);
    FlattenConcat(laid.Rows(), [[]]);
    assert laid.Rows() + [] == laid.Rows();
  }

  /** The drawn rows spell the lines. */
  lemma {:induction false} RowsSpell(lines: Buffer, width: nat, n: nat)
    requires n <= |lines|
    ensures Flatten(RowsThrough(lines, width, n)) == Flatten(lines[..n])
  {
    hide LineRows;
    if n > 0 {
      RowsSpell(lines, width, n - 1);
      assert lines[..n][..n - 1] == lines[..n - 1];
      LineRowsSpell(lines[n - 1], width, n == |lines|);
      FlattenConcat(RowsThrough(lines, width, n - 1), LineRows(lines[n - 1], width, n == |lines|));
    }
  }

  /** A cell of the drawn rows, and the text before it. */
  ghost predicate Shows(rows: seq<Row>, width: nat, cell: Cell, text: Row) {
    && cell.row < |rows|
    && cell.col < width
    && exists start: Row ::
         start <= rows[cell.row] && Width(start) == cell.col && Flatten(rows[..cell.row]) + start == text
  }

  lemma ShowsBy(rows: seq<Row>, width: nat, done: seq<Row>, start: Row, text: Row)
    requires Reaches(rows, done, start) && Width(start) < width && Flatten(done) + start == text
    ensures Shows(rows, width, Cell(Width(start), |done|), text)
  {
    hide Width, Flatten;
    assert rows[..|done|] == done;
    var cell := Cell(Width(start), |done|);
    assert start <= rows[cell.row] && Width(start) == cell.col && Flatten(rows[..cell.row]) + start == text;
  }

  /** Reaching within one line's rows is reaching within the whole drawing. */
  lemma ReachesWhole(rows: seq<Row>, before: seq<Row>, line: seq<Row>, done: seq<Row>, start: Row)
    requires before + line <= rows && Reaches(line, done, start)
    ensures Reaches(rows, before + done, start)
  {
    assert rows[|before| + |done|] == (before + line)[|before| + |done|] == line[|done|];
  }

  /** The rows of a line, its layout and perhaps an empty row after it. */
  lemma LayoutInRows(line: Row, width: nat, final: bool)
    requires width > 0
    ensures Lay(line, width).Rows() <= LineRows(line, width, final)
    ensures final && line != [] && Width(Lay(line, width).current) == width ==>
      LineRows(line, width, final) == Lay(line, width).Rows() + [[]]
    ensures !final || Width(Lay(line, width).current) != width ==> LineRows(line, width, final) == Lay(line, width).Rows()
  {
    if line == [] {
      OnlyRow(width);
    }
  }

  lemma PrefixReaches(rows: seq<Row>, more: seq<Row>, done: seq<Row>, start: Row)
    requires rows <= more && Reaches(rows, done, start)
    ensures Reaches(more, done, start)
  {
    assert more[|done|] == rows[|done|];
  }

  /**
   The two kinds of place the layouts cannot agree on: after an exactly full row
   with a cluster of no width next, and at the end of a buffer whose last row is
   wider than the screen.
   */
  predicate Misfit(lines: Buffer, width: nat, at: Place)
    requires InBuffer(lines, at)
  {
    var line, current := lines[at.i], Lay(lines[at.i][..at.k], width).current;
    || (at.k < |line| && line[at.k].width == 0 && Width(current) == width)
    || (at.k == |line| && at.i + 1 == |lines| && Width(current) > width)
  }

  /**
   For any clusters, the cursor's cell is one of the drawn rows, left of the
   right edge, and the rows before it with that many columns of its own row
   spell exactly the text before the cursor, unless the place is a misfit: then
   there is no such row or no such column.
   */
  lemma LayoutsAgreeUnlessMisfit(lines: Buffer, width: nat, at: Place)
    requires width > 0 && InBuffer(lines, at)
    ensures Shows(RowsThrough(lines, width, |lines|), width, CellOf(lines, width, at), Before(lines, at)) <==>
      !Misfit(lines, width, at)
  {
    hide Lay, Width, Flatten, RowsThrough, LineRows, Shows;
    if Full(lines, width, at) {
      if Misfit(lines, width, at) {
        NoRowLeft(lines, width, at);
        assert !Shows(RowsThrough(lines, width, |lines|), width, CellOf(lines, width, at), Before(lines, at)) by {
          ShownInside(RowsThrough(lines, width, |lines|), width, CellOf(lines, width, at), Before(lines, at));
        }
      } else {
        FullAgrees(lines, width, at);
      }
    } else if Misfit(lines, width, at) {
      ShownInside(RowsThrough(lines, width, |lines|), width, CellOf(lines, width, at), Before(lines, at));
    } else {
      RoomAgrees(lines, width, at);
    }
  }

  lemma ShownInside(rows: seq<Row>, width: nat, cell: Cell, text: Row)
    ensures Shows(rows, width, cell, text) ==> cell.row < |rows| && cell.col < width
  {
  }

  /** A place with room in its row is drawn there. */
  lemma RoomAgrees(lines: Buffer, width: nat, at: Place)
    requires width > 0 && InBuffer(lines, at) && !Full(lines, width, at) && !Misfit(lines, width, at)
    ensures Shows(RowsThrough(lines, width, |lines|), width, CellOf(lines, width, at), Before(lines, at))
  {
    hide Lay, Width, Flatten, RowsThrough, LineRows, Reaches, Shows;
    var line, final := lines[at.i], at.i + 1 == |lines|;
    var all, before := RowsThrough(lines, width, |lines|), RowsThrough(lines, width, at.i);
    var own, part := LineRows(line, width, final), Lay(line[..at.k], width);
    PlaceSpells(lines, width, at);
    LayPrefix(line, width, at.k);
    LayoutInRows(line, width, final);
    PrefixReaches(Lay(line, width).Rows(), own, part.done, part.current);
    RowsGrow(lines, width, at.i, |lines|);
    ReachesWhole(all, before, own, part.done, part.current);
    ShowsBy(all, width, before + part.done, part.current, Before(lines, at));
  }

  /** A place moved to the next row is drawn at its start. */
  lemma FullAgrees(lines: Buffer, width: nat, at: Place)
    requires width > 0 && InBuffer(lines, at) && Full(lines, width, at) && !Misfit(lines, width, at)
    ensures Shows(RowsThrough(lines, width, |lines|), width, CellOf(lines, width, at), Before(lines, at))
  {
    hide Lay, Width, Flatten, RowsThrough, LineRows, Reaches, Shows, Wraps;
    var line, final := lines[at.i], at.i + 1 == |lines|;
    var all, before := RowsThrough(lines, width, |lines|), RowsThrough(lines, width, at.i);
    var own, part := LineRows(line, width, final), Lay(line[..at.k], width);
    Nothing(width);
    PlaceSpells(lines, width, at);
    if at.k < |line| {
      LayPrefix(line, width, at.k);
      LayoutInRows(line, width, final);
      PrefixReaches(Lay(line, width).Rows(), own, part.Rows(), []);
      RowsGrow(lines, width, at.i, |lines|);
      ReachesWhole(all, before, own, part.Rows(), []);
    } else {
      assert line[..at.k] == line;
      EndOfLine(lines, width, at.i);
    }
    ShowsBy(all, width, before + part.Rows(), [], Before(lines, at));
  }

  /** The rows up to a place and the part of its own row spell the text before it. */
  lemma PlaceSpells(lines: Buffer, width: nat, at: Place)
    requires InBuffer(lines, at)
    ensures var part := Lay(lines[at.i][..at.k], width);
      && Flatten(RowsThrough(lines, width, at.i) + part.done) + part.current == Before(lines, at)
      && Flatten(RowsThrough(lines, width, at.i) + part.Rows()) + [] == Before(lines, at)
  {
    hide Lay, Flatten, RowsThrough;
    var before, part := RowsThrough(lines, width, at.i), Lay(lines[at.i][..at.k], width);
    RowsSpell(lines, width, at.i);
    LaySpells(lines[at.i][..at.k], width);
    FlattenConcat(part.done, [part.current]);
    FlattenOne(part.current);
    FlattenConcat(before, part.done);
    FlattenConcat(before, part.Rows());
  }

  /** An overfull last row of the buffer is followed by no other. */
  lemma NoRowLeft(lines: Buffer, width: nat, at: Place)
    requires width > 0 && InBuffer(lines, at) && Full(lines, width, at) && Misfit(lines, width, at)
    ensures CellOf(lines, width, at).row == |RowsThrough(lines, width, |lines|)|
  {
    hide Lay, Width, LineRows, RowsThrough;
    var line := lines[at.i];
    assert at.k == |line| && line[..at.k] == line;
    LayoutInRows(line, width, true);
    OneMoreLine(lines, width, at.i);
  }

  /** After a full row at the end of a line comes a row that starts where the cursor stands. */
  lemma EndOfLine(lines: Buffer, width: nat, i: nat)
    requires width > 0 && i < |lines| && Width(Lay(lines[i], width).current) >= width
    requires i + 1 == |lines| ==> Width(Lay(lines[i], width).current) == width
    ensures Reaches(RowsThrough(lines, width, |lines|), RowsThrough(lines, width, i) + Lay(lines[i], width).Rows(), [])
  {
    hide Lay, Width, RowsThrough, LineRows;
    var line, final := lines[i], i + 1 == |lines|;
    var rows := Lay(line, width).Rows();
    Nothing(width);
    LayoutInRows(line, width, final);
    RowsGrow(lines, width, i, |lines|);
    if final {
      ReachesWhole(RowsThrough(lines, width, |lines|), RowsThrough(lines, width, i), LineRows(line, width, final), rows, []);
    } else {
      RowsGrow(lines, width, i + 1, |lines|);
      OneMoreLine(lines, width, i);
      var next := LineRows(lines[i + 1], width, i + 2 == |lines|);
      assert Reaches(next, [], []);
      ReachesWhole(RowsThrough(lines, width, |lines|), RowsThrough(lines, width, i + 1), next, [], []);
      assert RowsThrough(lines, width, i + 1) + [] == RowsThrough(lines, width, i + 1);
    }
  }

  lemma OneMoreLine(lines: Buffer, width: nat, i: nat)
    requires i < |lines|
    ensures RowsThrough(lines, width, i + 1) == RowsThrough(lines, width, i) + LineRows(lines[i], width, i + 1 == |lines|)
  {
    hide LineRows;
  }

  // ----- Ordinary text -------------------------------------------------------

  /** Every cluster is visible and fits a row. */
  predicate Fitting(lines: Buffer, width: nat) {
    forall i, k :: 0 <= i < |lines| && 0 <= k < |lines[i]| ==> 1 <= lines[i][k].width <= width
  }

  lemma {:induction false} FittingRow(line: Row, width: nat)
    requires forall k :: 0 <= k < |line| ==> line[k].width <= width
    ensures Width(Lay(line, width).current) <= width
  {
    if line != [] {
      var init, g := line[..|line| - 1], line[|line| - 1];
      FittingRow(init, width);
      var laid := Lay(init, width);
      WidthAppend(laid.current, g);
      WidthAppend([], g);
      assert [] + [g] == [g];
    }
  }

  /** With clusters between one column and the full width the layouts agree everywhere. */
  lemma LayoutsAgree(lines: Buffer, width: nat, at: Place)
    requires width > 0 && Fitting(lines, width) && InBuffer(lines, at)
    ensures Shows(RowsThrough(lines, width, |lines|), width, CellOf(lines, width, at), Before(lines, at))
  {
    hide Lay, Width, Flatten, RowsThrough, LineRows, Shows;
    var line := lines[at.i];
    FittingRow(line[..at.k], width);
    LayoutsAgreeUnlessMisfit(lines, width, at);
  }

  /** Both kinds of misfit occur: an overwide cluster at the end, and one of no width after a full row. */
  lemma MisfitsDisagree()
    ensures var wide, at := [[Grapheme(0, 2, 3)]], Place(0, 1);
      !Shows(RowsThrough(wide, 1, 1), 1, CellOf(wide, 1, at), Before(wide, at))
    ensures var bare, at := [[Grapheme(0, 2, 1), Grapheme(1, 0, 2)]], Place(0, 1);
      !Shows(RowsThrough(bare, 2, 1), 2, CellOf(bare, 2, at), Before(bare, at))
  {
    hide Shows, CellOf, Before, RowsThrough;
    var w, a, z := Grapheme(0, 2, 3), Grapheme(0, 2, 1), Grapheme(1, 0, 2);
    assert [w][..0] == [] && [w][..1] == [w] && [a][..0] == [] && [a][..1] == [a] && [a, z][..1] == [a];
    assert Lay([w], 1) == Laid([], [w]);
    assert Lay([a], 2) == Laid([], [a]);
    assert Width([w]) == 2 && Width([a]) == 2;
    LayoutsAgreeUnlessMisfit([[w]], 1, Place(0, 1));
    LayoutsAgreeUnlessMisfit([[a, z]], 2, Place(0, 1));
  }
}
