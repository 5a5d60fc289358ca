/** The client reads back what the coordinator writes: decoding a snapshot
    recovers the board size and, cell by cell, whether a tank of which team
    stands there. */
module SnapshotDecoding {
  import opened Actions
  import opened Grids
  import opened Snapshots
  import opened Client

  /** INT_MAX: the board size is a C int on both sides of the pipe. */
  const IntMax: nat := 0x7FFF_FFFF

  /** The event k places after position i. */
  function At(p: seq<Event>, i: nat, k: nat): Event
    requires i + k < |p|
  {
    p[i + k]
  }

  /** The text `t` lies in the pipe from position i on. */
  ghost predicate WrittenAt(p: seq<Event>, i: nat, t: string) {
    i + |t| <= |p| && forall k {:trigger At(p, i, k)} :: 0 <= k < |t| ==> At(p, i, k) == Data(t[k])
  }

  /** How the client draws the cell the coordinator wrote for q. */
  function CellGlyph(grid: Grid, teams: seq<Team>, q: Cell): (g: Glyph)
    requires forall p :: p in grid ==> grid[p] < |teams|
    ensures g == Blank <==> q !in grid
    ensures g == GreenTank <==> q in grid && teams[grid[q]].Green?
    ensures g == RedTank <==> q in grid && teams[grid[q]].Red?
  {
    GlyphOf(CellChar(grid, teams, q))
  }

  /** The first `c` cells of row r as the client draws them. */
  function ExpectedRow(grid: Grid, teams: seq<Team>, r: int, c: nat): (row: seq<Glyph>)
    requires forall p :: p in grid ==> grid[p] < |teams|
    ensures |row| == c
  {
    if c == 0 then [] else ExpectedRow(grid, teams, r, c - 1) + [CellGlyph(grid, teams, Cell(r, c - 1))]
  }

  /** The first `r` rows of the board as the client draws them. */
  function ExpectedRows(grid: Grid, teams: seq<Team>, areaX: nat, r: nat): (rows: seq<seq<Glyph>>)
    requires forall p :: p in grid ==> grid[p] < |teams|
    ensures |rows| == r
  {
    if r == 0 then [] else ExpectedRows(grid, teams, areaX, r - 1) + [ExpectedRow(grid, teams, r - 1, areaX)]
  }

  /** Column j of the expected row r is the glyph of cell (r, j). */
  lemma {:induction false} ExpectedRowCells(grid: Grid, teams: seq<Team>, r: int, c: nat)
    requires forall p :: p in grid ==> grid[p] < |teams|
    ensures forall j :: 0 <= j < c ==> ExpectedRow(grid, teams, r, c)[j] == CellGlyph(grid, teams, Cell(r, j))
  {
    if c > 0 {
      ExpectedRowCells(grid, teams, r, c - 1);
    }
  }

  /** Row i of the expected rows is areaX wide and holds the glyphs of
      row i of the board. */
  lemma {:induction false} ExpectedRowsCells(grid: Grid, teams: seq<Team>, areaX: nat, r: nat)
    requires forall p :: p in grid ==> grid[p] < |teams|
    ensures forall i :: 0 <= i < r ==> |ExpectedRows(grid, teams, areaX, r)[i]| == areaX
    ensures forall i, j :: 0 <= i < r && 0 <= j < areaX ==>
      ExpectedRows(grid, teams, areaX, r)[i][j] == CellGlyph(grid, teams, Cell(i, j))
  {
    if r > 0 {
      var rows := ExpectedRows(grid, teams, areaX, r);
      var prev := ExpectedRows(grid, teams, areaX, r - 1);
      ExpectedRowsCells(grid, teams, areaX, r - 1);
      ExpectedRowCells(grid, teams, r - 1, areaX);
      forall i | 0 <= i < r
        ensures |rows[i]| == areaX && forall j :: 0 <= j < areaX ==> rows[i][j] == CellGlyph(grid, teams, Cell(i, j))
      {
        if i < r - 1 {
          assert rows[i] == prev[i];
          assert |prev[i]| == areaX;
          forall j | 0 <= j < areaX
            ensures rows[i][j] == CellGlyph(grid, teams, Cell(i, j))
          {
            assert prev[i][j] == CellGlyph(grid, teams, Cell(i, j));
          }
        } else {
          assert rows[i] == ExpectedRow(grid, teams, r - 1, areaX);
        }
      }
    }
  }

  lemma WrittenAtPrefix(p: seq<Event>, i: nat, t: string, u: string)
    requires WrittenAt(p, i, t + u)
    ensures WrittenAt(p, i, t) && WrittenAt(p, i + |t|, u)
  {
    forall k | 0 <= k < |t|
      ensures At(p, i, k) == Data(t[k])
    {
      assert At(p, i, k) == Data((t + u)[k]);
    }
    forall k | 0 <= k < |u|
      ensures At(p, i + |t|, k) == Data(u[k])
    {
      assert At(p, i, |t| + k) == Data((t + u)[|t| + k]);
    }
  }

  /** The fields of one written row are read back cell by cell. */
  lemma {:induction false} RowReadBack(grid: Grid, teams: seq<Team>, r: int, c: nat, p: seq<Event>, pos: nat)
    requires forall q :: q in grid ==> grid[q] < |teams|
    requires WrittenAt(p, pos, RowText(grid, teams, r, c))
    ensures ReadRow(p, pos, c) == (ExpectedRow(grid, teams, r, c), pos + 2 * c)
    decreases c
  {
    if c > 0 {
      var ch := CellChar(grid, teams, Cell(r, c - 1));
      WrittenAtPrefix(p, pos, RowText(grid, teams, r, c - 1), [ch, ',']);
      RowReadBack(grid, teams, r, c - 1, p, pos);
      RowTextShape(grid, teams, r, c - 1);
      var here := pos + 2 * (c - 1);
      assert At(p, here, 0) == Data([ch, ','][0]) && At(p, here, 1) == Data([ch, ','][1]);
      assert ReadField(p, here) == (Field(ch, true), here + 2);
    }
  }

  /** The fields of the written rows are read back row by row. */
  lemma {:induction false} RowsReadBack(grid: Grid, teams: seq<Team>, areaX: nat, r: nat, p: seq<Event>, pos: nat)
    requires forall q :: q in grid ==> grid[q] < |teams|
    requires WrittenAt(p, pos, BodyText(grid, teams, areaX, r))
    ensures ReadRows(p, pos, r, areaX).0 == ExpectedRows(grid, teams, areaX, r)
    ensures ReadRows(p, pos, r, areaX).1 == pos + |BodyText(grid, teams, areaX, r)|
    decreases r
  {
    if r > 0 {
      var prev := BodyText(grid, teams, areaX, r - 1);
      var row := RowText(grid, teams, r - 1, areaX);
      assert |row| == 2 * areaX by {
        RowTextShape(grid, teams, r - 1, areaX);
      }
      WrittenAtPrefix(p, pos, prev, row);
      RowsReadBack(grid, teams, areaX, r - 1, p, pos);
      var mid := pos + |prev|;
      RowReadBack(grid, teams, r - 1, areaX, p, mid);
      RowsStep(p, pos, r, areaX, ExpectedRows(grid, teams, areaX, r - 1), mid, ExpectedRow(grid, teams, r - 1, areaX), mid + |row|);
    }
  }

  /** Reading r rows is reading r - 1 rows and then one more. */
  lemma RowsStep(p: seq<Event>, pos: nat, r: nat, cols: nat, rows: seq<seq<Glyph>>, mid: nat, row: seq<Glyph>, end: nat)
    requires pos <= mid <= |p| && r > 0
    requires ReadRows(p, pos, r - 1, cols).0 == rows && ReadRows(p, pos, r - 1, cols).1 == mid
    requires ReadRow(p, mid, cols) == (row, end)
    ensures ReadRows(p, pos, r, cols).0 == rows + [row] && ReadRows(p, pos, r, cols).1 == end
  {
  }

  lemma IntMaxDigits(n: nat)
    requires n <= IntMax
    ensures |NatToString(n)| <= 10
  {
    assert Pow10(10) == 10_000_000_000;
    NatToStringLength(n, 10, Pow10(10));
  }

  /** Both size fields found: readGameBoardSize returns 0 with both
      numbers. */
  lemma SizeFound(p: seq<Event>, st: ClientState, f: seq<char>, next: nat, g: seq<char>, next': nat, x: int, y: int)
    requires st.pos <= |p|
    requires ScanField(p, st.pos, [], false) == Found(f, next) && Atoi(f) == x
    requires next <= |p| && ScanField(p, next, [], true) == Found(g, next') && Atoi(g) == y
    ensures ReadSize(p, st) == (Returned(0), ClientState(x, y, next'))
  {
  }

  /** A run of digits written with a trailing comma is collected up to the
      comma; `next` is the position after it. */
  lemma DigitsScan(p: seq<Event>, i: nat, s: seq<char>, next: nat, second: bool)
    requires |s| < BufferSize && forall k :: 0 <= k < |s| ==> IsDigit(s[k])
    requires next == i + |s| + 1 && WrittenAt(p, i, s + [','])
    ensures ScanField(p, i, [], second) == Found(s, next)
  {
    WrittenAtPrefix(p, i, s, [',']);
    assert At(p, i + |s|, 0) == Data([','][0]);
    forall k | 0 <= k < |s|
      ensures s[k] != ',' && p[i + k] == Data(s[k])
    {
      assert At(p, i, k) == Data(s[k]);
    }
    ScanFinds(p, i, [], s, second);
    assert [] + s == s;
  }

  /** One written size field is collected up to its comma and parses back
      to its number; `next` is the position after the comma. */
  lemma NumberReadBack(n: nat, p: seq<Event>, i: nat, next: nat, second: bool)
    requires n <= IntMax && next == i + |NatToString(n)| + 1
    requires WrittenAt(p, i, NatToString(n) + [','])
    ensures ScanField(p, i, [], second) == Found(NatToString(n), next)
    ensures Atoi(NatToString(n)) == n
  {
    IntMaxDigits(n);
    DigitsScan(p, i, NatToString(n), next, second);
    AtoiOfDigits(n);
  }

  /** Both fields of a written header are collected up to their commas and
      parse back to the two numbers; `mid` and `end` follow the two commas. */
  lemma HeaderScans(areaX: nat, areaY: nat, p: seq<Event>, i: nat, mid: nat, end: nat)
    requires areaX <= IntMax && areaY <= IntMax
    requires mid == i + |NatToString(areaX)| + 1 && end == i + |Header(areaX, areaY)|
    requires WrittenAt(p, i, Header(areaX, areaY))
    ensures mid <= |p|
    ensures ScanField(p, i, [], false) == Found(NatToString(areaX), mid)
    ensures ScanField(p, mid, [], true) == Found(NatToString(areaY), end)
    ensures Atoi(NatToString(areaX)) == areaX && Atoi(NatToString(areaY)) == areaY
  {
    var fx, fy := NatToString(areaX) + [','], NatToString(areaY) + [','];
    assert Header(areaX, areaY) == fx + fy;
    WrittenAtPrefix(p, i, fx, fy);
    NumberReadBack(areaX, p, i, mid, false);
    NumberReadBack(areaY, p, mid, end, true);
  }

  /** readGameBoardSize on a written header yields its two numbers and
      stops at `end`, right after it. */
  lemma HeaderReadBack(areaX: nat, areaY: nat, p: seq<Event>, st: ClientState, end: nat)
    requires areaX <= IntMax && areaY <= IntMax
    requires end == st.pos + |Header(areaX, areaY)|
    requires WrittenAt(p, st.pos, Header(areaX, areaY))
    ensures ReadSize(p, st) == (Returned(0), ClientState(areaX, areaY, end))
  {
    var mid := st.pos + |NatToString(areaX)| + 1;
    HeaderScans(areaX, areaY, p, st.pos, mid, end);
    SizeFound(p, st, NatToString(areaX), mid, NatToString(areaY), end, areaX, areaY);
  }

  /** Once the size read succeeds, printGameboard redraws the frame when
      the size changed and reads the rows of the new size. */
  lemma DrawnAfterSize(p: seq<Event>, st: ClientState, x: nat, y: nat, mid: nat, rows: seq<seq<Glyph>>, end: nat)
    requires st.pos <= |p| && mid <= |p|
    requires ReadSize(p, st) == (Returned(0), ClientState(x, y, mid))
    requires ReadRows(p, mid, y, x) == (rows, end)
    ensures PrintBoard(p, st) == (Drawn(x != st.x || y != st.y, rows), ClientState(x, y, end))
  {
    assert Count(x) == x && Count(y) == y;
  }

  /** A header written from st.pos on up to `mid` and the rows written from
      `mid` on up to `end` are drawn as the cells. */
  lemma DecodeAt(grid: Grid, teams: seq<Team>, areaX: nat, areaY: nat, p: seq<Event>, st: ClientState, mid: nat, end: nat)
    requires forall q :: q in grid ==> grid[q] < |teams|
    requires areaX <= IntMax && areaY <= IntMax
    requires mid == st.pos + |Header(areaX, areaY)| && end == mid + |BodyText(grid, teams, areaX, areaY)|
    requires WrittenAt(p, st.pos, Header(areaX, areaY)) && WrittenAt(p, mid, BodyText(grid, teams, areaX, areaY))
    ensures PrintBoard(p, st) ==
      (Drawn(areaX != st.x || areaY != st.y, ExpectedRows(grid, teams, areaX, areaY)), ClientState(areaX, areaY, end))
  {
    HeaderReadBack(areaX, areaY, p, st, mid);
    RowsReadBack(grid, teams, areaX, areaY, p, mid);
    DrawnAfterSize(p, st, areaX, areaY, mid, ExpectedRows(grid, teams, areaX, areaY), end);
  }

  /** The round trip: when printGameboard reads a snapshot that printGameBoard
      wrote, it ends right after it with the coordinator's size, redraws
      the frame exactly when the size changed, and draws every cell with
      the glyph of what stands there. */
  lemma DecodeSnapshot(grid: Grid, teams: seq<Team>, areaX: nat, areaY: nat, p: seq<Event>, st: ClientState)
    requires forall q :: q in grid ==> grid[q] < |teams|
    requires areaX <= IntMax && areaY <= IntMax
    requires WrittenAt(p, st.pos, Snapshot(grid, teams, areaX, areaY))
    ensures PrintBoard(p, st) ==
      (Drawn(areaX != st.x || areaY != st.y, ExpectedRows(grid, teams, areaX, areaY)),
       ClientState(areaX, areaY, st.pos + |Snapshot(grid, teams, areaX, areaY)|))
    ensures var d := PrintBoard(p, st).0;
      && d.Drawn? && |d.rows| == areaY
      && (forall i :: 0 <= i < areaY ==> |d.rows[i]| == areaX)
      && (forall i, j :: 0 <= i < areaY && 0 <= j < areaX ==> d.rows[i][j] == CellGlyph(grid, teams, Cell(i, j)))
  {
    ExpectedRowsCells(grid, teams, areaX, areaY);
    WrittenAtPrefix(p, st.pos, Header(areaX, areaY), BodyText(grid, teams, areaX, areaY));
    DecodeAt(grid, teams, areaX, areaY, p, st, st.pos + |Header(areaX, areaY)|, st.pos + |Snapshot(grid, teams, areaX, areaY)|);
  }
}
