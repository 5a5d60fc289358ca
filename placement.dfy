/** Setting up a world: the parameter check of the constructor and the
    choice of a cell for a new tank. */
module Placement {
  import opened Actions
  import opened Grids

  /** The constructor's check: no negative size or count and at least as
      many cells as tanks. */
  predicate ValidParameters(areaX: int, areaY: int, redCount: int, greenCount: int) {
    0 <= areaX && 0 <= areaY && 0 <= redCount && 0 <= greenCount && areaY * areaX >= redCount + greenCount
  }

  /** The first n cells of a board w wide, in row-major order. */
  function FirstCells(n: nat, w: nat): (cells: seq<Cell>)
    requires n == 0 || w > 0
    ensures |cells| == n
  {
    seq(n, k requires 0 <= k < n => Cell(k / w, k % w))
  }

  lemma DivBelow(k: nat, w: nat, h: nat)
    requires w > 0 && k < h * w
    ensures k / w < h
  {
  }

  /** Valid parameters leave room for every tank: the first
      redCount + greenCount cells are on the board and pairwise distinct. */
  lemma RoomForTanks(areaX: int, areaY: int, redCount: int, greenCount: int)
    requires ValidParameters(areaX, areaY, redCount, greenCount)
    ensures redCount + greenCount == 0 || areaX > 0
    ensures var cells := FirstCells(redCount + greenCount, areaX);
      && (forall k :: 0 <= k < |cells| ==> InBounds(cells[k], areaX, areaY))
      && (forall k, l :: 0 <= k < l < |cells| ==> cells[k] != cells[l])
  {
    var n := redCount + greenCount;
    if n > 0 {
      var cells := FirstCells(n, areaX);
      forall k | 0 <= k < n
        ensures InBounds(cells[k], areaX, areaY)
      {
        DivBelow(k, areaX, areaY);
      }
      forall k, l | 0 <= k < l < n
        ensures cells[k] != cells[l]
      {
      }
    }
  }

  /** row.size(): the occupied cells of row r among the columns below n. */
  function RowCount(g: Grid, r: int, n: nat): (k: nat)
    ensures k <= n
  {
    if n == 0 then 0 else RowCount(g, r, n - 1) + (if Cell(r, n - 1) in g then 1 else 0)
  }

  /** A row with fewer than n occupants has a free column below n, so the
      column draws can stop. */
  lemma {:induction false} FreeColumn(g: Grid, r: int, n: nat) returns (c: int)
    requires RowCount(g, r, n) < n
    ensures 0 <= c < n && Cell(r, c) !in g
  {
    if Cell(r, n - 1) in g {
      c := FreeColumn(g, r, n - 1);
    } else {
      c := n - 1;
    }
  }

  /** In a full row every column is taken, so no column draw ever
      succeeds. */
  lemma {:induction false} FullRow(g: Grid, r: int, n: nat)
    requires RowCount(g, r, n) == n
    ensures forall c :: 0 <= c < n ==> Cell(r, c) in g
  {
    if n > 0 {
      FullRow(g, r, n - 1);
    }
  }

  /** size_t arithmetic (64 bits). */
  const SizeMod: nat := 0x1_0000_0000_0000_0000

  /** The row test as written: `row.size() - areaX - 1 == 0` in unsigned
      arithmetic. */
  predicate RowFullAsWritten(size: nat, areaX: nat) {
    (size - areaX - 1) % SizeMod == 0
  }

  /** The evidently intended test: the row holds areaX tanks. */
  predicate RowFull(size: nat, areaX: nat) {
    size == areaX
  }

  /** The test as written never holds for a row of a board (areaX is a C
      int), not even a full one, so the row draw is never repeated. */
  lemma RowTestNeverHolds(size: nat, areaX: nat)
    requires size <= areaX < 0x8000_0000
    ensures !RowFullAsWritten(size, areaX)
  {
    var d: int := size - areaX - 1;
    var m: int := SizeMod;
    assert -m < d < 0;
    assert d % SizeMod == d + SizeMod;
  }

  /** A board 1 wide and 2 high with two tanks: once the first tank sits in
      row 0 and the second draw names row 0 again, the test as written lets
      the row through although it is full, and every column draw names the
      taken cell, so placement never ends. The intended test rejects the
      row. */
  lemma StuckPlacement()
    ensures ValidParameters(1, 2, 0, 2)
    ensures var g: Grid := map[Cell(0, 0) := 0];
      && RowCount(g, 0, 1) == 1
      && !RowFullAsWritten(RowCount(g, 0, 1), 1)
      && (forall draw: nat :: Cell(0, draw % 1) in g)
      && RowFull(RowCount(g, 0, 1), 1)
  {
    var g: Grid := map[Cell(0, 0) := 0];
    assert RowCount(g, 0, 1) == 1;
    RowTestNeverHolds(1, 1);
  }

  /** With the intended test, a row that passes it has a free column. */
  lemma IntendedRowHasRoom(g: Grid, r: int, areaX: nat) returns (c: int)
    requires !RowFull(RowCount(g, r, areaX), areaX)
    ensures 0 <= c < areaX && Cell(r, c) !in g
  {
    c := FreeColumn(g, r, areaX);
  }

  /** A new tank with id |arena| in a free cell of the board: the board
      invariant and the link between being on the board and being alive
      survive. */
  lemma PlaceKeepsBoard(b: Board, q: Cell, a: Action, areaX: int, areaY: int)
    requires WellFormed(b, areaX, areaY) && LiveOnBoard(b)
    requires InBounds(q, areaX, areaY) && q !in b.grid
    ensures var b' := Board(b.grid[q := |b.action|], b.action + [a], b.destroyed + [false]);
      WellFormed(b', areaX, areaY) && LiveOnBoard(b')
  {
    var n := |b.action|;
    var b' := Board(b.grid[q := n], b.action + [a], b.destroyed + [false]);
    forall i | 0 <= i < |b'.destroyed|
      ensures i in b'.grid.Values <==> !b'.destroyed[i]
    {
      if i < n {
        if i in b.grid.Values {
          var p :| p in b.grid && b.grid[p] == i;
          assert b'.grid[p] == i;
        }
        if i in b'.grid.Values {
          var p :| p in b'.grid && b'.grid[p] == i;
          assert p != q && b.grid[p] == i;
        }
      } else {
        assert b'.grid[q] == i;
      }
    }
  }

  /** g is g0 with cells[k] holding id n0 + k. */
  ghost predicate Extends(g0: Grid, g: Grid, cells: seq<Cell>, n0: nat) {
    && (forall q :: q in g <==> q in g0 || q in cells)
    && (forall q :: q in g0 ==> g[q] == g0[q])
    && (forall k :: 0 <= k < |cells| ==> g[cells[k]] == n0 + k)
  }

  lemma ExtendsStep(g0: Grid, g: Grid, cells: seq<Cell>, c: Cell, n0: nat)
    requires Extends(g0, g, cells, n0) && c !in g
    ensures Extends(g0, g[c := n0 + |cells|], cells + [c], n0)
  {
    var cs := cells + [c];
    forall k | 0 <= k < |cs|
      ensures g[c := n0 + |cells|][cs[k]] == n0 + k
    {
      if k < |cells| {
        assert cs[k] == cells[k] && cells[k] in g;
      }
    }
  }

  /** Placing a then b after it is placing a + b. */
  lemma ExtendsThen(g0: Grid, g1: Grid, g2: Grid, a: seq<Cell>, b: seq<Cell>, n0: nat)
    requires Extends(g0, g1, a, n0) && Extends(g1, g2, b, n0 + |a|)
    ensures Extends(g0, g2, a + b, n0)
  {
    var c := a + b;
    forall k | 0 <= k < |c|
      ensures g2[c[k]] == n0 + k
    {
      if k < |a| {
        assert c[k] == a[k] && a[k] in g1;
      } else {
        assert c[k] == b[k - |a|];
      }
    }
  }

  /** After the first n cells are placed on an empty grid, the others are
      still free. */
  lemma RestFree(g: Grid, cells: seq<Cell>, n: nat)
    requires n <= |cells| && Extends(map[], g, cells[..n], 0)
    requires forall k, l :: 0 <= k < l < |cells| ==> cells[k] != cells[l]
    ensures cells[..n] + cells[n..] == cells
    ensures forall k :: 0 <= k < |cells[n..]| ==> cells[n..][k] !in g
    ensures forall k, l :: 0 <= k < l < |cells[n..]| ==> cells[n..][k] != cells[n..][l]
  {
    assert cells[..n] + cells[n..] == cells;
    forall k | 0 <= k < |cells[n..]|
      ensures cells[n..][k] !in g
    {
      assert cells[n..][k] == cells[n + k];
    }
  }
}
