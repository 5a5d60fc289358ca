/** What the move pass does to single tanks: a crash destroys both tanks,
    a tank nobody drives into stays where it is, and two neighbours that
    drive into each other both die. */
module MoveOutcomes {
  import opened Actions
  import opened Grids
  import opened MovePass
  import opened MovePassProofs

  /** The tank that starts the pass at p is live and its move leads into q. */
  ghost predicate Aims(b0: Board, p: Cell, q: Cell) {
    && p in b0.grid && b0.grid[p] < |b0.action| && b0.grid[p] < |b0.destroyed|
    && !b0.destroyed[b0.grid[p]] && b0.action[b0.grid[p]].IsMove()
    && Dest(p, b0.action[b0.grid[p]]) == q
  }

  /** The tank that started at q0 is still in q0 and not destroyed. */
  ghost predicate Stays(b0: Board, b: Board, q0: Cell)
    requires q0 in b0.grid
  {
    q0 in b.grid && b.grid[q0] == b0.grid[q0] && b0.grid[q0] < |b.destroyed| && !b.destroyed[b0.grid[q0]]
  }

  /** Visiting a cell whose tank does not drive into q0 leaves the tank
      of q0 in place and alive, unless that tank is the one visited and
      has a move. */
  lemma StaysStep(b0: Board, b: Board, areaX: int, areaY: int, r: int, c: int, q0: Cell)
    requires PassInv(b0, b, areaX, areaY, r, c)
    requires q0 in b0.grid && Stays(b0, b, q0)
    requires Cell(r, c) == q0 ==> !b0.action[b0.grid[q0]].IsMove()
    requires !Aims(b0, Cell(r, c), q0)
    ensures Stays(b0, MoveCell(b, areaX, areaY, Cell(r, c)), q0)
  {
    var p := Cell(r, c);
    if p in b.grid && !b.destroyed[b.grid[p]] && b.action[b.grid[p]].IsMove() {
      MoverAtStart(b0, b, areaX, areaY, r, c);
      assert p != q0;
      assert b.grid[p] != b0.grid[q0];
      var d := Dest(p, b.action[b.grid[p]]);
      assert d != q0;
      if !OffBoard(p, b.action[b.grid[p]], areaX, areaY) && d in b.grid {
        assert b.grid[d] != b0.grid[q0];
      }
    }
  }

  lemma {:induction false} StaysAfterRows(b0: Board, areaX: nat, areaY: nat, r: nat, q0: Cell)
    requires WellFormed(b0, areaX, areaY) && r <= areaY
    requires q0 in b0.grid && !b0.destroyed[b0.grid[q0]]
    requires b0.action[b0.grid[q0]].IsMove() ==> !Before(q0, r, 0)
    requires forall p :: Before(p, r, 0) ==> !Aims(b0, p, q0)
    ensures Stays(b0, AfterRows(b0, areaX, areaY, r), q0)
    decreases r, 0, 0
  {
    if r > 0 {
      StaysAfterCells(b0, areaX, areaY, r - 1, areaX, q0);
    }
  }

  lemma {:induction false} StaysAfterCells(b0: Board, areaX: nat, areaY: nat, r: nat, c: nat, q0: Cell)
    requires WellFormed(b0, areaX, areaY) && r < areaY && c <= areaX
    requires q0 in b0.grid && !b0.destroyed[b0.grid[q0]]
    requires b0.action[b0.grid[q0]].IsMove() ==> !Before(q0, r, c)
    requires forall p :: Before(p, r, c) ==> !Aims(b0, p, q0)
    ensures Stays(b0, AfterCells(b0, areaX, areaY, r, c), q0)
    decreases r, 1, c
  {
    if c == 0 {
      StaysAfterRows(b0, areaX, areaY, r, q0);
    } else {
      StaysAfterCells(b0, areaX, areaY, r, c - 1, q0);
      assert Before(Cell(r, c - 1), r, c);
      StaysVisit(b0, areaX, areaY, r, c - 1, q0);
    }
  }

  /** StaysStep for the visit of cell (r, c) of the pass. */
  lemma StaysVisit(b0: Board, areaX: nat, areaY: nat, r: nat, c: nat, q0: Cell)
    requires WellFormed(b0, areaX, areaY) && r < areaY && c < areaX
    requires q0 in b0.grid && Stays(b0, AfterCells(b0, areaX, areaY, r, c), q0)
    requires Cell(r, c) == q0 ==> !b0.action[b0.grid[q0]].IsMove()
    requires !Aims(b0, Cell(r, c), q0)
    ensures Stays(b0, AfterCells(b0, areaX, areaY, r, c + 1), q0)
  {
    InvAfterCells(b0, areaX, areaY, r, c);
    StaysStep(b0, AfterCells(b0, areaX, areaY, r, c), areaX, areaY, r, c, q0);
  }

  /** A live tank without a move that no live mover drives into ends the
      pass alive in its start cell. */
  lemma MovePhaseStays(b0: Board, areaX: nat, areaY: nat, q0: Cell)
    requires WellFormed(b0, areaX, areaY) && q0 in b0.grid
    requires !b0.destroyed[b0.grid[q0]] && !b0.action[b0.grid[q0]].IsMove()
    requires forall p :: !Aims(b0, p, q0)
    ensures var e := MovePhase(b0, areaX, areaY);
      q0 in e.grid && e.grid[q0] == b0.grid[q0] && !e.destroyed[b0.grid[q0]]
  {
    StaysAfterRows(b0, areaX, areaY, areaY, q0);
  }

  /** Destroyed flags set at some point of the pass are still set at any
      later point. */
  lemma {:induction false} DestroyedKept(b0: Board, areaX: nat, areaY: nat, r: nat, c: nat, r': nat, c': nat, i: nat)
    requires Sane(b0) && c <= areaX && c' <= areaX && (r < r' || (r == r' && c <= c'))
    requires i < |b0.destroyed| && AfterCells(b0, areaX, areaY, r, c).destroyed[i]
    ensures AfterCells(b0, areaX, areaY, r', c').destroyed[i]
    decreases r', c'
  {
    if r == r' && c == c' {
    } else if c' > 0 {
      DestroyedKept(b0, areaX, areaY, r, c, r', c' - 1, i);
    } else {
      DestroyedKept(b0, areaX, areaY, r, c, r' - 1, areaX, i);
    }
  }

  /** A tank destroyed at some point of the pass ends it destroyed and out
      of the grid. */
  lemma Ended(b0: Board, areaX: nat, areaY: nat, r: nat, c: nat, i: nat)
    requires WellFormed(b0, areaX, areaY) && r < areaY && c <= areaX
    requires i < |b0.destroyed| && AfterCells(b0, areaX, areaY, r, c).destroyed[i]
    ensures var e := MovePhase(b0, areaX, areaY);
      e.destroyed[i] && i !in e.grid.Values
  {
    DestroyedKept(b0, areaX, areaY, r, c, areaY - 1, areaX, i);
    MovePhaseInvariant(b0, areaX, areaY);
    var e := MovePhase(b0, areaX, areaY);
    assert e == AfterCells(b0, areaX, areaY, areaY - 1, areaX);
    assert forall q :: q in e.grid ==> e.grid[q] != i;
  }

  /** A live mover whose destination is occupied when its cell is visited,
      whether by a tank still at its start, one that moved there or one hit
      by a beam, ends the pass destroyed and out of the grid, and so does
      the tank it drives into. */
  lemma MovePhaseCrash(b0: Board, areaX: nat, areaY: nat, p: Cell)
    requires WellFormed(b0, areaX, areaY) && InBounds(p, areaX, areaY)
    requires var b := AfterCells(b0, areaX, areaY, p.row, p.col);
      && p in b.grid && !b.destroyed[b.grid[p]] && b.action[b.grid[p]].IsMove()
      && !OffBoard(p, b.action[b.grid[p]], areaX, areaY)
      && Dest(p, b.action[b.grid[p]]) in b.grid
    ensures var b := AfterCells(b0, areaX, areaY, p.row, p.col);
      var e := MovePhase(b0, areaX, areaY);
      var mover := b.grid[p];
      var hit := b.grid[Dest(p, b.action[mover])];
      && p in b0.grid && mover == b0.grid[p] && b.action[mover] == b0.action[mover]
      && e.destroyed[mover] && mover !in e.grid.Values
      && e.destroyed[hit] && hit !in e.grid.Values
  {
    var r: nat, c: nat := p.row, p.col;
    var b := AfterCells(b0, areaX, areaY, r, c);
    var mover := b.grid[p];
    var d := Dest(p, b.action[mover]);
    var hit := b.grid[d];
    CrashMarksBoth(b0, areaX, areaY, r, c);
    Ended(b0, areaX, areaY, r, c + 1, mover);
    Ended(b0, areaX, areaY, r, c + 1, hit);
  }

  /** The visit of a crashing mover marks it and the tank it drives into. */
  lemma CrashMarksBoth(b0: Board, areaX: nat, areaY: nat, r: nat, c: nat)
    requires WellFormed(b0, areaX, areaY) && r < areaY && c < areaX
    requires var b := AfterCells(b0, areaX, areaY, r, c); var p := Cell(r, c);
      && p in b.grid && !b.destroyed[b.grid[p]] && b.action[b.grid[p]].IsMove()
      && !OffBoard(p, b.action[b.grid[p]], areaX, areaY)
      && Dest(p, b.action[b.grid[p]]) in b.grid
    ensures var b := AfterCells(b0, areaX, areaY, r, c); var p := Cell(r, c);
      var b1 := AfterCells(b0, areaX, areaY, r, c + 1);
      && p in b0.grid && b.grid[p] == b0.grid[p] && b.action[b.grid[p]] == b0.action[b.grid[p]]
      && b1.destroyed[b.grid[p]] && b1.destroyed[b.grid[Dest(p, b.action[b.grid[p]])]]
  {
    var b := AfterCells(b0, areaX, areaY, r, c);
    var p := Cell(r, c);
    InvAfterCells(b0, areaX, areaY, r, c);
    MoverAtStart(b0, b, areaX, areaY, r, c);
    CrashIsTwoDrops(b, areaX, areaY, p);
    assert AfterCells(b0, areaX, areaY, r, c + 1) == MoveCell(b, areaX, areaY, p);
  }

  /** Two live neighbours in a row, the left one moving right and the right
      one moving left, both end the pass destroyed and out of the grid,
      provided no other live mover drives into either cell. */
  lemma SymmetricCollision(b0: Board, areaX: nat, areaY: nat, p: Cell)
    requires WellFormed(b0, areaX, areaY)
    requires var p' := Cell(p.row, p.col + 1);
      && p in b0.grid && p' in b0.grid
      && !b0.destroyed[b0.grid[p]] && !b0.destroyed[b0.grid[p']]
      && b0.action[b0.grid[p]] == MoveRight && b0.action[b0.grid[p']] == MoveLeft
      && (forall q :: Aims(b0, q, p) || Aims(b0, q, p') ==> q == p || q == p')
    ensures var e := MovePhase(b0, areaX, areaY);
      var p' := Cell(p.row, p.col + 1);
      && e.destroyed[b0.grid[p]] && b0.grid[p] !in e.grid.Values
      && e.destroyed[b0.grid[p']] && b0.grid[p'] !in e.grid.Values
  {
    var p' := Cell(p.row, p.col + 1);
    assert InBounds(p, areaX, areaY) && InBounds(p', areaX, areaY);
    var r: nat, c: nat := p.row, p.col;
    StaysAfterCells(b0, areaX, areaY, r, c, p);
    StaysAfterCells(b0, areaX, areaY, r, c, p');
    var b := AfterCells(b0, areaX, areaY, r, c);
    InvAfterCells(b0, areaX, areaY, r, c);
    assert b.action[b.grid[p]] == MoveRight;
    assert Dest(p, MoveRight) == p';
    MovePhaseCrash(b0, areaX, areaY, p);
  }

  /** The start of the collision example: a board of 4 columns and 3
      rows with a tank at (2,2) moving right and one at (2,3) moving left. */
  function CollisionBoard(): Board {
    Board(map[Cell(2, 2) := 0, Cell(2, 3) := 1], [MoveRight, MoveLeft], [false, false])
  }

  lemma CollisionBoardFacts()
    ensures var b0 := CollisionBoard();
      && WellFormed(b0, 4, 3)
      && (forall q :: Aims(b0, q, Cell(2, 2)) || Aims(b0, q, Cell(2, 3)) ==> q == Cell(2, 2) || q == Cell(2, 3))
  {
  }

  /** The collision example: both tanks are destroyed, and the board is
      empty afterwards. */
  lemma CollisionExample()
    ensures var e := MovePhase(CollisionBoard(), 4, 3);
      e.destroyed == [true, true] && e.grid == map[]
  {
    var b0 := CollisionBoard();
    CollisionBoardFacts();
    SymmetricCollision(b0, 4, 3, Cell(2, 2));
    BothGone(MovePhase(b0, 4, 3));
  }

  /** A board of two tanks, both destroyed and neither in the grid, is empty. */
  lemma BothGone(e: Board)
    requires Sane(e) && |e.action| == 2
    requires e.destroyed[0] && 0 !in e.grid.Values && e.destroyed[1] && 1 !in e.grid.Values
    ensures e.destroyed == [true, true] && e.grid == map[]
  {
    ValuesCoverGrid(e.grid);
    assert e.grid.Keys == {};
  }

  /** Every occupied cell's tank is among the grid's values. */
  lemma ValuesCoverGrid(g: Grid)
    ensures forall q :: q in g ==> g[q] in g.Values
  {
  }
}
