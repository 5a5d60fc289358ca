/** The pass invariant is established, kept by every cell visited, and at
    the end yields the properties of the move pass. */
module MovePassProofs {
  import opened Actions
  import opened Grids
  import opened MovePass

  lemma InValues(g: Grid, q: Cell)
    requires q in g
    ensures g[q] in g.Values
  {
  }

  /** Before the first cell, the invariant follows from the board invariant. */
  lemma PassInvStart(b0: Board, areaX: int, areaY: int)
    requires WellFormed(b0, areaX, areaY)
    ensures PassInv(b0, b0, areaX, areaY, 0, 0)
  {
    forall q | q in b0.grid
      ensures exists q0 :: q0 in b0.grid && b0.grid[q0] == b0.grid[q] && Reachable(b0, q0, q)
    {
      assert Reachable(b0, q, q);
    }
    forall q0 | q0 in b0.grid
      ensures b0.grid[q0] in b0.grid.Values
    {
      InValues(b0.grid, q0);
    }
  }

  /** Visiting an empty cell changes nothing. */
  lemma StepEmpty(b0: Board, b: Board, areaX: int, areaY: int, r: int, c: int)
    requires PassInv(b0, b, areaX, areaY, r, c)
    requires Cell(r, c) !in b.grid
    ensures PassInv(b0, MoveCell(b, areaX, areaY, Cell(r, c)), areaX, areaY, r, c + 1)
  {
  }

  /** Visiting a tank hit by a beam erases it. */
  lemma StepErase(b0: Board, b: Board, areaX: int, areaY: int, r: int, c: int)
    requires PassInv(b0, b, areaX, areaY, r, c)
    requires Cell(r, c) in b.grid && b.destroyed[b.grid[Cell(r, c)]]
    ensures PassInv(b0, MoveCell(b, areaX, areaY, Cell(r, c)), areaX, areaY, r, c + 1)
  {
    var p := Cell(r, c);
    assert MoveCell(b, areaX, areaY, p) == b.(grid := b.grid - {p});
    EraseKept(b0, b, areaX, areaY, r, c);
    EraseFromStart(b0, b, areaX, areaY, r, c);
    EraseRest(b0, b, areaX, areaY, r, c);
  }

  lemma EraseKept(b0: Board, b: Board, areaX: int, areaY: int, r: int, c: int)
    requires PassInv(b0, b, areaX, areaY, r, c)
    requires Cell(r, c) in b.grid && b.destroyed[b.grid[Cell(r, c)]]
    ensures Kept(b0, b.(grid := b.grid - {Cell(r, c)}))
  {
    var b' := b.(grid := b.grid - {Cell(r, c)});
    forall q0 | q0 in b0.grid && !b'.destroyed[b0.grid[q0]]
      ensures b0.grid[q0] in b'.grid.Values
    {
      var q :| q in b.grid && b.grid[q] == b0.grid[q0];
      assert q in b'.grid && b'.grid[q] == b0.grid[q0];
    }
  }

  lemma EraseFromStart(b0: Board, b: Board, areaX: int, areaY: int, r: int, c: int)
    requires PassInv(b0, b, areaX, areaY, r, c)
    requires Cell(r, c) in b.grid
    ensures FromStart(b0, b.(grid := b.grid - {Cell(r, c)}))
  {
  }

  lemma EraseRest(b0: Board, b: Board, areaX: int, areaY: int, r: int, c: int)
    requires PassInv(b0, b, areaX, areaY, r, c)
    requires Cell(r, c) in b.grid && b.destroyed[b.grid[Cell(r, c)]]
    ensures var b' := b.(grid := b.grid - {Cell(r, c)});
      && WellFormed(b', areaX, areaY) && Framed(b0, b') && Relocated(b0, b')
      && Pending(b0, b', r, c + 1) && Visited(b0, b', r, c + 1) && Unmoved(b0, b', r, c + 1)
  {
  }

  /** A live tank without a move stays where it is. */
  lemma StepStay(b0: Board, b: Board, areaX: int, areaY: int, r: int, c: int)
    requires PassInv(b0, b, areaX, areaY, r, c)
    requires Cell(r, c) in b.grid && !b.destroyed[b.grid[Cell(r, c)]]
    requires !b.action[b.grid[Cell(r, c)]].IsMove()
    ensures PassInv(b0, MoveCell(b, areaX, areaY, Cell(r, c)), areaX, areaY, r, c + 1)
  {
    assert MoveCell(b, areaX, areaY, Cell(r, c)) == b;
  }

  /** The tank in an unvisited cell whose action is a move is at its start
      cell with its start action. */
  lemma MoverAtStart(b0: Board, b: Board, areaX: int, areaY: int, r: int, c: int)
    requires PassInv(b0, b, areaX, areaY, r, c)
    requires Cell(r, c) in b.grid && b.action[b.grid[Cell(r, c)]].IsMove()
    ensures AtStart(b0, b, Cell(r, c))
    ensures b.action[b.grid[Cell(r, c)]] == b0.action[b.grid[Cell(r, c)]]
    ensures b.destroyed[b.grid[Cell(r, c)]] == b0.destroyed[b.grid[Cell(r, c)]]
  {
  }

  /** A board with the tank at p erased and marked destroyed. */
  function Drop(b: Board, p: Cell): Board
    requires Sane(b) && p in b.grid
  {
    Board(b.grid - {p}, b.action, b.destroyed[b.grid[p] := true])
  }

  /** Erasing and destroying the tank in the cell being visited keeps the
      invariant (the roll-off case). */
  lemma StepDrop(b0: Board, b: Board, areaX: int, areaY: int, r: int, c: int)
    requires PassInv(b0, b, areaX, areaY, r, c)
    requires Cell(r, c) in b.grid
    ensures PassInv(b0, Drop(b, Cell(r, c)), areaX, areaY, r, c + 1)
  {
    DropAnywhere(b0, b, areaX, areaY, r, c, Cell(r, c));
    StepEmpty(b0, Drop(b, Cell(r, c)), areaX, areaY, r, c);
    assert MoveCell(Drop(b, Cell(r, c)), areaX, areaY, Cell(r, c)) == Drop(b, Cell(r, c));
  }

  /** Erasing a tank from any cell and marking it destroyed keeps the
      invariant. */
  lemma DropAnywhere(b0: Board, b: Board, areaX: int, areaY: int, r: int, c: int, d: Cell)
    requires PassInv(b0, b, areaX, areaY, r, c)
    requires d in b.grid
    ensures PassInv(b0, Drop(b, d), areaX, areaY, r, c)
  {
    DropShape(b0, b, areaX, areaY, r, c, d);
    DropFramed(b0, b, areaX, areaY, r, c, d);
    DropFromStart(b0, b, areaX, areaY, r, c, d);
    DropRelocated(b0, b, areaX, areaY, r, c, d);
    DropPending(b0, b, areaX, areaY, r, c, d);
    DropVisited(b0, b, areaX, areaY, r, c, d);
    DropUnmoved(b0, b, areaX, areaY, r, c, d);
    DropKept(b0, b, areaX, areaY, r, c, d);
  }

  lemma DroppedIdStarted(b0: Board, b: Board, areaX: int, areaY: int, r: int, c: int, d: Cell)
    requires PassInv(b0, b, areaX, areaY, r, c)
    requires d in b.grid
    ensures b.grid[d] in b0.grid.Values
    ensures forall q :: q in Drop(b, d).grid ==>
      Drop(b, d).grid[q] == b.grid[q] && b.grid[q] != b.grid[d]
  {
    var q0 :| q0 in b0.grid && b0.grid[q0] == b.grid[d] && Reachable(b0, q0, d);
    InValues(b0.grid, q0);
  }

  lemma DropShape(b0: Board, b: Board, areaX: int, areaY: int, r: int, c: int, d: Cell)
    requires PassInv(b0, b, areaX, areaY, r, c)
    requires d in b.grid
    ensures WellFormed(Drop(b, d), areaX, areaY)
  {
  }

  lemma DropFramed(b0: Board, b: Board, areaX: int, areaY: int, r: int, c: int, d: Cell)
    requires PassInv(b0, b, areaX, areaY, r, c)
    requires d in b.grid
    ensures Framed(b0, Drop(b, d))
  {
    DroppedIdStarted(b0, b, areaX, areaY, r, c, d);
  }

  lemma DropFromStart(b0: Board, b: Board, areaX: int, areaY: int, r: int, c: int, d: Cell)
    requires PassInv(b0, b, areaX, areaY, r, c)
    requires d in b.grid
    ensures FromStart(b0, Drop(b, d))
  {
    DroppedIdStarted(b0, b, areaX, areaY, r, c, d);
  }

  lemma DropRelocated(b0: Board, b: Board, areaX: int, areaY: int, r: int, c: int, d: Cell)
    requires PassInv(b0, b, areaX, areaY, r, c)
    requires d in b.grid
    ensures Relocated(b0, Drop(b, d))
  {
    DroppedIdStarted(b0, b, areaX, areaY, r, c, d);
  }

  lemma DropPending(b0: Board, b: Board, areaX: int, areaY: int, r: int, c: int, d: Cell)
    requires PassInv(b0, b, areaX, areaY, r, c)
    requires d in b.grid
    ensures Pending(b0, Drop(b, d), r, c)
  {
    DroppedIdStarted(b0, b, areaX, areaY, r, c, d);
  }

  lemma DropVisited(b0: Board, b: Board, areaX: int, areaY: int, r: int, c: int, d: Cell)
    requires PassInv(b0, b, areaX, areaY, r, c)
    requires d in b.grid
    ensures Visited(b0, Drop(b, d), r, c)
  {
    DroppedIdStarted(b0, b, areaX, areaY, r, c, d);
  }

  lemma DropUnmoved(b0: Board, b: Board, areaX: int, areaY: int, r: int, c: int, d: Cell)
    requires PassInv(b0, b, areaX, areaY, r, c)
    requires d in b.grid
    ensures Unmoved(b0, Drop(b, d), r, c)
  {
    DroppedIdStarted(b0, b, areaX, areaY, r, c, d);
  }

  lemma DropKept(b0: Board, b: Board, areaX: int, areaY: int, r: int, c: int, d: Cell)
    requires PassInv(b0, b, areaX, areaY, r, c)
    requires d in b.grid
    ensures Kept(b0, Drop(b, d))
  {
    DroppedIdStarted(b0, b, areaX, areaY, r, c, d);
    var b' := Drop(b, d);
    forall q0 | q0 in b0.grid && !b'.destroyed[b0.grid[q0]]
      ensures b0.grid[q0] in b'.grid.Values
    {
      var q :| q in b.grid && b.grid[q] == b0.grid[q0];
      assert q in b'.grid && b'.grid[q] == b0.grid[q0];
    }
  }

  /** Visiting a live tank whose move is blocked crashes it into the
      occupant: both are erased and marked destroyed. */
  lemma StepCrash(b0: Board, b: Board, areaX: int, areaY: int, r: int, c: int)
    requires PassInv(b0, b, areaX, areaY, r, c)
    requires Cell(r, c) in b.grid && !b.destroyed[b.grid[Cell(r, c)]]
    requires b.action[b.grid[Cell(r, c)]].IsMove()
    requires !OffBoard(Cell(r, c), b.action[b.grid[Cell(r, c)]], areaX, areaY)
    requires Dest(Cell(r, c), b.action[b.grid[Cell(r, c)]]) in b.grid
    ensures PassInv(b0, MoveCell(b, areaX, areaY, Cell(r, c)), areaX, areaY, r, c + 1)
  {
    var p := Cell(r, c);
    var d := Dest(p, b.action[b.grid[p]]);
    CrashIsTwoDrops(b, areaX, areaY, p);
    DropAnywhere(b0, b, areaX, areaY, r, c, d);
    StepDrop(b0, Drop(b, d), areaX, areaY, r, c);
  }

  lemma CrashIsTwoDrops(b: Board, areaX: int, areaY: int, p: Cell)
    requires Sane(b) && Injective(b.grid)
    requires p in b.grid && !b.destroyed[b.grid[p]] && b.action[b.grid[p]].IsMove()
    requires !OffBoard(p, b.action[b.grid[p]], areaX, areaY)
    requires Dest(p, b.action[b.grid[p]]) in b.grid
    ensures var d := Dest(p, b.action[b.grid[p]]);
      d != p && d in b.grid && p in Drop(b, d).grid &&
      MoveCell(b, areaX, areaY, p) == Drop(Drop(b, d), p)
  {
    var id := b.grid[p];
    var d := Dest(p, b.action[id]);
    assert d != p;
    assert b.grid[d] != id;
    assert Drop(Drop(b, d), p).destroyed == b.destroyed[id := true][b.grid[d] := true];
    assert Drop(Drop(b, d), p).grid == b.grid - {p, d};
  }

  /** The board after the tank at p has moved one step. */
  function Relocate(b: Board, p: Cell): Board
    requires Sane(b) && p in b.grid && b.action[b.grid[p]].IsMove()
  {
    var id := b.grid[p];
    var a := b.action[id];
    Board((b.grid - {p})[Dest(p, a) := id],
          if ResetsAfterMove(a) then b.action[id := Undefined] else b.action,
          b.destroyed)
  }

  /** Visiting a live tank whose move is free moves it one step. */
  lemma StepRelocate(b0: Board, b: Board, areaX: int, areaY: int, r: int, c: int)
    requires PassInv(b0, b, areaX, areaY, r, c)
    requires 0 <= r < areaY && 0 <= c < areaX
    requires Cell(r, c) in b.grid && !b.destroyed[b.grid[Cell(r, c)]]
    requires b.action[b.grid[Cell(r, c)]].IsMove()
    requires !OffBoard(Cell(r, c), b.action[b.grid[Cell(r, c)]], areaX, areaY)
    requires Dest(Cell(r, c), b.action[b.grid[Cell(r, c)]]) !in b.grid
    ensures PassInv(b0, MoveCell(b, areaX, areaY, Cell(r, c)), areaX, areaY, r, c + 1)
  {
    assert MoveCell(b, areaX, areaY, Cell(r, c)) == Relocate(b, Cell(r, c));
    RelocShape(b0, b, areaX, areaY, r, c);
    RelocFramed(b0, b, areaX, areaY, r, c);
    RelocFromStart(b0, b, areaX, areaY, r, c);
    RelocRelocated(b0, b, areaX, areaY, r, c);
    RelocPending(b0, b, areaX, areaY, r, c);
    RelocVisited(b0, b, areaX, areaY, r, c);
    RelocUnmoved(b0, b, areaX, areaY, r, c);
    RelocKept(b0, b, areaX, areaY, r, c);
  }

  lemma RelocFacts(b0: Board, b: Board, areaX: int, areaY: int, r: int, c: int)
    requires PassInv(b0, b, areaX, areaY, r, c)
    requires 0 <= r < areaY && 0 <= c < areaX
    requires Cell(r, c) in b.grid && !b.destroyed[b.grid[Cell(r, c)]]
    requires b.action[b.grid[Cell(r, c)]].IsMove()
    requires !OffBoard(Cell(r, c), b.action[b.grid[Cell(r, c)]], areaX, areaY)
    requires Dest(Cell(r, c), b.action[b.grid[Cell(r, c)]]) !in b.grid
    ensures var p := Cell(r, c); var id := b.grid[p]; var a := b.action[id]; var d := Dest(p, a);
      && AtStart(b0, b, p) && a == b0.action[id] && id in b0.grid.Values
      && InBounds(d, areaX, areaY) && d != p
      && (d in b0.grid ==> b0.grid[d] != id)
      && (Before(d, r, c + 1) <==> a == MoveUp || a == MoveLeft)
      && (forall q :: q in b.grid && q != p ==> b.grid[q] != id)
  {
    MoverAtStart(b0, b, areaX, areaY, r, c);
    InValues(b0.grid, Cell(r, c));
  }

  lemma RelocShape(b0: Board, b: Board, areaX: int, areaY: int, r: int, c: int)
    requires PassInv(b0, b, areaX, areaY, r, c)
    requires 0 <= r < areaY && 0 <= c < areaX
    requires Cell(r, c) in b.grid && !b.destroyed[b.grid[Cell(r, c)]]
    requires b.action[b.grid[Cell(r, c)]].IsMove()
    requires !OffBoard(Cell(r, c), b.action[b.grid[Cell(r, c)]], areaX, areaY)
    requires Dest(Cell(r, c), b.action[b.grid[Cell(r, c)]]) !in b.grid
    ensures WellFormed(Relocate(b, Cell(r, c)), areaX, areaY)
  {
    RelocFacts(b0, b, areaX, areaY, r, c);
  }

  lemma RelocFramed(b0: Board, b: Board, areaX: int, areaY: int, r: int, c: int)
    requires PassInv(b0, b, areaX, areaY, r, c)
    requires 0 <= r < areaY && 0 <= c < areaX
    requires Cell(r, c) in b.grid && !b.destroyed[b.grid[Cell(r, c)]]
    requires b.action[b.grid[Cell(r, c)]].IsMove()
    requires !OffBoard(Cell(r, c), b.action[b.grid[Cell(r, c)]], areaX, areaY)
    requires Dest(Cell(r, c), b.action[b.grid[Cell(r, c)]]) !in b.grid
    ensures Framed(b0, Relocate(b, Cell(r, c)))
  {
    RelocFacts(b0, b, areaX, areaY, r, c);
  }

  lemma RelocFromStart(b0: Board, b: Board, areaX: int, areaY: int, r: int, c: int)
    requires PassInv(b0, b, areaX, areaY, r, c)
    requires 0 <= r < areaY && 0 <= c < areaX
    requires Cell(r, c) in b.grid && !b.destroyed[b.grid[Cell(r, c)]]
    requires b.action[b.grid[Cell(r, c)]].IsMove()
    requires !OffBoard(Cell(r, c), b.action[b.grid[Cell(r, c)]], areaX, areaY)
    requires Dest(Cell(r, c), b.action[b.grid[Cell(r, c)]]) !in b.grid
    ensures FromStart(b0, Relocate(b, Cell(r, c)))
  {
    RelocFacts(b0, b, areaX, areaY, r, c);
    var p := Cell(r, c);
    var b' := Relocate(b, p);
    forall q | q in b'.grid
      ensures exists q0 :: q0 in b0.grid && b0.grid[q0] == b'.grid[q] && Reachable(b0, q0, q)
    {
      if q == Dest(p, b.action[b.grid[p]]) {
        assert Reachable(b0, p, q);
      } else {
        var q0 :| q0 in b0.grid && b0.grid[q0] == b.grid[q] && Reachable(b0, q0, q);
      }
    }
  }

  lemma RelocRelocated(b0: Board, b: Board, areaX: int, areaY: int, r: int, c: int)
    requires PassInv(b0, b, areaX, areaY, r, c)
    requires 0 <= r < areaY && 0 <= c < areaX
    requires Cell(r, c) in b.grid && !b.destroyed[b.grid[Cell(r, c)]]
    requires b.action[b.grid[Cell(r, c)]].IsMove()
    requires !OffBoard(Cell(r, c), b.action[b.grid[Cell(r, c)]], areaX, areaY)
    requires Dest(Cell(r, c), b.action[b.grid[Cell(r, c)]]) !in b.grid
    ensures Relocated(b0, Relocate(b, Cell(r, c)))
  {
    RelocFacts(b0, b, areaX, areaY, r, c);
  }

  lemma RelocPending(b0: Board, b: Board, areaX: int, areaY: int, r: int, c: int)
    requires PassInv(b0, b, areaX, areaY, r, c)
    requires 0 <= r < areaY && 0 <= c < areaX
    requires Cell(r, c) in b.grid && !b.destroyed[b.grid[Cell(r, c)]]
    requires b.action[b.grid[Cell(r, c)]].IsMove()
    requires !OffBoard(Cell(r, c), b.action[b.grid[Cell(r, c)]], areaX, areaY)
    requires Dest(Cell(r, c), b.action[b.grid[Cell(r, c)]]) !in b.grid
    ensures Pending(b0, Relocate(b, Cell(r, c)), r, c + 1)
  {
    RelocFacts(b0, b, areaX, areaY, r, c);
  }

  lemma RelocVisited(b0: Board, b: Board, areaX: int, areaY: int, r: int, c: int)
    requires PassInv(b0, b, areaX, areaY, r, c)
    requires 0 <= r < areaY && 0 <= c < areaX
    requires Cell(r, c) in b.grid && !b.destroyed[b.grid[Cell(r, c)]]
    requires b.action[b.grid[Cell(r, c)]].IsMove()
    requires !OffBoard(Cell(r, c), b.action[b.grid[Cell(r, c)]], areaX, areaY)
    requires Dest(Cell(r, c), b.action[b.grid[Cell(r, c)]]) !in b.grid
    ensures Visited(b0, Relocate(b, Cell(r, c)), r, c + 1)
  {
    RelocFacts(b0, b, areaX, areaY, r, c);
  }

  lemma RelocUnmoved(b0: Board, b: Board, areaX: int, areaY: int, r: int, c: int)
    requires PassInv(b0, b, areaX, areaY, r, c)
    requires 0 <= r < areaY && 0 <= c < areaX
    requires Cell(r, c) in b.grid && !b.destroyed[b.grid[Cell(r, c)]]
    requires b.action[b.grid[Cell(r, c)]].IsMove()
    requires !OffBoard(Cell(r, c), b.action[b.grid[Cell(r, c)]], areaX, areaY)
    requires Dest(Cell(r, c), b.action[b.grid[Cell(r, c)]]) !in b.grid
    ensures Unmoved(b0, Relocate(b, Cell(r, c)), r, c + 1)
  {
    RelocFacts(b0, b, areaX, areaY, r, c);
  }

  lemma RelocKept(b0: Board, b: Board, areaX: int, areaY: int, r: int, c: int)
    requires PassInv(b0, b, areaX, areaY, r, c)
    requires 0 <= r < areaY && 0 <= c < areaX
    requires Cell(r, c) in b.grid && !b.destroyed[b.grid[Cell(r, c)]]
    requires b.action[b.grid[Cell(r, c)]].IsMove()
    requires !OffBoard(Cell(r, c), b.action[b.grid[Cell(r, c)]], areaX, areaY)
    requires Dest(Cell(r, c), b.action[b.grid[Cell(r, c)]]) !in b.grid
    ensures Kept(b0, Relocate(b, Cell(r, c)))
  {
    RelocFacts(b0, b, areaX, areaY, r, c);
    var p := Cell(r, c);
    var b' := Relocate(b, p);
    var d := Dest(p, b.action[b.grid[p]]);
    forall q0 | q0 in b0.grid && !b'.destroyed[b0.grid[q0]]
      ensures b0.grid[q0] in b'.grid.Values
    {
      var q :| q in b.grid && b.grid[q] == b0.grid[q0];
      if q == p {
        assert d in b'.grid && b'.grid[d] == b0.grid[q0];
      } else {
        assert q in b'.grid && b'.grid[q] == b0.grid[q0];
      }
    }
  }

  /** Visiting one cell keeps the invariant, whatever the cell holds. */
  lemma StepCell(b0: Board, b: Board, areaX: int, areaY: int, r: int, c: int)
    requires PassInv(b0, b, areaX, areaY, r, c)
    requires 0 <= r < areaY && 0 <= c < areaX
    ensures PassInv(b0, MoveCell(b, areaX, areaY, Cell(r, c)), areaX, areaY, r, c + 1)
  {
    var p := Cell(r, c);
    if p !in b.grid {
      StepEmpty(b0, b, areaX, areaY, r, c);
    } else if b.destroyed[b.grid[p]] {
      StepErase(b0, b, areaX, areaY, r, c);
    } else if !b.action[b.grid[p]].IsMove() {
      StepStay(b0, b, areaX, areaY, r, c);
    } else if OffBoard(p, b.action[b.grid[p]], areaX, areaY) {
      StepDrop(b0, b, areaX, areaY, r, c);
      assert MoveCell(b, areaX, areaY, p) == Drop(b, p);
    } else if Dest(p, b.action[b.grid[p]]) in b.grid {
      StepCrash(b0, b, areaX, areaY, r, c);
    } else {
      StepRelocate(b0, b, areaX, areaY, r, c);
    }
  }

  /** The end of a row is the start of the next one. */
  lemma NextRow(b0: Board, b: Board, areaX: int, areaY: int, r: int)
    requires PassInv(b0, b, areaX, areaY, r, areaX)
    ensures PassInv(b0, b, areaX, areaY, r + 1, 0)
  {
  }

  lemma {:induction false} InvAfterRows(b0: Board, areaX: nat, areaY: nat, r: nat)
    requires WellFormed(b0, areaX, areaY) && r <= areaY
    ensures PassInv(b0, AfterRows(b0, areaX, areaY, r), areaX, areaY, r, 0)
    decreases r, 0, 0
  {
    if r == 0 {
      PassInvStart(b0, areaX, areaY);
    } else {
      InvAfterCells(b0, areaX, areaY, r - 1, areaX);
      NextRow(b0, AfterCells(b0, areaX, areaY, r - 1, areaX), areaX, areaY, r - 1);
    }
  }

  lemma {:induction false} InvAfterCells(b0: Board, areaX: nat, areaY: nat, r: nat, c: nat)
    requires WellFormed(b0, areaX, areaY) && r < areaY && c <= areaX
    ensures PassInv(b0, AfterCells(b0, areaX, areaY, r, c), areaX, areaY, r, c)
    decreases r, 1, c
  {
    if c == 0 {
      InvAfterRows(b0, areaX, areaY, r);
    } else {
      InvAfterCells(b0, areaX, areaY, r, c - 1);
      StepCell(b0, AfterCells(b0, areaX, areaY, r, c - 1), areaX, areaY, r, c - 1);
    }
  }

  /** After the whole pass the board invariant holds again, no destroyed
      tank is left in the grid, nothing outside the grid was touched, flags
      were only set, and every live tank is still in the grid. */
  lemma MovePhaseInvariant(b0: Board, areaX: nat, areaY: nat)
    requires WellFormed(b0, areaX, areaY)
    ensures var b := MovePhase(b0, areaX, areaY);
      && WellFormed(b, areaX, areaY)
      && (forall q :: q in b.grid ==> !b.destroyed[b.grid[q]])
      && Framed(b0, b)
      && (forall q0 :: q0 in b0.grid ==> b.destroyed[b0.grid[q0]] || b0.grid[q0] in b.grid.Values)
      && (forall q :: q in b.grid ==>
            exists q0 :: q0 in b0.grid && b0.grid[q0] == b.grid[q] && Reachable(b0, q0, q))
  {
    InvAfterRows(b0, areaX, areaY, areaY);
  }

  /** Where each tank of the start grid ends up: a live one is in its start
      cell if it did not move, and exactly one step away if it did. */
  lemma MovePhaseFate(b0: Board, areaX: nat, areaY: nat, q0: Cell)
    requires WellFormed(b0, areaX, areaY) && q0 in b0.grid
    ensures var b := MovePhase(b0, areaX, areaY);
      var id := b0.grid[q0];
      var a := b0.action[id];
      !b.destroyed[id] ==>
        var q := if a.IsMove() then Dest(q0, a) else q0;
        q in b.grid && b.grid[q] == id
  {
    var b := MovePhase(b0, areaX, areaY);
    var id := b0.grid[q0];
    InvAfterRows(b0, areaX, areaY, areaY);
    if !b.destroyed[id] {
      var q :| q in b.grid && b.grid[q] == id;
      var q1 :| q1 in b0.grid && b0.grid[q1] == id && Reachable(b0, q1, q);
      assert q1 == q0;
      assert Before(q, areaY, 0);
    }
  }

  /** An edge test fails exactly when the destination is off the board:
      there is no wrap-around. */
  lemma OffBoardIffOutside(p: Cell, a: Action, areaX: int, areaY: int)
    requires InBounds(p, areaX, areaY) && a.IsMove()
    ensures OffBoard(p, a, areaX, areaY) <==> !InBounds(Dest(p, a), areaX, areaY)
  {
  }

  /** A tank whose move leads off the board ends the pass destroyed and
      out of the grid. */
  lemma MovePhaseOffBoard(b0: Board, areaX: nat, areaY: nat, q0: Cell)
    requires WellFormed(b0, areaX, areaY) && q0 in b0.grid
    requires b0.action[b0.grid[q0]].IsMove() && OffBoard(q0, b0.action[b0.grid[q0]], areaX, areaY)
    ensures var b := MovePhase(b0, areaX, areaY);
      b.destroyed[b0.grid[q0]] && b0.grid[q0] !in b.grid.Values
  {
    var b := MovePhase(b0, areaX, areaY);
    MovePhaseFate(b0, areaX, areaY, q0);
    MovePhaseInvariant(b0, areaX, areaY);
    OffBoardIffOutside(q0, b0.action[b0.grid[q0]], areaX, areaY);
  }

  /** A tank that moved has action UNDEFINED afterwards, except that a move
      up keeps MOVE_UP; in particular a tank that moved down or right into a
      cell still to be visited was not moved again. */
  lemma MovePhaseResets(b0: Board, areaX: nat, areaY: nat, q: Cell)
    requires WellFormed(b0, areaX, areaY)
    requires q in MovePhase(b0, areaX, areaY).grid
    requires !AtStart(b0, MovePhase(b0, areaX, areaY), q)
    ensures var b := MovePhase(b0, areaX, areaY);
      b.action[b.grid[q]] == (if b0.action[b.grid[q]] == MoveUp then MoveUp else Undefined)
  {
    InvAfterRows(b0, areaX, areaY, areaY);
  }
}
