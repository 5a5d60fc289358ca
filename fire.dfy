/** The fire pass of a round. Tanks are visited in row-major order; each
    one whose wait succeeded fires along its row or column. Beams mark every
    tank strictly between the shooter and the edge; nothing is erased, so
    every beam is traced on the grid as it was at the start of the round. */
module FirePass {
  import opened Actions
  import opened Grids

  /** Target t lies in the beam that a tank at s with action a fires. */
  predicate InBeam(s: Cell, a: Action, t: Cell) {
    match a
    case FireUp => t.col == s.col && t.row < s.row
    case FireDown => t.col == s.col && t.row > s.row
    case FireLeft => t.row == s.row && t.col < s.col
    case FireRight => t.row == s.row && t.col > s.col
    case _ => false
  }

  /** Some tank visited before (r, c) whose wait succeeded fires through t. */
  ghost predicate HitBefore(b0: Board, failed: set<nat>, r: int, c: int, t: Cell) {
    exists s :: s in b0.grid && Before(s, r, c) && b0.grid[s] < |b0.action|
      && b0.grid[s] !in failed && InBeam(s, b0.action[b0.grid[s]], t)
  }

  /** Some tank whose wait succeeded fires through t. */
  ghost predicate Hit(b0: Board, failed: set<nat>, t: Cell) {
    exists s :: s in b0.grid && b0.grid[s] < |b0.action|
      && b0.grid[s] !in failed && InBeam(s, b0.action[b0.grid[s]], t)
  }

  /** The tanks outside the grid are untouched and the grid is unchanged. */
  ghost predicate FireFrame(b0: Board, b: Board)
    requires Sane(b0)
  {
    && b.grid == b0.grid && |b.action| == |b0.action| && |b.destroyed| == |b0.destroyed|
    && (forall i :: 0 <= i < |b.action| && i !in b0.grid.Values ==>
          b.action[i] == b0.action[i] && b.destroyed[i] == b0.destroyed[i])
  }

  /** b is the board after the tanks in the cells before (r, c) have been
      waited for and have fired: a failed wait sets the action to
      UNDEFINED, and a tank is marked when some earlier shooter's beam
      passes through its cell. */
  ghost predicate FiredUpTo(b0: Board, failed: set<nat>, r: int, c: int, b: Board)
    requires Sane(b0)
  {
    && FireFrame(b0, b)
    && (forall t :: t in b0.grid ==>
          b.action[b0.grid[t]] ==
            (if Before(t, r, c) && b0.grid[t] in failed then Undefined else b0.action[b0.grid[t]]))
    && (forall t :: t in b0.grid ==>
          b.destroyed[b0.grid[t]] == (b0.destroyed[b0.grid[t]] || HitBefore(b0, failed, r, c, t)))
  }

  /** The whole fire pass, stated without reference to the visiting order. */
  ghost predicate Fired(b0: Board, failed: set<nat>, b: Board)
    requires Sane(b0)
  {
    && FireFrame(b0, b)
    && (forall t :: t in b0.grid ==>
          b.action[b0.grid[t]] == (if b0.grid[t] in failed then Undefined else b0.action[b0.grid[t]]))
    && (forall t :: t in b0.grid ==>
          b.destroyed[b0.grid[t]] == (b0.destroyed[b0.grid[t]] || Hit(b0, failed, t)))
  }

  /** Once every cell of the board has been visited, the order no longer
      matters. */
  lemma FiredAll(b0: Board, failed: set<nat>, areaX: int, areaY: int, b: Board)
    requires WellFormed(b0, areaX, areaY)
    requires FiredUpTo(b0, failed, areaY, 0, b)
    ensures Fired(b0, failed, b)
  {
    forall t | t in b0.grid
      ensures HitBefore(b0, failed, areaY, 0, t) == Hit(b0, failed, t)
    {
      if Hit(b0, failed, t) {
        var s :| s in b0.grid && b0.grid[s] < |b0.action|
          && b0.grid[s] !in failed && InBeam(s, b0.action[b0.grid[s]], t);
        assert Before(s, areaY, 0);
      }
    }
  }

  /** Before the first cell nothing has happened. */
  lemma FiredStart(b0: Board, failed: set<nat>, areaX: int, areaY: int)
    requires WellFormed(b0, areaX, areaY)
    ensures FiredUpTo(b0, failed, 0, 0, b0)
  {
    forall s | s in b0.grid
      ensures !Before(s, 0, 0)
    {
      assert InBounds(s, areaX, areaY);
    }
  }

  /** The shooters before (r, c+1) are those before (r, c) and the tank in
      cell (r, c), if its wait succeeded. */
  lemma HitBeforeStep(b0: Board, failed: set<nat>, r: int, c: int, t: Cell)
    ensures HitBefore(b0, failed, r, c + 1, t) <==>
      HitBefore(b0, failed, r, c, t) ||
      (Cell(r, c) in b0.grid && b0.grid[Cell(r, c)] < |b0.action| && b0.grid[Cell(r, c)] !in failed
       && InBeam(Cell(r, c), b0.action[b0.grid[Cell(r, c)]], t))
  {
    if HitBefore(b0, failed, r, c + 1, t) {
      var s :| s in b0.grid && Before(s, r, c + 1) && b0.grid[s] < |b0.action|
        && b0.grid[s] !in failed && InBeam(s, b0.action[b0.grid[s]], t);
      if s != Cell(r, c) {
        assert Before(s, r, c);
      }
    }
    if Cell(r, c) in b0.grid && b0.grid[Cell(r, c)] < |b0.action| && b0.grid[Cell(r, c)] !in failed
       && InBeam(Cell(r, c), b0.action[b0.grid[Cell(r, c)]], t) {
      assert Before(Cell(r, c), r, c + 1);
    }
  }

  /** The effect of visiting cell p, taking board b to b': a failed wait
      sets the action to UNDEFINED, a successful one fires the action read
      at the start of the pass. */
  ghost predicate VisitEffect(b0: Board, failed: set<nat>, p: Cell, b: Board, b': Board)
    requires Sane(b0)
  {
    && |b.action| == |b0.action| && |b.destroyed| == |b0.destroyed|
    && b'.grid == b.grid && |b'.action| == |b.action| && |b'.destroyed| == |b.destroyed|
    && (p !in b0.grid ==> b' == b)
    && (p in b0.grid ==>
         var id := b0.grid[p];
         && b'.action == (if id in failed then b.action[id := Undefined] else b.action)
         && (forall i :: 0 <= i < |b.destroyed| && i !in b0.grid.Values ==> b'.destroyed[i] == b.destroyed[i])
         && (forall t :: t in b0.grid ==>
               b'.destroyed[b0.grid[t]] ==
                 (b.destroyed[b0.grid[t]] || (id !in failed && InBeam(p, b0.action[id], t)))))
  }

  /** Visiting cell (r, c) extends the prefix by that cell. */
  lemma FiredStep(b0: Board, failed: set<nat>, areaX: int, areaY: int, r: int, c: int, b: Board, b': Board)
    requires WellFormed(b0, areaX, areaY) && FiredUpTo(b0, failed, r, c, b)
    requires VisitEffect(b0, failed, Cell(r, c), b, b')
    ensures FiredUpTo(b0, failed, r, c + 1, b')
  {
    forall t | t in b0.grid
      ensures b'.destroyed[b0.grid[t]] == (b0.destroyed[b0.grid[t]] || HitBefore(b0, failed, r, c + 1, t))
    {
      HitBeforeStep(b0, failed, r, c, t);
    }
    if Cell(r, c) in b0.grid {
      var id := b0.grid[Cell(r, c)];
      forall t | t in b0.grid
        ensures b'.action[b0.grid[t]] ==
          (if Before(t, r, c + 1) && b0.grid[t] in failed then Undefined else b0.action[b0.grid[t]])
      {
        if t != Cell(r, c) {
          assert b0.grid[t] != id;
        }
      }
    }
    forall i | 0 <= i < |b'.action| && i !in b0.grid.Values
      ensures b'.action[i] == b0.action[i] && b'.destroyed[i] == b0.destroyed[i]
    {
    }
  }

  /** The four beams as index ranges of the board, as the pass walks them. */
  lemma BeamRanges(p: Cell, t: Cell, areaX: int, areaY: int)
    requires InBounds(p, areaX, areaY) && InBounds(t, areaX, areaY)
    ensures InBeam(p, FireUp, t) <==> t.col == p.col && 0 <= t.row < p.row
    ensures InBeam(p, FireDown, t) <==> t.col == p.col && p.row + 1 <= t.row < areaY
    ensures InBeam(p, FireLeft, t) <==> t.row == p.row && 0 <= t.col < p.col
    ensures InBeam(p, FireRight, t) <==> t.row == p.row && p.col + 1 <= t.col < areaX
  {
  }

  /** The end of each row is the start of the next. */
  lemma FiredNextRow(b0: Board, failed: set<nat>, areaX: int, areaY: int, r: int, b: Board)
    requires WellFormed(b0, areaX, areaY)
    requires FiredUpTo(b0, failed, r, areaX, b)
    ensures FiredUpTo(b0, failed, r + 1, 0, b)
  {
    forall t | t in b0.grid
      ensures HitBefore(b0, failed, r, areaX, t) == HitBefore(b0, failed, r + 1, 0, t)
    {
      if HitBefore(b0, failed, r + 1, 0, t) {
        var s :| s in b0.grid && Before(s, r + 1, 0) && b0.grid[s] < |b0.action|
          && b0.grid[s] !in failed && InBeam(s, b0.action[b0.grid[s]], t);
        assert Before(s, r, areaX);
      }
    }
  }

  /** Flags f are f0 with the tanks of column `col` in rows [lo, k) marked. */
  ghost predicate ColumnMarked(g: Grid, f0: seq<bool>, f: seq<bool>, col: int, lo: int, k: int) {
    && |f| == |f0|
    && (forall t :: t in g && g[t] < |f0| ==> f[g[t]] == (f0[g[t]] || (t.col == col && lo <= t.row < k)))
    && (forall i :: 0 <= i < |f0| && i !in g.Values ==> f[i] == f0[i])
  }

  /** Flags f are f0 with the tanks of row `row` in columns [lo, k) marked. */
  ghost predicate RowMarked(g: Grid, f0: seq<bool>, f: seq<bool>, row: int, lo: int, k: int) {
    && |f| == |f0|
    && (forall t :: t in g && g[t] < |f0| ==> f[g[t]] == (f0[g[t]] || (t.row == row && lo <= t.col < k)))
    && (forall i :: 0 <= i < |f0| && i !in g.Values ==> f[i] == f0[i])
  }

  /** Marking the tank in cell (k, col), if any, extends the marked rows by k. */
  lemma ColumnStep(g: Grid, f0: seq<bool>, f: seq<bool>, col: int, lo: int, k: int)
    requires Injective(g) && (forall q :: q in g ==> g[q] < |f0|)
    requires lo <= k && ColumnMarked(g, f0, f, col, lo, k)
    ensures var q := Cell(k, col);
      ColumnMarked(g, f0, if q in g then f[g[q] := true] else f, col, lo, k + 1)
  {
    var q := Cell(k, col);
    if q in g {
      assert g[q] in g.Values;
    }
  }

  /** Marking the tank in cell (row, k), if any, extends the marked columns by k. */
  lemma RowStep(g: Grid, f0: seq<bool>, f: seq<bool>, row: int, lo: int, k: int)
    requires Injective(g) && (forall q :: q in g ==> g[q] < |f0|)
    requires lo <= k && RowMarked(g, f0, f, row, lo, k)
    ensures var q := Cell(row, k);
      RowMarked(g, f0, if q in g then f[g[q] := true] else f, row, lo, k + 1)
  {
    var q := Cell(row, k);
    if q in g {
      assert g[q] in g.Values;
    }
  }

  /** A shooter's own cell is never in its beam. */
  lemma ShooterNotInOwnBeam(s: Cell, a: Action)
    ensures !InBeam(s, a, s)
  {
  }

  /** A beam reaches every tank in its line, not only the nearest: with a
      successful wait, a FIRE_UP marks every tank in the shooter's column
      in the rows above it, and likewise for the other three directions. */
  lemma BeamHitsWholeLine(b0: Board, failed: set<nat>, b: Board, s: Cell, t: Cell)
    requires Sane(b0) && Fired(b0, failed, b)
    requires s in b0.grid && t in b0.grid && b0.grid[s] !in failed
    requires InBeam(s, b0.action[b0.grid[s]], t)
    ensures b.destroyed[b0.grid[t]]
  {
  }

  /** A tank whose wait failed fires nothing: marks come only from the
      other shooters. */
  lemma FailedWaitFiresNothing(b0: Board, failed: set<nat>, b: Board, t: Cell)
    requires Sane(b0) && Fired(b0, failed, b) && t in b0.grid
    requires !b0.destroyed[b0.grid[t]]
    requires forall s :: s in b0.grid && b0.grid[s] !in failed ==> !InBeam(s, b0.action[b0.grid[s]], t)
    ensures !b.destroyed[b0.grid[t]]
  {
  }

  /** Two tanks firing at each other in the same round destroy each other:
      a marked tank still fires. */
  lemma MutualFire(b0: Board, failed: set<nat>, b: Board, s: Cell, t: Cell)
    requires Sane(b0) && Fired(b0, failed, b)
    requires s in b0.grid && t in b0.grid && s.row == t.row && s.col < t.col
    requires b0.grid[s] !in failed && b0.grid[t] !in failed
    requires b0.action[b0.grid[s]] == FireRight && b0.action[b0.grid[t]] == FireLeft
    ensures b.destroyed[b0.grid[s]] && b.destroyed[b0.grid[t]]
  {
    BeamHitsWholeLine(b0, failed, b, s, t);
    BeamHitsWholeLine(b0, failed, b, t, s);
  }
}
