/** The sparse board: cells, the grid of tank ids, and the arena view the
    round resolution works on. */
module Grids {
  import opened Actions

  /** A position: row (y) and column (x). */
  datatype Cell = Cell(row: int, col: int)

  /** The occupied cells, each mapped to the id of its tank in the arena. */
  type Grid = map<Cell, nat>

  /** What the round resolution reads and writes: the grid and, per tank id,
      its action and its destroyed flag. */
  datatype Board = Board(grid: Grid, action: seq<Action>, destroyed: seq<bool>)

  predicate InBounds(q: Cell, areaX: int, areaY: int) {
    0 <= q.row < areaY && 0 <= q.col < areaX
  }

  /** Row-major order: `q` comes before position (r, c). */
  predicate Before(q: Cell, r: int, c: int) {
    q.row < r || (q.row == r && q.col < c)
  }

  /** Every id in the grid indexes the arena. */
  ghost predicate Sane(b: Board) {
    && |b.action| == |b.destroyed|
    && forall q :: q in b.grid ==> b.grid[q] < |b.action|
  }

  /** No tank occupies two cells. */
  ghost predicate Injective(g: Grid) {
    forall q, q' :: q in g && q' in g && g[q] == g[q'] ==> q == q'
  }

  ghost predicate AllInBounds(g: Grid, areaX: int, areaY: int) {
    forall q :: q in g ==> InBounds(q, areaX, areaY)
  }

  /** The board invariant: ids index the arena, every occupied cell is on
      the board and no tank sits in two cells. */
  ghost predicate WellFormed(b: Board, areaX: int, areaY: int) {
    Sane(b) && AllInBounds(b.grid, areaX, areaY) && Injective(b.grid)
  }

  /** A tank is on the board exactly when it is not destroyed. */
  ghost predicate LiveOnBoard(b: Board) {
    forall i :: 0 <= i < |b.destroyed| ==> (i in b.grid.Values <==> !b.destroyed[i])
  }
}
