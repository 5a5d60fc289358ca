/** The move-and-cleanup pass of a round: cells are visited in row-major
    order while the grid is changed in place, so a later cell sees the
    updates made at earlier ones. */
module MovePass {
  import opened Actions
  import opened Grids

  /** The cell one step away in the direction of a move. */
  function Dest(p: Cell, a: Action): Cell
    requires a.IsMove()
  {
    match a
    case MoveUp => Cell(p.row - 1, p.col)
    case MoveDown => Cell(p.row + 1, p.col)
    case MoveRight => Cell(p.row, p.col + 1)
    case MoveLeft => Cell(p.row, p.col - 1)
  }

  /** The edge tests of the four move cases. */
  predicate OffBoard(p: Cell, a: Action, areaX: int, areaY: int)
    requires a.IsMove()
  {
    match a
    case MoveUp => p.row == 0
    case MoveDown => p.row + 1 >= areaY
    case MoveRight => p.col + 1 >= areaX
    case MoveLeft => p.col == 0
  }

  /** Whether a relocated tank gets its action set to UNDEFINED. Moves down
      and right land in a cell still to be visited and are reset; a move up
      keeps its action (it lands in a row already visited). */
  predicate ResetsAfterMove(a: Action) {
    a != MoveUp
  }

  /** The work done at one cell of the pass. */
  function MoveCell(b: Board, areaX: int, areaY: int, p: Cell): (r: Board)
    requires Sane(b)
    ensures Sane(r) && |r.action| == |b.action|
  {
    if p !in b.grid then b
    else
      var id := b.grid[p];
      var a := b.action[id];
      if b.destroyed[id] then
        // a tank hit in the fire pass is erased
        b.(grid := b.grid - {p})
      else if !a.IsMove() then
        b
      else if OffBoard(p, a, areaX, areaY) then
        // rolled off the map
        Board(b.grid - {p}, b.action, b.destroyed[id := true])
      else
        var d := Dest(p, a);
        if d in b.grid then
          // crash: both tanks are destroyed and erased
          Board(b.grid - {p, d}, b.action, b.destroyed[id := true][b.grid[d] := true])
        else
          Board((b.grid - {p})[d := id],
                if ResetsAfterMove(a) then b.action[id := Undefined] else b.action,
                b.destroyed)
  }

  /** The board after rows 0 .. r-1 have been visited. */
  function AfterRows(b0: Board, areaX: nat, areaY: nat, r: nat): (b: Board)
    requires Sane(b0)
    ensures Sane(b) && |b.action| == |b0.action|
    decreases r, 0, 0
  {
    if r == 0 then b0 else AfterCells(b0, areaX, areaY, r - 1, areaX)
  }

  /** The board after rows 0 .. r-1 and cells 0 .. c-1 of row r have been
      visited. */
  function AfterCells(b0: Board, areaX: nat, areaY: nat, r: nat, c: nat): (b: Board)
    requires Sane(b0)
    ensures Sane(b) && |b.action| == |b0.action|
    decreases r, 1, c
  {
    if c == 0 then AfterRows(b0, areaX, areaY, r)
    else MoveCell(AfterCells(b0, areaX, areaY, r, c - 1), areaX, areaY, Cell(r, c - 1))
  }

  /** The whole pass over an areaX by areaY board. */
  function MovePhase(b0: Board, areaX: nat, areaY: nat): (b: Board)
    requires Sane(b0)
    ensures Sane(b) && |b.action| == |b0.action|
  {
    AfterRows(b0, areaX, areaY, areaY)
  }

  /** The action a tank had at the start of the pass, read through its
      start cell. */
  function StartAction(b0: Board, q0: Cell): Action {
    if q0 in b0.grid && b0.grid[q0] < |b0.action| then b0.action[b0.grid[q0]] else Undefined
  }

  /** Where the tank that started at q0 may legitimately be: still there, or
      one step away in the direction of its move. */
  ghost predicate Reachable(b0: Board, q0: Cell, q: Cell) {
    q == q0 || (StartAction(b0, q0).IsMove() && q == Dest(q0, StartAction(b0, q0)))
  }

  /** The tank in cell q of b is at its own start cell. */
  ghost predicate AtStart(b0: Board, b: Board, q: Cell)
    requires q in b.grid
  {
    q in b0.grid && b0.grid[q] == b.grid[q]
  }

  /** Tanks outside the start grid are never touched, the arena keeps its
      size, and destroyed flags are only ever set. */
  ghost predicate Framed(b0: Board, b: Board)
    requires Sane(b0) && Sane(b)
  {
    && |b.action| == |b0.action| && |b.destroyed| == |b0.destroyed|
    && (forall i :: 0 <= i < |b.action| && i !in b0.grid.Values ==>
          b.action[i] == b0.action[i] && b.destroyed[i] == b0.destroyed[i])
    && (forall i :: 0 <= i < |b0.destroyed| && b0.destroyed[i] ==> b.destroyed[i])
  }

  /** Every tank in the grid is at its start cell or one step from it. */
  ghost predicate FromStart(b0: Board, b: Board) {
    forall q :: q in b.grid ==>
      exists q0 :: q0 in b0.grid && b0.grid[q0] == b.grid[q] && Reachable(b0, q0, q)
  }

  /** A relocated tank is live and has its action reset (kept, for a move up). */
  ghost predicate Relocated(b0: Board, b: Board)
    requires Sane(b) && |b.action| == |b0.action|
  {
    forall q :: q in b.grid && !AtStart(b0, b, q) ==>
      b.action[b.grid[q]] == (if b0.action[b.grid[q]] == MoveUp then MoveUp else Undefined)
      && !b.destroyed[b.grid[q]]
  }

  /** In a cell still to be visited, a tank at its start is untouched and a
      tank that moved in has action UNDEFINED, so it does not move again. */
  ghost predicate Pending(b0: Board, b: Board, r: int, c: int)
    requires Sane(b) && |b.action| == |b0.action| && |b.destroyed| == |b0.destroyed|
  {
    forall q :: q in b.grid && !Before(q, r, c) ==>
      if AtStart(b0, b, q) then
        b.action[b.grid[q]] == b0.action[b.grid[q]] && b.destroyed[b.grid[q]] == b0.destroyed[b.grid[q]]
      else
        b.action[b.grid[q]] == Undefined
  }

  /** Visited cells hold live tanks, none still at its start with a move. */
  ghost predicate Visited(b0: Board, b: Board, r: int, c: int)
    requires Sane(b) && |b.action| == |b0.action|
  {
    forall q :: q in b.grid && Before(q, r, c) ==>
      !b.destroyed[b.grid[q]] && (AtStart(b0, b, q) ==> !b0.action[b.grid[q]].IsMove())
  }

  /** A tank whose start cell is still to be visited has not moved. */
  ghost predicate Unmoved(b0: Board, b: Board, r: int, c: int)
    requires Sane(b0) && |b.destroyed| == |b0.destroyed|
  {
    forall q0 :: q0 in b0.grid && !Before(q0, r, c) ==>
      b.destroyed[b0.grid[q0]] || (q0 in b.grid && b.grid[q0] == b0.grid[q0])
  }

  /** No live tank leaves the grid. */
  ghost predicate Kept(b0: Board, b: Board)
    requires Sane(b0) && |b.destroyed| == |b0.destroyed|
  {
    forall q0 :: q0 in b0.grid && !b.destroyed[b0.grid[q0]] ==> b0.grid[q0] in b.grid.Values
  }

  /** What holds after visiting every cell before (r, c). */
  ghost predicate PassInv(b0: Board, b: Board, areaX: int, areaY: int, r: int, c: int) {
    && WellFormed(b0, areaX, areaY)
    && WellFormed(b, areaX, areaY)
    && Framed(b0, b)
    && FromStart(b0, b)
    && Relocated(b0, b)
    && Pending(b0, b, r, c)
    && Visited(b0, b, r, c)
    && Unmoved(b0, b, r, c)
    && Kept(b0, b)
  }
}

