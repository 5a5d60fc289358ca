/** The coordinator: the board, the arena of tanks and the per-round
    resolution. */
module Worlds {
  import opened Actions
  import opened Tanks
  import opened Grids
  import opened SockAddrs
  import FirePass
  import MovePass
  import MovePassProofs
  import Rounds
  import Routing
  import opened Options
  import opened Snapshots
  import opened Placement

  /** The mailbox of each tank of a sequence. */
  ghost function BoxesOf(ts: seq<Tank>): (r: seq<Mailbox>)
    reads ts`actionBuffer, ts`currentAction, (set j | 0 <= j < |ts| :: ts[j].actionBuffer)
    requires forall i :: 0 <= i < |ts| ==> ts[i].Valid()
    ensures |r| == |ts| && forall i :: 0 <= i < |ts| ==> r[i] == ts[i].Box()
  {
    if ts == [] then [] else BoxesOf(ts[..|ts| - 1]) + [ts[|ts| - 1].Box()]
  }

  /** The action of each tank of a sequence. */
  ghost function ActionsOf(ts: seq<Tank>): seq<Action>
    reads ts
  {
    seq(|ts|, i reads ts requires 0 <= i < |ts| => ts[i].action)
  }

  /** The destroyed flag of each tank of a sequence. */
  ghost function FlagsOf(ts: seq<Tank>): seq<bool>
    reads ts
  {
    seq(|ts|, i reads ts requires 0 <= i < |ts| => ts[i].destroyed)
  }

  /** The team of each tank of a sequence. */
  function TeamsOf(ts: seq<Tank>): (r: seq<Team>)
    ensures |r| == |ts| && forall i :: 0 <= i < |ts| ==> r[i] == ts[i].team
  {
    seq(|ts|, i requires 0 <= i < |ts| => ts[i].team)
  }

  /** The ids from, from + 1, ..., from + count - 1. */
  function Ids(from: nat, count: nat): (r: seq<nat>)
    ensures |r| == count && forall k :: 0 <= k < count ==> r[k] == from + k
  {
    seq(count, k requires 0 <= k < count => from + k)
  }

  lemma AppendId(pre: seq<nat>, from: nat, count: nat)
    ensures pre + Ids(from, count) + [from + count] == pre + Ids(from, count + 1)
  {
    assert Ids(from, count + 1) == Ids(from, count) + [from + count];
  }

  lemma IdsThen(from: nat, m: nat, n: nat)
    ensures Ids(from, m) + Ids(from + m, n) == Ids(from, m + n)
  {
  }

  /** A tank as its constructor leaves it. */
  ghost predicate NewTank(t: Tank, team: Team)
    reads t, t.actionBuffer
  {
    t.Valid() && t.team == team && t.action == Undefined && !t.destroyed && t.Box() == InitialBox()
  }

  class World {
    const areaX: int
    const areaY: int
    const redCount: int
    const greenCount: int
    /** Rounds played since the last init (an unsigned int). */
    var roundCount: nat
    /** The arena: every tank created since the last init, indexed by id. */
    var tanks: seq<Tank>
    /** Ids of tanks not yet bound to a client address, in creation order. */
    var freeTanks: seq<nat>
    /** Client address to the id of the tank it controls. */
    var addrToTank: map<SockAddr, nat>
    /** The occupied cells. */
    var grid: Grid

    ghost function Buffers(): set<array<char>>
      reads this`tanks, tanks`actionBuffer
    {
      set i | 0 <= i < |tanks| :: tanks[i].actionBuffer
    }

    /** Distinct tanks with distinct mailboxes. */
    ghost predicate Heap()
      reads this`tanks, tanks
    {
      && (forall i, j :: 0 <= i < |tanks| && 0 <= j < |tanks| && i != j ==>
            tanks[i] != tanks[j] && tanks[i].actionBuffer != tanks[j].actionBuffer)
      && (forall i :: 0 <= i < |tanks| ==> tanks[i].Valid())
    }

    ghost function Actions(): seq<Action>
      reads this`tanks, tanks
    {
      ActionsOf(tanks)
    }

    ghost function Flags(): seq<bool>
      reads this`tanks, tanks
    {
      FlagsOf(tanks)
    }

    /** The mailboxes of the arena. */
    ghost function Boxes(): seq<Mailbox>
      reads this`tanks, tanks`actionBuffer, tanks`currentAction, (set j | 0 <= j < |tanks| :: tanks[j].actionBuffer)
      requires forall i :: 0 <= i < |tanks| ==> tanks[i].Valid()
    {
      BoxesOf(tanks)
    }

    /** The state the round resolution works on. */
    ghost function View(): Board
      reads this`grid, this`tanks, tanks
    {
      Board(grid, Actions(), Flags())
    }

    /** The world invariant between operations: the board is well formed and
        a tank is on the board exactly when it is not destroyed. */
    ghost predicate Valid()
      reads this, tanks
    {
      BoardOk() && RoutingOk()
    }

    ghost predicate BoardOk()
      reads this`grid, this`tanks, tanks
    {
      && 0 <= areaX && 0 <= areaY
      && Heap()
      && WellFormed(View(), areaX, areaY)
      && LiveOnBoard(View())
    }

    ghost predicate RoutingOk()
      reads this`tanks, this`addrToTank, this`freeTanks
    {
      Routing.BindingOk(Routing.Binding(addrToTank, freeTanks), |tanks|)
    }

    /** The constructor: the parameters are checked, the world starts
        without tanks and with no round played. */
    constructor (areaX: int, areaY: int, redCount: int, greenCount: int)
      requires ValidParameters(areaX, areaY, redCount, greenCount)
      ensures Configured() && Valid() && roundCount == 0
      ensures this.areaX == areaX && this.areaY == areaY
      ensures this.redCount == redCount && this.greenCount == greenCount
      ensures tanks == [] && freeTanks == [] && addrToTank == map[] && grid == map[]
    {
      this.areaX, this.areaY := areaX, areaY;
      this.redCount, this.greenCount := redCount, greenCount;
      roundCount := 0;
      tanks, freeTanks, addrToTank, grid := [], [], map[], map[];
    }

    /** Construction as the caller sees it: no world (the exception) for
        invalid parameters, a fresh empty one otherwise. */
    static method Create(areaX: int, areaY: int, redCount: int, greenCount: int) returns (w: World?)
      ensures w == null <==> !ValidParameters(areaX, areaY, redCount, greenCount)
      ensures w != null ==> fresh(w) && w.Configured() && w.Valid() && w.roundCount == 0 && w.tanks == []
    {
      if !ValidParameters(areaX, areaY, redCount, greenCount) {
        return null;
      }
      w := new World(areaX, areaY, redCount, greenCount);
    }

    /** The parameters passed the constructor's check (they never change). */
    predicate Configured() {
      ValidParameters(areaX, areaY, redCount, greenCount)
    }

    /** clearTanks: every tank on the board is marked destroyed, so that its
        thread leaves its loop, and then the arena, the free list, the
        address table and the grid are emptied. */
    method ClearTanks()
      requires Valid()
      modifies this`tanks, this`freeTanks, this`addrToTank, this`grid, tanks`destroyed
      ensures Valid() && tanks == [] && freeTanks == [] && addrToTank == map[] && grid == map[]
      ensures forall i :: 0 <= i < |old(tanks)| ==> old(tanks)[i].destroyed
    {
      MarkBoardTanks();
      tanks, freeTanks, addrToTank, grid := [], [], map[], map[];
    }

    /** The loop of clearTanks over the occupied cells. As a tank is off the
        board exactly when it is destroyed, every tank ends up destroyed. */
    method MarkBoardTanks()
      requires BoardOk()
      modifies tanks`destroyed
      ensures Heap() && forall i :: 0 <= i < |tanks| ==> tanks[i].destroyed
    {
      ghost var b := View();
      var rest := grid.Keys;
      while rest != {}
        invariant Heap() && rest <= grid.Keys && |Flags()| == |b.destroyed|
        invariant forall i :: 0 <= i < |b.destroyed| && b.destroyed[i] ==> Flags()[i]
        invariant forall q :: q in grid && q !in rest ==> Flags()[grid[q]]
        decreases rest
      {
        var q :| q in rest;
        MarkDestroyed(grid[q]);
        rest := rest - {q};
      }
      forall i | 0 <= i < |tanks|
        ensures tanks[i].destroyed
      {
        if !b.destroyed[i] {
          assert i in b.grid.Values;
          var q :| q in grid && grid[q] == i;
        }
        assert Flags()[i] == tanks[i].destroyed;
      }
    }

    /** createTank with the cell its draws settle on: the new tank is put
        in the free cell and appended to the arena and to the free list. */
    method CreateTank(team: Team, q: Cell) returns (t: Tank)
      requires Valid() && InBounds(q, areaX, areaY) && q !in grid
      modifies this`tanks, this`freeTanks, this`grid
      ensures Valid() && fresh(t) && NewTank(t, team)
      ensures tanks == old(tanks) + [t] && freeTanks == old(freeTanks) + [|old(tanks)|]
      ensures grid == old(grid)[q := |old(tanks)|] && addrToTank == old(addrToTank)
    {
      ghost var b := View();
      Routing.AddFreeKeepsBinding(Routing.Binding(addrToTank, freeTanks), |tanks|);
      PlaceKeepsBoard(b, q, Undefined, areaX, areaY);
      t := new Tank(team);
      Enter(t, q);
    }

    /** createTanks: one tank of the team per cell, in order. */
    method CreateTanks(team: Team, cells: seq<Cell>)
      requires Valid()
      requires forall k :: 0 <= k < |cells| ==> InBounds(cells[k], areaX, areaY) && cells[k] !in grid
      requires forall k, l :: 0 <= k < l < |cells| ==> cells[k] != cells[l]
      modifies this`tanks, this`freeTanks, this`grid
      ensures Valid() && addrToTank == old(addrToTank)
      ensures |tanks| == |old(tanks)| + |cells| && tanks[..|old(tanks)|] == old(tanks)
      ensures freeTanks == old(freeTanks) + Ids(|old(tanks)|, |cells|)
      ensures Extends(old(grid), grid, cells, |old(tanks)|)
      ensures forall k :: |old(tanks)| <= k < |tanks| ==> fresh(tanks[k]) && NewTank(tanks[k], team)
    {
      ghost var n0 := |tanks|;
      for i := 0 to |cells|
        invariant Valid() && addrToTank == old(addrToTank)
        invariant |tanks| == n0 + i && tanks[..n0] == old(tanks)
        invariant freeTanks == old(freeTanks) + Ids(n0, i)
        invariant Extends(old(grid), grid, cells[..i], n0)
        invariant forall k :: n0 <= k < |tanks| ==> fresh(tanks[k]) && NewTank(tanks[k], team)
      {
        var t := CreateNext(team, cells, i, old(grid), old(freeTanks), n0);
      }
      assert cells[..|cells|] == cells;
    }

    /** One step of createTanks: the tank for cells[i], with the grid and
        the free list extended accordingly. */
    method CreateNext(team: Team, cells: seq<Cell>, i: nat, ghost g0: Grid, ghost f0: seq<nat>, ghost n0: nat) returns (t: Tank)
      requires Valid() && i < |cells|
      requires forall k :: 0 <= k < |cells| ==> InBounds(cells[k], areaX, areaY) && cells[k] !in g0
      requires forall k, l :: 0 <= k < l < |cells| ==> cells[k] != cells[l]
      requires |tanks| == n0 + i && freeTanks == f0 + Ids(n0, i) && Extends(g0, grid, cells[..i], n0)
      modifies this`tanks, this`freeTanks, this`grid
      ensures Valid() && addrToTank == old(addrToTank)
      ensures tanks == old(tanks) + [t] && fresh(t) && NewTank(t, team)
      ensures freeTanks == f0 + Ids(n0, i + 1) && Extends(g0, grid, cells[..i + 1], n0)
    {
      assert cells[i] !in cells[..i];
      assert cells[..i + 1] == cells[..i] + [cells[i]];
      ExtendsStep(g0, grid, cells[..i], cells[i], n0);
      AppendId(f0, n0, i);
      t := CreateTank(team, cells[i]);
    }

    /** The team of the tank with the given id after init: the green ones
        are created first. */
    function TeamAt(k: nat): Team {
      if k < greenCount then Green else Red
    }

    /** init: the old tanks are cleared, the round counter is reset, the
        green tanks and then the red ones are put in the cells their draws
        settle on, and the first snapshot is written. */
    method Init(cells: seq<Cell>) returns (s: string)
      requires Valid() && Configured() && |cells| == greenCount + redCount
      requires forall k :: 0 <= k < |cells| ==> InBounds(cells[k], areaX, areaY)
      requires forall k, l :: 0 <= k < l < |cells| ==> cells[k] != cells[l]
      modifies this`tanks, this`freeTanks, this`addrToTank, this`grid, this`roundCount, tanks`destroyed
      ensures Valid() && roundCount == 0 && addrToTank == map[]
      ensures forall i :: 0 <= i < |old(tanks)| ==> old(tanks)[i].destroyed
      ensures |tanks| == |cells| && freeTanks == Ids(0, |cells|) && Extends(map[], grid, cells, 0)
      ensures forall k :: 0 <= k < |tanks| ==> fresh(tanks[k]) && NewTank(tanks[k], TeamAt(k))
      ensures s == Snapshot(grid, TeamsOf(tanks), areaX, areaY)
    {
      ClearTanks();
      roundCount := 0;
      Populate(cells);
      s := PrintGameBoard();
    }

    /** The two createTanks calls of init, on an empty world. */
    method Populate(cells: seq<Cell>)
      requires Valid() && Configured() && |cells| == greenCount + redCount
      requires tanks == [] && freeTanks == [] && grid == map[]
      requires forall k :: 0 <= k < |cells| ==> InBounds(cells[k], areaX, areaY)
      requires forall k, l :: 0 <= k < l < |cells| ==> cells[k] != cells[l]
      modifies this`tanks, this`freeTanks, this`grid
      ensures Valid() && addrToTank == old(addrToTank)
      ensures |tanks| == |cells| && freeTanks == Ids(0, |cells|) && Extends(map[], grid, cells, 0)
      ensures forall k :: 0 <= k < |tanks| ==> fresh(tanks[k]) && NewTank(tanks[k], TeamAt(k))
    {
      CreateTanks(Green, cells[..greenCount]);
      assert [] + Ids(0, greenCount) == Ids(0, greenCount);
      ghost var ts1 := tanks;
      AddRed(cells);
      assert forall k :: 0 <= k < greenCount ==> tanks[k] == ts1[k];
    }

    /** The second createTanks call of init, after the green tanks. */
    method AddRed(cells: seq<Cell>)
      requires Valid() && Configured() && |cells| == greenCount + redCount
      requires forall k :: 0 <= k < |cells| ==> InBounds(cells[k], areaX, areaY)
      requires forall k, l :: 0 <= k < l < |cells| ==> cells[k] != cells[l]
      requires |tanks| == greenCount && freeTanks == Ids(0, greenCount)
      requires Extends(map[], grid, cells[..greenCount], 0)
      requires forall k :: 0 <= k < |tanks| ==> NewTank(tanks[k], Green)
      modifies this`tanks, this`freeTanks, this`grid
      ensures Valid() && addrToTank == old(addrToTank)
      ensures |tanks| == |cells| && tanks[..greenCount] == old(tanks)
      ensures freeTanks == Ids(0, |cells|) && Extends(map[], grid, cells, 0)
      ensures forall k :: 0 <= k < |tanks| ==> NewTank(tanks[k], TeamAt(k))
      ensures forall k :: greenCount <= k < |tanks| ==> fresh(tanks[k])
    {
      var green, red := cells[..greenCount], cells[greenCount..];
      RestFree(grid, cells, greenCount);
      ghost var g1, ts1 := grid, tanks;
      CreateTanks(Red, red);
      ExtendsThen(map[], g1, grid, green, red, 0);
      IdsThen(0, greenCount, redCount);
      assert forall k :: 0 <= k < greenCount ==> tanks[k] == ts1[k];
    }

    /** The bookkeeping of createTank for a tank just built. */
    method Enter(t: Tank, q: Cell)
      requires Heap() && t.Valid() && t !in tanks && t.actionBuffer !in Buffers()
      modifies this`tanks, this`freeTanks, this`grid
      ensures Heap() && tanks == old(tanks) + [t] && freeTanks == old(freeTanks) + [|old(tanks)|]
      ensures grid == old(grid)[q := |old(tanks)|]
      ensures View() == Board(grid, old(Actions()) + [t.action], old(Flags()) + [t.destroyed])
      ensures Boxes() == old(Boxes()) + [t.Box()]
    {
      ghost var n := |tanks|;
      grid := grid[q := |tanks|];
      freeTanks := freeTanks + [|tanks|];
      tanks := tanks + [t];
      assert tanks[..n] == old(tanks);
    }

    /** markAsDestroyed on the tank with the given id. */
    method MarkDestroyed(id: nat)
      requires Heap() && id < |tanks|
      modifies tanks`destroyed
      ensures Heap()
      ensures Flags() == old(Flags())[id := true] && Actions() == old(Actions())
    {
      tanks[id].MarkAsDestroyed();
    }

    /** _setActionToUndefined on the tank with the given id. */
    method SetUndefined(id: nat)
      requires Heap() && id < |tanks|
      modifies tanks`action
      ensures Heap()
      ensures Actions() == old(Actions())[id := Undefined] && Flags() == old(Flags())
    {
      tanks[id].SetActionToUndefined();
    }

    // ------------------------------------------------------------------
    // Fire pass

    /** Marks every tank in column `col` whose row is in [lo, hi). */
    method MarkColumn(col: int, lo: int, hi: int)
      requires Heap() && Sane(View()) && Injective(grid) && lo <= hi
      modifies tanks`destroyed
      ensures Heap() && Actions() == old(Actions()) && |Flags()| == |old(Flags())|
      ensures forall t :: t in grid ==>
        Flags()[grid[t]] == (old(Flags())[grid[t]] || (t.col == col && lo <= t.row < hi))
      ensures forall i :: 0 <= i < |tanks| && i !in grid.Values ==> Flags()[i] == old(Flags())[i]
    {
      var k := lo;
      while k < hi
        invariant lo <= k <= hi
        invariant Heap() && Actions() == old(Actions())
        invariant FirePass.ColumnMarked(grid, old(Flags()), Flags(), col, lo, k)
      {
        FirePass.ColumnStep(grid, old(Flags()), Flags(), col, lo, k);
        if Cell(k, col) in grid {
          MarkDestroyed(grid[Cell(k, col)]);
        }
        k := k + 1;
      }
    }

    /** Marks every tank in row `row` whose column is in [lo, hi). */
    method MarkRow(row: int, lo: int, hi: int)
      requires Heap() && Sane(View()) && Injective(grid) && lo <= hi
      modifies tanks`destroyed
      ensures Heap() && Actions() == old(Actions()) && |Flags()| == |old(Flags())|
      ensures forall t :: t in grid ==>
        Flags()[grid[t]] == (old(Flags())[grid[t]] || (t.row == row && lo <= t.col < hi))
      ensures forall i :: 0 <= i < |tanks| && i !in grid.Values ==> Flags()[i] == old(Flags())[i]
    {
      var k := lo;
      while k < hi
        invariant lo <= k <= hi
        invariant Heap() && Actions() == old(Actions())
        invariant FirePass.RowMarked(grid, old(Flags()), Flags(), row, lo, k)
      {
        FirePass.RowStep(grid, old(Flags()), Flags(), row, lo, k);
        if Cell(row, k) in grid {
          MarkDestroyed(grid[Cell(row, k)]);
        }
        k := k + 1;
      }
    }

    /** waitForTank on the tank with the given id; `succeeded` is the outcome
        of its semaphore wait. */
    method Wait(id: nat, succeeded: bool) returns (r: int)
      requires Heap() && id < |tanks|
      modifies tanks`action
      ensures Heap() && Flags() == old(Flags())
      ensures succeeded ==> r == 0 && Actions() == old(Actions())
      ensures !succeeded ==> r == -1 && Actions() == old(Actions())[id := Undefined]
    {
      r := tanks[id].WaitForTank(succeeded);
    }

    /** Fires the beam of action a from cell p (nothing for other actions). */
    method FireBeam(p: Cell, a: Action)
      requires Heap() && WellFormed(View(), areaX, areaY) && InBounds(p, areaX, areaY)
      modifies tanks`destroyed
      ensures Heap() && Actions() == old(Actions()) && |Flags()| == |old(Flags())|
      ensures forall t :: t in grid ==>
        Flags()[grid[t]] == (old(Flags())[grid[t]] || FirePass.InBeam(p, a, t))
      ensures forall i :: 0 <= i < |tanks| && i !in grid.Values ==> Flags()[i] == old(Flags())[i]
    {
      forall t | t in grid {
        FirePass.BeamRanges(p, t, areaX, areaY);
      }
      if a == FireUp {
        MarkColumn(p.col, 0, p.row);
      } else if a == FireDown {
        MarkColumn(p.col, p.row + 1, areaY);
      } else if a == FireLeft {
        MarkRow(p.row, 0, p.col);
      } else if a == FireRight {
        MarkRow(p.row, p.col + 1, areaX);
      }
    }

    /** The fire pass at cell (r, c): wait for the tank there and, if the
        wait succeeded, fire its beam. */
    method FireStep(ghost b0: Board, failed: set<nat>, r: int, c: int)
      requires Heap() && WellFormed(b0, areaX, areaY) && 0 <= r < areaY && 0 <= c < areaX
      requires FirePass.FiredUpTo(b0, failed, r, c, View())
      modifies tanks`action, tanks`destroyed
      ensures Heap() && FirePass.FiredUpTo(b0, failed, r, c + 1, View())
    {
      ghost var b := View();
      var p := Cell(r, c);
      if p in grid {
        var id := grid[p];
        MovePassProofs.InValues(grid, p);
        var w := Wait(id, id !in failed);
        if w == 0 {
          assert tanks[id].action == b0.action[id];
          FireBeam(p, tanks[id].action);
        }
      }
      FirePass.FiredStep(b0, failed, areaX, areaY, r, c, b, View());
    }

    /** The whole fire pass, in row-major order. */
    method FireAll(failed: set<nat>)
      requires Heap() && WellFormed(View(), areaX, areaY) && 0 <= areaX && 0 <= areaY
      modifies tanks`action, tanks`destroyed
      ensures Heap() && FirePass.Fired(old(View()), failed, View())
    {
      ghost var b0 := View();
      FirePass.FiredStart(b0, failed, areaX, areaY);
      var r := 0;
      while r < areaY
        invariant 0 <= r <= areaY
        invariant Heap() && FirePass.FiredUpTo(b0, failed, r, 0, View())
      {
        var c := 0;
        while c < areaX
          invariant 0 <= c <= areaX
          invariant Heap() && FirePass.FiredUpTo(b0, failed, r, c, View())
        {
          FireStep(b0, failed, r, c);
          c := c + 1;
        }
        FirePass.FiredNextRow(b0, failed, areaX, areaY, r, View());
        r := r + 1;
      }
      FirePass.FiredAll(b0, failed, areaX, areaY, View());
    }

    // ------------------------------------------------------------------
    // Move-and-cleanup pass

    /** A tank that rolled off the map: marked and erased. */
    method RollOff(p: Cell)
      requires Heap() && Sane(View()) && p in grid
      modifies this`grid, tanks`destroyed
      ensures Heap()
      ensures View() == Board(old(grid) - {p}, old(Actions()), old(Flags())[old(grid)[p] := true])
    {
      MarkDestroyed(grid[p]);
      grid := grid - {p};
    }

    /** A crash between the tank at p and the one at d: both are marked and
        both cells are erased. */
    method Crash(p: Cell, d: Cell)
      requires Heap() && Sane(View()) && p in grid && d in grid
      modifies this`grid, tanks`destroyed
      ensures Heap()
      ensures View() == Board(old(grid) - {p, d}, old(Actions()),
                              old(Flags())[old(grid)[p] := true][old(grid)[d] := true])
    {
      var ip, id := grid[p], grid[d];
      ghost var f0 := Flags();
      MarkDestroyed(ip);
      MarkDestroyed(id);
      assert Flags() == f0[ip := true][id := true];
      grid := grid - {d};
      grid := grid - {p};
      assert grid == old(grid) - {p, d};
    }

    /** The tank at p moves to the free cell d, and its action is reset
        when `reset` holds. */
    method Relocate(p: Cell, d: Cell, reset: bool)
      requires Heap() && Sane(View()) && p in grid && d !in grid
      modifies this`grid, tanks`action
      ensures Heap()
      ensures View() == Board((old(grid) - {p})[d := old(grid)[p]],
                              if reset then old(Actions())[old(grid)[p] := Undefined] else old(Actions()),
                              old(Flags()))
    {
      var id := grid[p];
      grid := grid[d := id];
      grid := grid - {p};
      assert grid == (old(grid) - {p})[d := id];
      if reset {
        SetUndefined(id);
      }
    }

    /** The move pass at cell p: erase a destroyed tank, or carry out the
        move of a live one (roll off, crash or relocate). */
    method MoveStep(p: Cell)
      requires Heap() && Sane(View())
      modifies this`grid, tanks`action, tanks`destroyed
      ensures Heap()
      ensures View() == MovePass.MoveCell(old(View()), areaX, areaY, p)
    {
      if p in grid {
        var id := grid[p];
        if tanks[id].IsDestroyed() {
          grid := grid - {p};
        } else {
          var a := tanks[id].GetAction();
          if a.IsMove() {
            if MovePass.OffBoard(p, a, areaX, areaY) {
              RollOff(p);
            } else {
              var d := MovePass.Dest(p, a);
              if d in grid {
                Crash(p, d);
              } else {
                Relocate(p, d, MovePass.ResetsAfterMove(a));
              }
            }
          }
        }
      }
    }

    /** The whole move-and-cleanup pass, in row-major order. */
    method MoveAll()
      requires Heap() && Sane(View()) && 0 <= areaX && 0 <= areaY
      modifies this`grid, tanks`action, tanks`destroyed
      ensures Heap()
      ensures View() == MovePass.MovePhase(old(View()), areaX, areaY)
    {
      ghost var b0 := View();
      var r := 0;
      while r < areaY
        invariant 0 <= r <= areaY
        invariant Heap() && View() == MovePass.AfterRows(b0, areaX, areaY, r)
      {
        var c := 0;
        while c < areaX
          invariant 0 <= c <= areaX
          invariant Heap() && View() == MovePass.AfterCells(b0, areaX, areaY, r, c)
        {
          MoveStep(Cell(r, c));
          c := c + 1;
        }
        r := r + 1;
      }
    }

    // ------------------------------------------------------------------
    // The round

    /** doAction on the tank with the given id. */
    method Act(id: nat)
      requires Heap() && id < |tanks|
      modifies tanks`action, tanks`currentAction, tanks[id].actionBuffer
      ensures Heap() && Flags() == old(Flags())
      ensures Boxes() == old(Boxes())[id := Take(old(Boxes())[id]).0]
      ensures Actions() == old(Actions())[id := Take(old(Boxes())[id]).1]
    {
      tanks[id].DoAction();
    }

    /** The round broadcast: the thread of every tank not yet destroyed runs
        doAction, which takes the action from the current half of the
        mailbox. A destroyed tank's thread has left its loop. */
    method NotifyAllTanks()
      requires Heap()
      modifies tanks`action, tanks`currentAction, Buffers()
      ensures Heap()
      ensures (View(), Boxes()) == Rounds.Notify(old(View()), old(Boxes()))
    {
      for i := 0 to |tanks|
        invariant Heap() && Flags() == old(Flags()) && grid == old(grid)
        invariant Rounds.NotifiedUpTo(old(View()), old(Boxes()), i, View(), Boxes())
      {
        ghost var b', boxes' := View(), Boxes();
        if !tanks[i].IsDestroyed() {
          Act(i);
        }
        Rounds.NotifyStep(old(View()), old(Boxes()), i, b', boxes', View(), Boxes());
      }
      Rounds.NotifiedAll(old(View()), old(Boxes()), View(), Boxes());
    }

    /** The two passes after the broadcast; neither touches a mailbox. */
    method ResolveRound(failed: set<nat>) returns (ghost fired: Board)
      requires Heap() && WellFormed(View(), areaX, areaY) && 0 <= areaX && 0 <= areaY
      modifies this`grid, tanks`action, tanks`destroyed
      ensures Heap() && Boxes() == old(Boxes())
      ensures FirePass.Fired(old(View()), failed, fired)
      ensures View() == MovePass.MovePhase(fired, areaX, areaY)
    {
      FireAll(failed);
      fired := View();
      MoveAll();
    }

    /** performActions: the broadcast, the fire pass over the board as the
        broadcast left it, then the move-and-cleanup pass over the board as
        the fire pass left it. `failed` holds the ids whose semaphore wait
        fails. */
    method PerformActions(failed: set<nat>) returns (ghost notified: Board, ghost fired: Board)
      requires Valid()
      modifies this`grid, tanks`action, tanks`destroyed, tanks`currentAction, Buffers()
      ensures Valid()
      ensures (notified, Boxes()) == Rounds.Notify(old(View()), old(Boxes()))
      ensures FirePass.Fired(notified, failed, fired)
      ensures View() == MovePass.MovePhase(fired, areaX, areaY)
    {
      NotifyAllTanks();
      notified := View();
      fired := ResolveRound(failed);
      Rounds.RoundKeepsBoard(old(View()), notified, failed, fired, areaX, areaY);
    }

    /** performRound: the counter (an unsigned int) goes up by one, the
        waiting datagrams are delivered, the round is resolved and the
        snapshot is written. */
    method PerformRound(msgs: seq<Routing.Message>, failed: set<nat>)
      returns (s: string, ghost notified: Board, ghost fired: Board)
      requires Valid()
      modifies this`roundCount, this`addrToTank, this`freeTanks, this`grid
      modifies tanks`action, tanks`destroyed, tanks`currentAction, Buffers()
      ensures Valid() && roundCount == (old(roundCount) + 1) % 0x1_0000_0000
      ensures Rounds.Played(old(View()), Routing.Binding(old(addrToTank), old(freeTanks)), old(Boxes()), msgs,
                            failed, areaX, areaY, notified, fired,
                            View(), Routing.Binding(addrToTank, freeTanks), Boxes())
      ensures s == Snapshot(grid, TeamsOf(tanks), areaX, areaY)
    {
      ghost var v, st0, boxes0 := View(), Routing.Binding(addrToTank, freeTanks), Boxes();
      roundCount := (roundCount + 1) % 0x1_0000_0000;
      assert View() == v && Routing.Binding(addrToTank, freeTanks) == st0 && Boxes() == boxes0;
      notified, fired := Play(msgs, failed);
      ghost var v1, st1, boxes1 := View(), Routing.Binding(addrToTank, freeTanks), Boxes();
      assert Rounds.Played(v, st0, boxes0, msgs, failed, areaX, areaY, notified, fired, v1, st1, boxes1);
      s := PrintGameBoard();
      assert View() == v1 && Routing.Binding(addrToTank, freeTanks) == st1 && Boxes() == boxes1;
    }

    /** The datagrams, then the resolution of the round. */
    method Play(msgs: seq<Routing.Message>, failed: set<nat>) returns (ghost notified: Board, ghost fired: Board)
      requires Valid()
      modifies this`addrToTank, this`freeTanks, this`grid
      modifies tanks`action, tanks`destroyed, tanks`currentAction, Buffers()
      ensures Valid()
      ensures Rounds.Played(old(View()), Routing.Binding(old(addrToTank), old(freeTanks)), old(Boxes()), msgs,
                            failed, areaX, areaY, notified, fired,
                            View(), Routing.Binding(addrToTank, freeTanks), Boxes())
    {
      ghost var v := View();
      ReceiveMessages(msgs);
      assert View() == v;
      ghost var bound := Routing.Binding(addrToTank, freeTanks);
      notified, fired := PerformActions(failed);
      assert Routing.Binding(addrToTank, freeTanks) == bound;
    }

    // ------------------------------------------------------------------
    // Client datagrams

    /** setNextAction on the tank with the given id. */
    method SetNext(id: nat, c0: char, c1: char)
      requires Heap() && id < |tanks|
      modifies tanks[id].actionBuffer
      ensures Heap() && (old(BoardOk()) ==> BoardOk()) && (old(RoutingOk()) ==> RoutingOk())
      ensures Flags() == old(Flags())
      ensures Boxes() == old(Boxes())[id := Write(old(Boxes())[id], c0, c1)]
    {
      tanks[id].SetNextAction(c0, c1);
    }

    /** The assignment loop for a new address: pop free tanks from the back
        until one that is not destroyed comes out. */
    method ClaimTank() returns (tank: Option<nat>)
      requires Heap() && RoutingOk()
      modifies this`freeTanks
      ensures (tank, freeTanks) == Routing.Claim(old(freeTanks), Flags())
      ensures Flags() == old(Flags()) && Boxes() == old(Boxes()) && (old(BoardOk()) ==> BoardOk())
    {
      ghost var d := Flags();
      var free := freeTanks;
      tank := None;
      while |free| > 0
        invariant free == freeTanks[..|free|]
        invariant tank.Some? ==> tank.value < |tanks| && d[tank.value]
        invariant Routing.Claim(freeTanks, d) == Routing.Claim(free, d)
      {
        var t := free[|free| - 1];
        free := free[..|free| - 1];
        tank := Some(t);
        if !tanks[t].IsDestroyed() {
          break;
        }
      }
      if tank.Some? && tanks[tank.value].IsDestroyed() {
        tank := None;
      }
      freeTanks := free;
    }

    /** A datagram from a bound address: the code goes to its tank unless
        that tank is destroyed. */
    method ReceiveKnown(m: Routing.Message)
      requires Valid() && m.from in addrToTank
      modifies Buffers()
      ensures Valid() && Flags() == old(Flags())
      ensures Boxes() == Routing.Deliver(Routing.Binding(addrToTank, freeTanks), old(Boxes()), Flags(), m).1
    {
      var id := addrToTank[m.from];
      if !tanks[id].IsDestroyed() {
        SetNext(id, m.code0, m.code1);
      }
    }

    /** A datagram from a new address: bind it to a free tank, if one is
        left, and pass that tank the code. */
    method ReceiveNew(m: Routing.Message)
      requires Valid() && m.from !in addrToTank
      modifies this`addrToTank, this`freeTanks, Buffers()
      ensures Valid() && Flags() == old(Flags())
      ensures (Routing.Binding(addrToTank, freeTanks), Boxes()) ==
        Routing.Deliver(Routing.Binding(old(addrToTank), old(freeTanks)), old(Boxes()), Flags(), m)
    {
      ghost var st := Routing.Binding(addrToTank, freeTanks);
      ghost var boxes0, d := Boxes(), Flags();
      Routing.DeliverNew(st, boxes0, d, m);
      var t := ClaimTank();
      if t.Some? {
        Assign(m.from, t.value, m.code0, m.code1);
      }
      assert Flags() == d;
    }

    /** The claimed tank is bound to the new address and takes its code. */
    method Assign(a: SockAddr, id: nat, c0: char, c1: char)
      requires BoardOk() && id < |tanks|
      requires Routing.BindingOk(Routing.Binding(addrToTank[a := id], freeTanks), |tanks|)
      modifies this`addrToTank, tanks[id].actionBuffer
      ensures Valid() && addrToTank == old(addrToTank)[a := id] && Flags() == old(Flags())
      ensures Boxes() == old(Boxes())[id := Write(old(Boxes())[id], c0, c1)]
    {
      Bind(a, id);
      SetNext(id, c0, c1);
    }

    /** addrToTank[a] = the tank with the given id. */
    method Bind(a: SockAddr, id: nat)
      requires Heap() && Routing.BindingOk(Routing.Binding(addrToTank[a := id], freeTanks), |tanks|)
      modifies this`addrToTank
      ensures RoutingOk() && addrToTank == old(addrToTank)[a := id]
      ensures BoardOk() == old(BoardOk()) && Flags() == old(Flags()) && Boxes() == old(Boxes())
    {
      addrToTank := addrToTank[a := id];
    }

    /** One datagram of receiveMessages. */
    method ReceiveOne(m: Routing.Message)
      requires Valid()
      modifies this`addrToTank, this`freeTanks, Buffers()
      ensures Valid() && Flags() == old(Flags())
      ensures (Routing.Binding(addrToTank, freeTanks), Boxes()) ==
        Routing.Deliver(Routing.Binding(old(addrToTank), old(freeTanks)), old(Boxes()), Flags(), m)
    {
      if m.from in addrToTank {
        ReceiveKnown(m);
      } else {
        ReceiveNew(m);
      }
    }

    /** receiveMessages: every datagram waiting on the socket, in arrival
        order. */
    method ReceiveMessages(msgs: seq<Routing.Message>)
      requires Valid()
      modifies this`addrToTank, this`freeTanks, Buffers()
      ensures Valid()
      ensures (Routing.Binding(addrToTank, freeTanks), Boxes()) ==
        Routing.ReceiveAll(Routing.Binding(old(addrToTank), old(freeTanks)), old(Boxes()), Flags(), msgs)
    {
      ghost var st0 := Routing.Binding(addrToTank, freeTanks);
      ghost var boxes0, d := Boxes(), Flags();
      for i := 0 to |msgs|
        invariant Valid() && Flags() == d
        invariant (Routing.Binding(addrToTank, freeTanks), Boxes()) ==
          Routing.ReceiveAll(st0, boxes0, d, msgs[..i])
      {
        assert msgs[..i + 1][..i] == msgs[..i];
        ghost var prev := Routing.ReceiveAll(st0, boxes0, d, msgs[..i]);
        assert Routing.ReceiveAll(st0, boxes0, d, msgs[..i + 1]) ==
          Routing.Deliver(prev.0, prev.1, d, msgs[i]);
        ReceiveOne(msgs[i]);
      }
      assert msgs[..|msgs|] == msgs;
    }

    // ------------------------------------------------------------------
    // The snapshot

    /** printGameBoard: the text written to the named pipe. */
    method PrintGameBoard() returns (s: string)
      requires BoardOk()
      ensures s == Snapshot(grid, TeamsOf(tanks), areaX, areaY)
      ensures Valid() == old(Valid()) && View() == old(View()) && Boxes() == old(Boxes())
    {
      ghost var teams := TeamsOf(tanks);
      assert |teams| == |View().action|;
      s := NatToString(areaX) + [','] + NatToString(areaY) + [','];
      for i := 0 to areaY
        invariant s == Header(areaX, areaY) + BodyText(grid, teams, areaX, i)
      {
        for j := 0 to areaX
          invariant s == Header(areaX, areaY) + BodyText(grid, teams, areaX, i) + RowText(grid, teams, i, j)
        {
          var q := Cell(i, j);
          if q in grid {
            if tanks[grid[q]].team == Green {
              s := s + ['g'];
            } else {
              s := s + ['r'];
            }
          } else {
            s := s + ['0'];
          }
          s := s + [','];
        }
      }
    }
  }
}
