/** What one resolution of a round does to the board as a whole. */
module Rounds {
  import opened Actions
  import opened Grids
  import opened Tanks
  import FirePass
  import MovePass
  import MovePassProofs
  import MoveOutcomes
  import Routing

  ghost predicate Boxed(b: Board, boxes: seq<Mailbox>) {
    |boxes| == |b.action| == |b.destroyed| && forall i :: 0 <= i < |boxes| ==> ValidBox(boxes[i])
  }

  /** The round broadcast: every tank not destroyed takes its action from
      its mailbox; destroyed tanks are left alone and the grid is unchanged. */
  function Notify(b: Board, boxes: seq<Mailbox>): (r: (Board, seq<Mailbox>))
    requires Boxed(b, boxes)
    ensures Boxed(r.0, r.1) && r.0.grid == b.grid && r.0.destroyed == b.destroyed
    ensures forall i :: 0 <= i < |boxes| && !b.destroyed[i] ==> (r.1[i], r.0.action[i]) == Take(boxes[i])
    ensures forall i :: 0 <= i < |boxes| && b.destroyed[i] ==> r.1[i] == boxes[i] && r.0.action[i] == b.action[i]
  {
    (b.(action := seq(|boxes|, i requires 0 <= i < |boxes| =>
                       if b.destroyed[i] then b.action[i] else Take(boxes[i]).1)),
     seq(|boxes|, i requires 0 <= i < |boxes| => if b.destroyed[i] then boxes[i] else Take(boxes[i]).0))
  }

  /** The tanks with ids below k have been notified. */
  ghost predicate NotifiedUpTo(b: Board, boxes: seq<Mailbox>, k: int, b': Board, boxes': seq<Mailbox>)
  {
    && Boxed(b, boxes) && Boxed(b', boxes') && b'.grid == b.grid && b'.destroyed == b.destroyed
    && (forall i :: 0 <= i < k && i < |boxes| && !b.destroyed[i] ==> (boxes'[i], b'.action[i]) == Take(boxes[i]))
    && (forall i :: 0 <= i < |boxes| && (k <= i || b.destroyed[i]) ==>
          boxes'[i] == boxes[i] && b'.action[i] == b.action[i])
  }

  /** Notifying tank k (if it is not destroyed) extends the prefix. */
  lemma NotifyStep(b: Board, boxes: seq<Mailbox>, k: nat, b': Board, boxes': seq<Mailbox>,
                   b'': Board, boxes'': seq<Mailbox>)
    requires NotifiedUpTo(b, boxes, k, b', boxes') && k < |boxes|
    requires b''.grid == b'.grid && b''.destroyed == b'.destroyed
    requires b.destroyed[k] ==> b''.action == b'.action && boxes'' == boxes'
    requires !b.destroyed[k] ==>
      b''.action == b'.action[k := Take(boxes'[k]).1] && boxes'' == boxes'[k := Take(boxes'[k]).0]
    ensures NotifiedUpTo(b, boxes, k + 1, b'', boxes'')
  {
  }

  lemma NotifiedAll(b: Board, boxes: seq<Mailbox>, b': Board, boxes': seq<Mailbox>)
    requires NotifiedUpTo(b, boxes, |boxes|, b', boxes')
    ensures (b', boxes') == Notify(b, boxes)
  {
    var r := Notify(b, boxes);
    assert b'.action == r.0.action;
    assert boxes' == r.1;
  }

  /** The broadcast, the fire pass and the move pass together keep the
      board invariant: the board stays well formed and a tank is on it
      exactly when it is not destroyed. */
  lemma RoundKeepsBoard(b: Board, notified: Board, failed: set<nat>, fired: Board, areaX: nat, areaY: nat)
    requires WellFormed(b, areaX, areaY) && LiveOnBoard(b)
    requires notified.grid == b.grid && notified.destroyed == b.destroyed && |notified.action| == |b.action|
    requires FirePass.Fired(notified, failed, fired)
    ensures WellFormed(MovePass.MovePhase(fired, areaX, areaY), areaX, areaY)
    ensures LiveOnBoard(MovePass.MovePhase(fired, areaX, areaY))
  {
    var e := MovePass.MovePhase(fired, areaX, areaY);
    MovePassProofs.MovePhaseInvariant(fired, areaX, areaY);
    forall i | 0 <= i < |e.destroyed|
      ensures i in e.grid.Values <==> !e.destroyed[i]
    {
      if i in e.grid.Values {
        var q :| q in e.grid && e.grid[q] == i;
      } else if i in fired.grid.Values {
        var q0 :| q0 in fired.grid && fired.grid[q0] == i;
      } else {
        assert b.destroyed[i];
      }
    }
  }

  /** One round after the counter: the datagrams are delivered in order
      against the destroyed flags of the start of the round, the broadcast
      takes every live tank's action from its mailbox, then the fire pass
      and the move pass run. (b, st, boxes) is the state before and
      (b', st', boxes') the state after. */
  ghost predicate Played(b: Board, st: Routing.Binding, boxes: seq<Mailbox>, msgs: seq<Routing.Message>,
                         failed: set<nat>, areaX: nat, areaY: nat, notified: Board, fired: Board,
                         b': Board, st': Routing.Binding, boxes': seq<Mailbox>)
  {
    && Sane(b) && Routing.BindingOk(st, |b.destroyed|) && Routing.BoxesOk(boxes, |b.destroyed|)
    && var received := Routing.ReceiveAll(st, boxes, b.destroyed, msgs);
    && st' == received.0
    && (notified, boxes') == Notify(b, received.1)
    && FirePass.Fired(notified, failed, fired)
    && Sane(fired) && b' == MovePass.MovePhase(fired, areaX, areaY)
  }

  /** A live tank that no successful beam covers, that does not move (a
      shooter, a tank without a move, or one whose wait failed and whose
      action became UNDEFINED), and that no live tank with a successful
      wait drives into, ends the resolution alive in its cell. */
  lemma ResolveKeepsTank(b0: Board, failed: set<nat>, fired: Board, areaX: nat, areaY: nat, q0: Cell)
    requires WellFormed(b0, areaX, areaY) && q0 in b0.grid && !b0.destroyed[b0.grid[q0]]
    requires FirePass.Fired(b0, failed, fired)
    requires forall s :: s in b0.grid && b0.grid[s] !in failed ==> !FirePass.InBeam(s, b0.action[b0.grid[s]], q0)
    requires b0.grid[q0] in failed || !b0.action[b0.grid[q0]].IsMove()
    requires forall p :: (p in b0.grid && !b0.destroyed[b0.grid[p]] && b0.grid[p] !in failed
      && b0.action[b0.grid[p]].IsMove()) ==> MovePass.Dest(p, b0.action[b0.grid[p]]) != q0
    ensures b0.grid[q0] in failed ==> fired.action[b0.grid[q0]] == Undefined
    ensures var e := MovePass.MovePhase(fired, areaX, areaY);
      q0 in e.grid && e.grid[q0] == b0.grid[q0] && !e.destroyed[b0.grid[q0]]
  {
    FirePass.FailedWaitFiresNothing(b0, failed, fired, q0);
    assert WellFormed(fired, areaX, areaY);
    forall p | true
      ensures !MoveOutcomes.Aims(fired, p, q0)
    {
      if p in b0.grid && b0.grid[p] in failed {
        assert fired.action[b0.grid[p]] == Undefined;
      }
    }
    MoveOutcomes.MovePhaseStays(fired, areaX, areaY, q0);
  }

  /** A tank marked by the fire pass is destroyed and out of the grid once
      the move pass is over. */
  lemma GoneAfterResolve(fired: Board, areaX: nat, areaY: nat, i: nat)
    requires WellFormed(fired, areaX, areaY) && i < |fired.destroyed| && fired.destroyed[i]
    ensures var e := MovePass.MovePhase(fired, areaX, areaY);
      e.destroyed[i] && i !in e.grid.Values && WellFormed(e, areaX, areaY)
  {
    MovePassProofs.MovePhaseInvariant(fired, areaX, areaY);
    var e := MovePass.MovePhase(fired, areaX, areaY);
    assert forall q :: q in e.grid ==> e.grid[q] != i;
  }

  /** On a board of two tanks where tank 0 is gone and tank 1 is in q,
      every other cell is empty. */
  lemma OtherCellsEmpty(e: Board, q: Cell, p: Cell)
    requires Sane(e) && Injective(e.grid) && |e.destroyed| == 2
    requires q in e.grid && e.grid[q] == 1 && 0 !in e.grid.Values && p != q
    ensures p !in e.grid
  {
  }

  /** The start of the beam example: a 3 by 3 board with tanks at (0,1)
      and (1,1), the second one firing up. */
  function BeamBoard(): Board {
    Board(map[Cell(0, 1) := 0, Cell(1, 1) := 1], [NoAction, FireUp], [false, false])
  }

  lemma BeamBoardFacts()
    ensures var b0 := BeamBoard();
      && WellFormed(b0, 3, 3)
      && (forall s :: s in b0.grid ==> !FirePass.InBeam(s, b0.action[b0.grid[s]], Cell(1, 1)))
      && (forall p :: p in b0.grid ==> !b0.action[b0.grid[p]].IsMove())
  {
    var b0 := BeamBoard();
    assert forall s :: s in b0.grid ==> s == Cell(0, 1) || s == Cell(1, 1);
  }

  /** The beam example: after the resolution the tank at (0,1) is destroyed
      and gone, and the shooter is alive in its cell. */
  lemma BeamExample(fired: Board)
    requires FirePass.Fired(BeamBoard(), {}, fired)
    ensures var e := MovePass.MovePhase(fired, 3, 3);
      && e.destroyed[0] && Cell(0, 1) !in e.grid
      && Cell(1, 1) in e.grid && e.grid[Cell(1, 1)] == 1 && !e.destroyed[1]
  {
    var b0 := BeamBoard();
    BeamBoardFacts();
    FirePass.BeamHitsWholeLine(b0, {}, fired, Cell(1, 1), Cell(0, 1));
    ResolveKeepsTank(b0, {}, fired, 3, 3, Cell(1, 1));
    GoneAfterResolve(fired, 3, 3, 0);
    var e := MovePass.MovePhase(fired, 3, 3);
    OtherCellsEmpty(e, Cell(1, 1), Cell(0, 1));
  }

  /** A tank whose wait failed is treated as doing nothing: alone on a 2 by
      2 board with a pending move right, it keeps its cell and stays alive,
      its action for the round being UNDEFINED. */
  lemma NoResponseExample(fired: Board)
    requires FirePass.Fired(Board(map[Cell(0, 0) := 0], [MoveRight], [false]), {0}, fired)
    ensures fired.action[0] == Undefined
    ensures var e := MovePass.MovePhase(fired, 2, 2);
      Cell(0, 0) in e.grid && e.grid[Cell(0, 0)] == 0 && !e.destroyed[0]
  {
    var b0 := Board(map[Cell(0, 0) := 0], [MoveRight], [false]);
    assert WellFormed(b0, 2, 2);
    ResolveKeepsTank(b0, {0}, fired, 2, 2, Cell(0, 0));
  }
}
