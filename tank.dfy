/** The coordinator-side state of one tank: its team, the action it decided
    for the current round, the destroyed flag, and the double-buffered
    mailbox through which client messages reach it. */
module Tanks {
  import opened Actions

  /** Abstract value of the mailbox: the four characters of actionBuffer and
      the offset (0 or 2) that currentAction points to. The half at
      `current` is read by the next doAction; the other half receives
      setNextAction. */
  datatype Mailbox = Mailbox(buffer: seq<char>, current: nat)

  ghost predicate ValidBox(m: Mailbox) {
    |m.buffer| == 4 && (m.current == 0 || m.current == 2)
  }

  /** Offset of the half that currentAction does not point to. */
  function Behind(current: nat): nat {
    if current == 0 then 2 else 0
  }

  /** A new tank's buffer "nono" with currentAction at the start. */
  function InitialBox(): (m: Mailbox)
    ensures ValidBox(m)
    ensures ParseAction(m.buffer[0], m.buffer[1]) == NoAction
    ensures ParseAction(m.buffer[2], m.buffer[3]) == NoAction
  {
    Mailbox("nono", 0)
  }

  /** setNextAction: the code goes into the half behind currentAction. */
  function Write(m: Mailbox, c0: char, c1: char): (r: Mailbox)
    requires ValidBox(m)
    ensures ValidBox(r) && r.current == m.current
    ensures r.buffer[m.current] == m.buffer[m.current]
    ensures r.buffer[m.current + 1] == m.buffer[m.current + 1]
    ensures r.buffer[Behind(m.current)] == c0 && r.buffer[Behind(m.current) + 1] == c1
  {
    var b := Behind(m.current);
    Mailbox(m.buffer[b := c0][b + 1 := c1], m.current)
  }

  /** doAction: the action parsed from the current half, and the mailbox with
      that half reset to "no" and currentAction moved to the other half. */
  function Take(m: Mailbox): (r: (Mailbox, Action))
    requires ValidBox(m)
    ensures ValidBox(r.0) && r.0.current == Behind(m.current)
    ensures r.1 == ParseAction(m.buffer[m.current], m.buffer[m.current + 1])
    ensures r.0.buffer[m.current] == 'n' && r.0.buffer[m.current + 1] == 'o'
    ensures r.0.buffer[Behind(m.current)] == m.buffer[Behind(m.current)]
    ensures r.0.buffer[Behind(m.current) + 1] == m.buffer[Behind(m.current) + 1]
  {
    var c := m.current;
    (Mailbox(m.buffer[c := 'n'][c + 1 := 'o'], Behind(c)),
     ParseAction(m.buffer[c], m.buffer[c + 1]))
  }

  /** The last code written before a doAction wins. */
  lemma LastWriteWins(m: Mailbox, a0: char, a1: char, b0: char, b1: char)
    requires ValidBox(m)
    ensures Write(Write(m, a0, a1), b0, b1) == Write(m, b0, b1)
  {
  }

  /** A code written before one doAction is what the following doAction
      parses (the one after that first doAction). */
  lemma WrittenCodeIsTakenNext(m: Mailbox, c0: char, c1: char)
    requires ValidBox(m)
    ensures Take(Take(Write(m, c0, c1)).0).1 == ParseAction(c0, c1)
  {
  }

  /** Two doActions with no write in between leave "nono" behind, so with no
      new input the next action is NO_ACTION. */
  lemma NoInputMeansNoAction(m: Mailbox)
    requires ValidBox(m)
    ensures Take(Take(m).0).0.buffer == "nono"
    ensures Take(Take(Take(m).0).0).1 == NoAction
  {
    var m2 := Take(Take(m).0).0;
    assert m2.buffer == "nono" by {
      assert |m2.buffer| == 4;
      assert m2.buffer[0] == 'n' && m2.buffer[1] == 'o' && m2.buffer[2] == 'n' && m2.buffer[3] == 'o';
    }
  }

  class Tank {
    const team: Team
    var action: Action
    var actionBuffer: array<char>
    var currentAction: nat
    var destroyed: bool

    /** currentAction always points to offset 0 or 2 of the 4-character buffer. */
    ghost predicate Valid()
      reads this`actionBuffer, this`currentAction
    {
      actionBuffer.Length == 4 && (currentAction == 0 || currentAction == 2)
    }

    ghost function Box(): (m: Mailbox)
      reads this`actionBuffer, this`currentAction, actionBuffer
      requires Valid()
      ensures ValidBox(m)
    {
      Mailbox(actionBuffer[..], currentAction)
    }

    constructor (team: Team)
      ensures Valid() && fresh(actionBuffer)
      ensures this.team == team && action == Undefined && !destroyed
      ensures Box() == InitialBox()
    {
      this.team := team;
      action := Undefined;
      destroyed := false;
      var buf := new char[4];
      buf[0], buf[1], buf[2], buf[3] := 'n', 'o', 'n', 'o';
      actionBuffer := buf;
      currentAction := 0;
      assert buf[..] == "nono";
    }

    predicate IsDestroyed()
      reads this
    {
      destroyed
    }

    function GetAction(): Action
      reads this
    {
      action
    }

    /** Sets the flag; no operation ever clears it. */
    method MarkAsDestroyed()
      modifies this`destroyed
      ensures destroyed && IsDestroyed()
    {
      destroyed := true;
    }

    /** The tank thread's step after the round broadcast (the echo of the code
        to the client socket is not modelled). */
    method DoAction()
      requires Valid()
      modifies this`action, this`currentAction, actionBuffer
      ensures Valid()
      ensures (Box(), action) == Take(old(Box()))
      ensures destroyed == old(destroyed)
    {
      action := ParseAction(actionBuffer[currentAction], actionBuffer[currentAction + 1]);
      actionBuffer[currentAction] := 'n';
      actionBuffer[currentAction + 1] := 'o';
      if currentAction == 0 {
        currentAction := currentAction + 2;
      } else {
        currentAction := currentAction - 2;
      }
      assert actionBuffer[..] == old(actionBuffer[..])[old(currentAction) := 'n'][old(currentAction) + 1 := 'o'];
    }

    method SetNextAction(c0: char, c1: char)
      requires Valid()
      modifies actionBuffer
      ensures Valid()
      ensures Box() == Write(old(Box()), c0, c1)
    {
      if currentAction == 0 {
        actionBuffer[2] := c0;
        actionBuffer[3] := c1;
      } else {
        actionBuffer[0] := c0;
        actionBuffer[1] := c1;
      }
      assert actionBuffer[..] == old(actionBuffer[..])[Behind(currentAction) := c0][Behind(currentAction) + 1 := c1];
    }

    /** The outcome of waiting on the tank's ready semaphore is given as
        `succeeded`; a failed wait clears the action. */
    method WaitForTank(succeeded: bool) returns (r: int)
      modifies this`action
      ensures succeeded ==> r == 0 && action == old(action)
      ensures !succeeded ==> r == -1 && action == Undefined
    {
      if !succeeded {
        action := Undefined;
        return -1;
      }
      return 0;
    }

    method SetActionToUndefined()
      modifies this`action
      ensures action == Undefined
    {
      action := Undefined;
    }
  }
}
