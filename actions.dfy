/** The team and action vocabulary shared by the coordinator and the tank
    processes, the two-character action codes and their parser. */
module Actions {

  datatype Team = Green | Red

  /** The action enumeration in declaration order (UNDEFINED is 0, FIRE_LEFT
      is 8), followed by NO_ACTION, which the parser returns for "no". */
  datatype Action =
    | Undefined
    | MoveUp | MoveDown | MoveRight | MoveLeft
    | FireUp | FireDown | FireRight | FireLeft
    | NoAction
  {
    predicate IsMove() {
      MoveUp? || MoveDown? || MoveRight? || MoveLeft?
    }

    predicate IsFire() {
      FireUp? || FireDown? || FireRight? || FireLeft?
    }

    /** One of the eight moves and shots a tank can choose. */
    predicate IsCommand() {
      IsMove() || IsFire()
    }
  }

  /** The second letter of a command's code: its direction. */
  function DirectionLetter(a: Action): char
    requires a.IsCommand()
  {
    match a
    case MoveUp => 'u'
    case FireUp => 'u'
    case MoveDown => 'd'
    case FireDown => 'd'
    case MoveLeft => 'l'
    case FireLeft => 'l'
    case MoveRight => 'r'
    case FireRight => 'r'
  }

  /** The integer value of an enumeration constant. */
  function Ordinal(a: Action): nat
  {
    match a
    case Undefined => 0
    case MoveUp => 1
    case MoveDown => 2
    case MoveRight => 3
    case MoveLeft => 4
    case FireUp => 5
    case FireDown => 6
    case FireRight => 7
    case FireLeft => 8
    case NoAction => 9
  }

  /** static_cast of an integer in 1..8 to the action enumeration. */
  function ActionOfOrdinal(n: int): (a: Action)
    requires 1 <= n <= 8
    ensures a.IsCommand() && Ordinal(a) == n
  {
    if n == 1 then MoveUp
    else if n == 2 then MoveDown
    else if n == 3 then MoveRight
    else if n == 4 then MoveLeft
    else if n == 5 then FireUp
    else if n == 6 then FireDown
    else if n == 7 then FireRight
    else FireLeft
  }

  /** The random choice of the signal-driven tank process: the value
      `(rand() % 8) + 1`, where rand() returns a non-negative number. */
  function RandomAction(rnd: nat): (a: Action)
    ensures a.IsCommand()
    ensures 1 <= Ordinal(a) <= 8 && Ordinal(a) == rnd % 8 + 1
    ensures a != Undefined && a != NoAction
  {
    ActionOfOrdinal(rnd % 8 + 1)
  }

  /** Reads the first two characters of an action message. */
  function ParseAction(c0: char, c1: char): (a: Action)
    ensures a == NoAction <==> c0 == 'n' && c1 == 'o'
    ensures a.IsMove() <==> c0 == 'm' && c1 in "udlr"
    ensures a.IsFire() <==> c0 == 'f' && c1 in "udlr"
    ensures a.IsCommand() ==> DirectionLetter(a) == c1
  {
    match c0
    case 'f' =>
      (match c1
       case 'u' => FireUp
       case 'd' => FireDown
       case 'l' => FireLeft
       case 'r' => FireRight
       case _ => Undefined)
    case 'm' =>
      (match c1
       case 'u' => MoveUp
       case 'd' => MoveDown
       case 'l' => MoveLeft
       case 'r' => MoveRight
       case _ => Undefined)
    case 'n' => if c1 == 'o' then NoAction else Undefined
    case _ => Undefined
  }

  /** The code the signal-driven tank process writes for a chosen command.
      For any other enumeration value its buffer stays uninitialised, so the
      handler is only ever given a command. */
  function HandlerCode(a: Action): (code: string)
    requires a.IsCommand()
    ensures |code| == 2
    ensures code[0] == (if a.IsMove() then 'm' else 'f')
    ensures code[1] == DirectionLetter(a)
  {
    match a
    case MoveUp => "mu"
    case MoveDown => "md"
    case MoveRight => "mr"
    case MoveLeft => "ml"
    case FireUp => "fu"
    case FireDown => "fd"
    case FireRight => "fr"
    case FireLeft => "fl"
  }

  /** The two bytes the handler writes in answer to one request. */
  function HandlerReply(rnd: nat): (bytes: string)
    ensures |bytes| == 2
    ensures ParseAction(bytes[0], bytes[1]) == RandomAction(rnd)
  {
    CodeRoundTrip(RandomAction(rnd));
    HandlerCode(RandomAction(rnd))
  }

  /** Parsing the code of a command gives the command back. */
  lemma CodeRoundTrip(a: Action)
    requires a.IsCommand()
    ensures ParseAction(HandlerCode(a)[0], HandlerCode(a)[1]) == a
  {
  }

  /** The eight codes are pairwise distinct. */
  lemma CodesDistinct(a: Action, b: Action)
    requires a.IsCommand() && b.IsCommand()
    ensures HandlerCode(a) == HandlerCode(b) <==> a == b
  {
    if HandlerCode(a) == HandlerCode(b) {
      CodeRoundTrip(a);
      CodeRoundTrip(b);
    }
  }

  /** Exactly nine codes are understood; every other pair parses as
      UNDEFINED. */
  lemma ParseUndefinedIff(c0: char, c1: char)
    ensures ParseAction(c0, c1) != Undefined <==>
              [c0, c1] in ["mu", "md", "mr", "ml", "fu", "fd", "fr", "fl", "no"]
  {
  }
}
