/** The display client: it reads the coordinator's snapshots from the named
    pipe, one byte or one field at a time, and draws the board. */
module Client {
  import opened Snapshots

  /** What one read(2) of the pipe delivers: a byte, or a failure (-1).
      A failure is used up by the read that reports it, so the next read
      goes on with the event after it. Past the end of the sequence every
      read returns 0 (end of file). */
  datatype Event = Data(c: char) | Fault

  /** The size of the stack buffer a size field is collected in. */
  const BufferSize: nat := 16

  /** How the collection of one size field ends. */
  datatype Scan =
    | Found(field: seq<char>, next: nat)  // a ',' ended it; `next` follows the comma
    | Failed(at: nat)                     // read returned -1 at `at`
    | AtEof                               // read returned 0, in the first loop only
    | Overrun(at: nat)                    // the field outgrew the buffer; `at` follows the last byte read

  /** The outcome of a call: the int it returns, or undefined behaviour
      (a write past the 16-byte buffer, or atoi on a buffer with no
      terminating NUL). */
  datatype Status = Returned(code: int) | Undefined

  /** The client's size fields and the read cursor in the pipe. */
  datatype ClientState = ClientState(x: int, y: int, pos: nat)

  predicate IsSpace(c: char) {
    c == ' ' || 9 <= c as int <= 13
  }

  function SkipSpaces(s: seq<char>): (t: seq<char>)
    ensures |t| <= |s|
  {
    if s != [] && IsSpace(s[0]) then SkipSpaces(s[1..]) else s
  }

  /** What SkipSpaces leaves is what follows the leading white space. */
  lemma {:induction false} SkipSpacesSuffix(s: seq<char>)
    ensures var t := SkipSpaces(s);
      && t == s[|s| - |t|..]
      && (forall i :: 0 <= i < |s| - |t| ==> IsSpace(s[i]))
      && (t == [] || !IsSpace(t[0]))
  {
    if s != [] && IsSpace(s[0]) {
      SkipSpacesSuffix(s[1..]);
      var t := SkipSpaces(s);
      assert s[1..][|s| - 1 - |t|..] == s[|s| - |t|..];
      forall i | 0 <= i < |s| - |t|
        ensures IsSpace(s[i])
      {
        if i > 0 {
          assert s[i] == s[1..][i - 1];
        }
      }
    }
  }

  /** The longest prefix of decimal digits. */
  function DigitPrefix(s: seq<char>): (t: seq<char>)
    ensures |t| <= |s| && forall i :: 0 <= i < |t| ==> IsDigit(t[i])
  {
    if s != [] && IsDigit(s[0]) then [s[0]] + DigitPrefix(s[1..]) else []
  }

  /** DigitPrefix is a prefix, and it stops at the first non-digit. */
  lemma {:induction false} DigitPrefixLongest(s: seq<char>)
    ensures var t := DigitPrefix(s);
      t == s[..|t|] && (|t| == |s| || !IsDigit(s[|t|]))
  {
    if s != [] && IsDigit(s[0]) {
      DigitPrefixLongest(s[1..]);
      var t := DigitPrefix(s);
      assert t == [s[0]] + s[1..][..|t| - 1];
      assert |t| == |s| || s[|t|] == s[1..][|t| - 1];
    }
  }

  /** atoi on the collected characters: leading white space, an optional
      sign, then the longest run of digits; anything else stops it. */
  function Atoi(s: seq<char>): (n: int)
    ensures n < 0 ==> SkipSpaces(s) != [] && SkipSpaces(s)[0] == '-'
    ensures (SkipSpaces(s) == [] || (SkipSpaces(s)[0] !in "+-" && !IsDigit(SkipSpaces(s)[0]))) ==> n == 0
  {
    var t := SkipSpaces(s);
    if t != [] && t[0] == '-' then 0 - DigitsValue(DigitPrefix(t[1..])) as int
    else if t != [] && t[0] == '+' then DigitsValue(DigitPrefix(t[1..]))
    else DigitsValue(DigitPrefix(t))
  }

  /** A field already collected in `acc`, read on from position i: the
      characters up to the next ',' are appended. In the second loop a 0
      from read is not checked: `cur` keeps its last value, which is the ','
      of the first field when nothing was collected yet, and otherwise the
      last character, stored again and again until the buffer overflows. */
  function ScanField(p: seq<Event>, i: nat, acc: seq<char>, second: bool): (r: Scan)
    requires i <= |p| && |acc| <= BufferSize
    ensures r.Found? ==> i <= r.next <= |p| && |r.field| < BufferSize
    ensures r.Found? && r.next == i ==> second && i == |p| && acc == [] && r.field == []
    ensures r.Found? && r.next > i ==> p[r.next - 1] == Data(',')
    ensures r.Failed? ==> i <= r.at < |p| && p[r.at] == Fault
    ensures r.AtEof? ==> !second
    ensures r.Overrun? ==> i <= r.at <= |p| && (r.at == i ==> i == |p|)
    decreases |p| - i
  {
    if i == |p| then
      if !second then AtEof
      else if acc == [] then Found([], i)
      else Overrun(i)
    else match p[i]
      case Fault => Failed(i)
      case Data(c) =>
        if c == ',' then (if |acc| == BufferSize then Overrun(i + 1) else Found(acc, i + 1))
        else if |acc| == BufferSize then Overrun(i + 1)
        else ScanField(p, i + 1, acc + [c], second)
  }

  /** Where the cursor is once the scan from i has ended: past every event
      the loop read, the failed read included. Unless the pipe is at its
      end, at least one event is used up, so a failure is never read twice. */
  function ScanEnd(p: seq<Event>, i: nat, acc: seq<char>, second: bool): (e: nat)
    requires i <= |p| && |acc| <= BufferSize
    ensures i <= e <= |p|
    ensures i < |p| ==> i < e
    ensures ScanField(p, i, acc, second).Failed? ==> e == ScanField(p, i, acc, second).at + 1
  {
    match ScanField(p, i, acc, second)
    case Found(_, next) => next
    case Failed(at) => at + 1
    case AtEof => |p|
    case Overrun(at) => at
  }

  /** readGameBoardSize: x from the characters before the first ',', y from
      those before the next one. It returns -2 at end of file in the first
      field and -1 on a failed read; x is assigned as soon as the first
      field is complete. */
  function ReadSize(p: seq<Event>, st: ClientState): (r: (Status, ClientState))
    requires st.pos <= |p|
    ensures r.1.pos <= |p|
    ensures r.0 == Returned(0) || r.0 == Returned(-1) || r.0 == Returned(-2) || r.0 == Undefined
    ensures r.0 == Returned(-2) ==> r.1 == st.(pos := |p|)
    ensures r.0 == Returned(-2) <==> ScanField(p, st.pos, [], false).AtEof?
    ensures st.pos == |p| ==> r == (Returned(-2), st)
  {
    match ScanField(p, st.pos, [], false)
    case Failed(at) => (Returned(-1), st.(pos := at + 1))
    case AtEof => (Returned(-2), st.(pos := |p|))
    case Overrun(at) => (Undefined, st.(pos := at))
    case Found(f, next) =>
      var x := Atoi(f);
      match ScanField(p, next, [], true)
      case Found(g, next') => (Returned(0), ClientState(x, Atoi(g), next'))
      case Failed(at) => (Returned(-1), ClientState(x, st.y, at + 1))
      case Overrun(at) => (Undefined, ClientState(x, st.y, at))
      case AtEof => (Undefined, ClientState(x, st.y, next))
  }

  /** What readFieldFromPipe gets from one read of two bytes: both bytes,
      only the first one, or nothing (read failed or hit end of file and the
      array keeps indeterminate bytes). A failed read is used up. */
  datatype FieldRead = Field(c: char, separatorOk: bool) | Partial(c: char) | Garbage

  function ReadField(p: seq<Event>, pos: nat): (r: (FieldRead, nat))
    requires pos <= |p|
    ensures pos <= r.1 <= pos + 2 && r.1 <= |p|
    ensures r.0.Field? <==> r.1 == pos + 2
    ensures r.0.Field? ==> p[pos] == Data(r.0.c) && (r.0.separatorOk <==> p[pos + 1] == Data(','))
    ensures r.0.Garbage? <==> pos == |p| || p[pos] == Fault
    ensures pos < |p| ==> pos < r.1
    ensures pos + 1 < |p| && p[pos].Data? && p[pos + 1].Data? ==> r.0.Field?
    ensures !r.0.Garbage? ==> p[pos] == Data(r.0.c)
  {
    if pos < |p| && p[pos].Data? then
      if pos + 1 < |p| && p[pos + 1].Data? then (Field(p[pos].c, p[pos + 1].c == ','), pos + 2)
      else (Partial(p[pos].c), pos + 1)
    else if pos < |p| then (Garbage, pos + 1)
    else (Garbage, pos)
  }

  /** What is drawn at a board position: a blank, a green or a red 'X',
      nothing (an illegal field is logged), or whatever an indeterminate
      byte selects. */
  datatype Glyph = Blank | GreenTank | RedTank | NotDrawn | Indeterminate

  /** The switch over a read byte: only '0', 'g' and 'r' are drawn, and
      each of them selects its own glyph. */
  function GlyphOf(c: char): (g: Glyph)
    ensures g != Indeterminate
    ensures g == NotDrawn <==> c != '0' && c != 'g' && c != 'r'
  {
    if c == '0' then Blank
    else if c == 'g' then GreenTank
    else if c == 'r' then RedTank
    else NotDrawn
  }

  /** A drawn glyph names the byte it was drawn from. */
  lemma GlyphDecodes(c: char, d: char)
    requires GlyphOf(c) == GlyphOf(d) != NotDrawn
    ensures c == d
  {
  }

  /** The glyph for one field read: a byte that was read, even without its
      separator, is drawn by `GlyphOf`; a failed read leaves it indeterminate. */
  function FieldGlyph(f: FieldRead): (g: Glyph)
    ensures g == Indeterminate <==> f.Garbage?
    ensures !f.Garbage? ==> g == GlyphOf(f.c)
  {
    match f
    case Field(c, _) => GlyphOf(c)
    case Partial(c) => GlyphOf(c)
    case Garbage => Indeterminate
  }

  /** The first `cols` fields of a row. */
  function ReadRow(p: seq<Event>, pos: nat, cols: nat): (r: (seq<Glyph>, nat))
    requires pos <= |p|
    ensures |r.0| == cols && pos <= r.1 <= |p|
  {
    if cols == 0 then ([], pos)
    else
      var (g, pos1) := ReadRow(p, pos, cols - 1);
      var (f, pos2) := ReadField(p, pos1);
      (g + [FieldGlyph(f)], pos2)
  }

  /** The first `rows` rows of `cols` fields each. */
  function ReadRows(p: seq<Event>, pos: nat, rows: nat, cols: nat): (r: (seq<seq<Glyph>>, nat))
    requires pos <= |p|
    ensures |r.0| == rows && pos <= r.1 <= |p|
    ensures forall i :: 0 <= i < rows ==> |r.0[i]| == cols
  {
    if rows == 0 then ([], pos)
    else
      var (g, pos1) := ReadRows(p, pos, rows - 1, cols);
      var (row, pos2) := ReadRow(p, pos1, cols);
      (g + [row], pos2)
  }

  /** printGameboardFrame: the size is read; the frame is redrawn only when
      the read succeeded and the size differs from the previous one. */
  function Frame(p: seq<Event>, st: ClientState): (r: (Status, bool, ClientState))
    requires st.pos <= |p|
    ensures r.1 <==> r.0 == Returned(0) && (r.2.x != st.x || r.2.y != st.y)
    ensures (r.0, r.2) == ReadSize(p, st)
  {
    var (status, st') := ReadSize(p, st);
    (status, status == Returned(0) && (st'.x != st.x || st'.y != st.y), st')
  }

  function Count(n: int): nat {
    if n > 0 then n else 0
  }

  /** What one printGameboard call draws. */
  datatype Drawing =
    | Skipped                                   // the size read hit end of file
    | Broken                                    // undefined behaviour in the size read
    | Drawn(redraw: bool, rows: seq<seq<Glyph>>)

  /** printGameboard: unless the size read returned -2, it reads y rows of
      x fields (with whatever size x and y now hold, also after a failed
      read). */
  function PrintBoard(p: seq<Event>, st: ClientState): (r: (Drawing, ClientState))
    requires st.pos <= |p|
    ensures r.1.pos <= |p|
    ensures r.0.Skipped? <==> ReadSize(p, st).0 == Returned(-2)
    ensures r.0.Broken? <==> ReadSize(p, st).0 == Undefined
    ensures r.0.Drawn? <==> ReadSize(p, st).0 in {Returned(0), Returned(-1)}
    ensures r.0.Drawn? ==> |r.0.rows| == Count(r.1.y) && (r.1.x, r.1.y) == (ReadSize(p, st).1.x, ReadSize(p, st).1.y)
  {
    var (status, redraw, st') := Frame(p, st);
    if status == Returned(-2) then (Skipped, st')
    else if status == Undefined then (Broken, st')
    else
      var (rows, pos) := ReadRows(p, st'.pos, Count(st'.y), Count(st'.x));
      (Drawn(redraw, rows), st'.(pos := pos))
  }

  /** A scan with no failures before end of file in the first loop gives
      -2; a run of up to 15 characters that ends in ',' is found. */
  lemma {:induction false} ScanFinds(p: seq<Event>, i: nat, acc: seq<char>, f: seq<char>, second: bool)
    requires i + |f| < |p| && |acc| + |f| < BufferSize
    requires forall k :: 0 <= k < |f| ==> f[k] != ',' && p[i + k] == Data(f[k])
    requires p[i + |f|] == Data(',')
    ensures ScanField(p, i, acc, second) == Found(acc + f, i + |f| + 1)
    decreases |f|
  {
    if f != [] {
      ScanFinds(p, i + 1, acc + [f[0]], f[1..], second);
      assert acc + [f[0]] + f[1..] == acc + f;
    }
  }

  /** A read that fails at the cursor makes readGameBoardSize return -1
      and is used up: the sizes are kept and the next call starts with the
      event after it. */
  lemma FailureIsUsedUp(p: seq<Event>, st: ClientState)
    requires st.pos < |p| && p[st.pos] == Fault
    ensures ReadSize(p, st) == (Returned(-1), st.(pos := st.pos + 1))
  {
  }

  /** After a failed read the client reads on: on the pipe "-1", "1,1,"
      the first call returns -1 and the second one reads the size 1 by 1. */
  lemma ReadsOnAfterFailure()
    ensures var p := [Fault, Data('1'), Data(','), Data('1'), Data(',')];
      var (r1, st1) := ReadSize(p, ClientState(0, 0, 0));
      && r1 == Returned(-1)
      && ReadSize(p, st1) == (Returned(0), ClientState(1, 1, 5))
  {
    var p := [Fault, Data('1'), Data(','), Data('1'), Data(',')];
    ScanFinds(p, 1, [], "1", false);
    ScanFinds(p, 3, [], "1", true);
    assert Atoi("1") == 1 by { AtoiOfDigits(1); }
  }

  /** A size field written as a number reads back as that number. */
  lemma AtoiOfDigits(n: nat)
    ensures Atoi(NatToString(n)) == n
  {
    var s := NatToString(n);
    assert SkipSpaces(s) == s;
    assert DigitPrefix(s) == s by {
      DigitPrefixAll(s);
    }
    DigitsRoundTrip(n);
  }

  lemma {:induction false} DigitPrefixAll(s: seq<char>)
    requires forall i :: 0 <= i < |s| ==> IsDigit(s[i])
    ensures DigitPrefix(s) == s
  {
    if s != [] {
      DigitPrefixAll(s[1..]);
    }
  }

  /** The client: the two size fields and the pipe it reads, with its
      cursor. */
  class WorldClient {
    var x: int
    var y: int
    /** Everything the pipe delivers, in order, and how far it has been
        read. */
    const pipe: seq<Event>
    var pos: nat

    ghost function State(): ClientState
      reads this`x, this`y, this`pos
    {
      ClientState(x, y, pos)
    }

    constructor (pipe: seq<Event>)
      ensures State() == ClientState(0, 0, 0) && this.pipe == pipe
    {
      x, y := 0, 0;
      this.pipe := pipe;
      pos := 0;
    }

    /** The first loop of readGameBoardSize, byte by byte; `buffer` holds
        what the source collects in its 16-byte array, `|buffer|` is its
        counter. */
    method ReadFirstField() returns (r: Scan)
      requires pos <= |pipe|
      modifies this`pos
      ensures r == ScanField(pipe, old(pos), [], false) && pos == ScanEnd(pipe, old(pos), [], false)
    {
      var buffer: seq<char> := [];
      while true
        invariant old(pos) <= pos <= |pipe| && |buffer| <= BufferSize
        invariant ScanField(pipe, old(pos), [], false) == ScanField(pipe, pos, buffer, false)
        decreases |pipe| - pos
      {
        if pos == |pipe| {
          return AtEof;
        }
        if pipe[pos].Fault? {
          r := Failed(pos);
          pos := pos + 1;
          return;
        }
        var cur := pipe[pos].c;
        pos := pos + 1;
        if cur == ',' {
          break;
        }
        if |buffer| == BufferSize {
          return Overrun(pos);
        }
        buffer := buffer + [cur];
      }
      if |buffer| == BufferSize {
        return Overrun(pos);
      }
      r := Found(buffer, pos);
    }

    /** The second loop of readGameBoardSize. It does not check for end of
        file; `cur` starts as the ',' that ended the first loop. */
    method ReadSecondField() returns (r: Scan)
      requires pos <= |pipe|
      modifies this`pos
      ensures r == ScanField(pipe, old(pos), [], true) && pos == ScanEnd(pipe, old(pos), [], true)
    {
      var buffer: seq<char> := [];
      var cur := ',';
      while true
        invariant old(pos) <= pos <= |pipe| && |buffer| <= BufferSize
        invariant ScanField(pipe, old(pos), [], true) == ScanField(pipe, pos, buffer, true)
        invariant buffer == [] <==> cur == ','
        decreases |pipe| - pos + BufferSize - |buffer|
      {
        if pos < |pipe| && pipe[pos].Fault? {
          r := Failed(pos);
          pos := pos + 1;
          return;
        }
        if pos < |pipe| {
          cur := pipe[pos].c;
          pos := pos + 1;
        }
        if cur == ',' {
          break;
        }
        if |buffer| == BufferSize {
          return Overrun(pos);
        }
        buffer := buffer + [cur];
      }
      if |buffer| == BufferSize {
        return Overrun(pos);
      }
      r := Found(buffer, pos);
    }

    /** readGameBoardSize: x is assigned once the first field is complete,
        y once the second one is. */
    method ReadGameBoardSize() returns (r: Status)
      requires pos <= |pipe|
      modifies this`x, this`y, this`pos
      ensures (r, State()) == ReadSize(pipe, old(State()))
    {
      var first := ReadFirstField();
      match first {
        case Failed(_) => return Returned(-1);
        case AtEof => return Returned(-2);
        case Overrun(_) => return Undefined;
        case Found(f, _) =>
      }
      x := Atoi(first.field);
      var second := ReadSecondField();
      match second {
        case Failed(_) => return Returned(-1);
        case AtEof => return Undefined;
        case Overrun(_) => return Undefined;
        case Found(g, _) =>
      }
      y := Atoi(second.field);
      r := Returned(0);
    }

    /** readFieldFromPipe: one read of two bytes; the first is the field,
        the second should be its ','. */
    method ReadFieldFromPipe() returns (f: FieldRead)
      requires pos <= |pipe|
      modifies this`pos
      ensures (f, pos) == ReadField(pipe, old(pos))
    {
      if pos < |pipe| && pipe[pos].Data? {
        var c := pipe[pos].c;
        if pos + 1 < |pipe| && pipe[pos + 1].Data? {
          f := Field(c, pipe[pos + 1].c == ',');
          pos := pos + 2;
        } else {
          f := Partial(c);
          pos := pos + 1;
        }
      } else if pos < |pipe| {
        f := Garbage;
        pos := pos + 1;
      } else {
        f := Garbage;
      }
    }

    /** printGameboardFrame: whether the frame of '$' is drawn again. */
    method PrintGameboardFrame() returns (r: Status, redraw: bool)
      requires pos <= |pipe|
      modifies this`x, this`y, this`pos
      ensures (r, redraw, State()) == Frame(pipe, old(State()))
    {
      var oldX, oldY := x, y;
      r := ReadGameBoardSize();
      redraw := false;
      if r != Returned(0) {
        return;
      }
      if oldX == x && oldY == y {
        return;
      }
      redraw := true;
    }

    /** One row of the field loop of printGameboard. */
    method ReadBoardRow(cols: nat) returns (row: seq<Glyph>)
      requires pos <= |pipe|
      modifies this`pos
      ensures (row, pos) == ReadRow(pipe, old(pos), cols)
    {
      row := [];
      var col := 0;
      while col < cols
        invariant col <= cols && old(pos) <= pos <= |pipe|
        invariant (row, pos) == ReadRow(pipe, old(pos), col)
      {
        var f := ReadFieldFromPipe();
        row := row + [FieldGlyph(f)];
        col := col + 1;
      }
    }

    /** printGameboard: the frame, then y rows of x fields, row-major. */
    method PrintGameboard() returns (d: Drawing)
      requires pos <= |pipe|
      modifies this`x, this`y, this`pos
      ensures (d, State()) == PrintBoard(pipe, old(State()))
    {
      var r, redraw := PrintGameboardFrame();
      if r == Returned(-2) {
        return Skipped;
      }
      if r == Undefined {
        return Broken;
      }
      ghost var start, x0, y0 := pos, x, y;
      var rows: seq<seq<Glyph>> := [];
      var row := 1;
      while row <= y
        invariant x == x0 && y == y0
        invariant 1 <= row <= Count(y) + 1 && start <= pos <= |pipe|
        invariant (rows, pos) == ReadRows(pipe, start, row - 1, Count(x))
      {
        var cells := ReadBoardRow(Count(x));
        rows := rows + [cells];
        row := row + 1;
      }
      d := Drawn(redraw, rows);
    }
  }
}
