/** The text the coordinator writes to the named pipe after every round:
    the board size, then one character per cell in row-major order, every
    item followed by a comma. */
module Snapshots {
  import opened Actions
  import opened Grids

  /** The character of a decimal digit. */
  function Digit(d: nat): (c: char)
    requires d < 10
    ensures '0' <= c <= '9' && c as int - '0' as int == d
  {
    (d + '0' as int) as char
  }

  predicate IsDigit(c: char) {
    '0' <= c <= '9'
  }

  function DigitValue(c: char): nat
    requires IsDigit(c)
  {
    c as int - '0' as int
  }

  /** A non-negative int as `<<` writes it: decimal, no sign, no leading
      zero. */
  function NatToString(n: nat): (s: string)
    ensures |s| >= 1 && (forall i :: 0 <= i < |s| ==> IsDigit(s[i]))
    ensures |s| == 1 || s[0] != '0'
    decreases n
  {
    if n < 10 then [Digit(n)] else NatToString(n / 10) + [Digit(n % 10)]
  }

  /** The value of a string of decimal digits, most significant first. */
  function DigitsValue(s: string): nat
    requires forall i :: 0 <= i < |s| ==> IsDigit(s[i])
  {
    if s == [] then 0
    else DigitsValue(s[..|s| - 1]) * 10 + DigitValue(s[|s| - 1])
  }

  /** Reading the digits back gives the number. */
  lemma {:induction false} DigitsRoundTrip(n: nat)
    ensures DigitsValue(NatToString(n)) == n
    decreases n
  {
    if n >= 10 {
      var s := NatToString(n);
      assert s[..|s| - 1] == NatToString(n / 10);
      DigitsRoundTrip(n / 10);
    }
  }

  /** A number below 10^k has at most k digits. */
  lemma {:induction false} NatToStringLength(n: nat, k: nat, bound: nat)
    requires k >= 1 && bound == Pow10(k) && n < bound
    ensures |NatToString(n)| <= k
    decreases k
  {
    if k == 1 {
      assert Pow10(1) == 10;
    } else if n >= 10 {
      NatToStringLength(n / 10, k - 1, Pow10(k - 1));
    }
  }

  function Pow10(k: nat): (p: nat)
    ensures p >= 1
  {
    if k == 0 then 1 else 10 * Pow10(k - 1)
  }

  /** The character for one cell: 'g' or 'r' after the team of the tank in
      it, '0' when it is empty. */
  function CellChar(grid: Grid, teams: seq<Team>, q: Cell): (ch: char)
    requires forall p :: p in grid ==> grid[p] < |teams|
    ensures ch == '0' <==> q !in grid
    ensures ch == 'g' <==> q in grid && teams[grid[q]].Green?
    ensures ch == 'r' <==> q in grid && teams[grid[q]].Red?
  {
    if q in grid then (if teams[grid[q]].Green? then 'g' else 'r') else '0'
  }

  /** The first `c` cells of row `r`, each followed by a comma. */
  function RowText(grid: Grid, teams: seq<Team>, r: int, c: nat): string
    requires forall p :: p in grid ==> grid[p] < |teams|
  {
    if c == 0 then []
    else RowText(grid, teams, r, c - 1) + [CellChar(grid, teams, Cell(r, c - 1)), ',']
  }

  /** The first `r` rows of a board `areaX` cells wide. */
  function BodyText(grid: Grid, teams: seq<Team>, areaX: nat, r: nat): string
    requires forall p :: p in grid ==> grid[p] < |teams|
  {
    if r == 0 then []
    else BodyText(grid, teams, areaX, r - 1) + RowText(grid, teams, r - 1, areaX)
  }

  function Header(areaX: nat, areaY: nat): string {
    NatToString(areaX) + [','] + NatToString(areaY) + [',']
  }

  /** printGameBoard: "areaX,areaY," and then every cell. */
  function Snapshot(grid: Grid, teams: seq<Team>, areaX: nat, areaY: nat): string
    requires forall p :: p in grid ==> grid[p] < |teams|
  {
    Header(areaX, areaY) + BodyText(grid, teams, areaX, areaY)
  }

  lemma {:induction false} RowTextShape(grid: Grid, teams: seq<Team>, r: int, c: nat)
    requires forall p :: p in grid ==> grid[p] < |teams|
    ensures var t := RowText(grid, teams, r, c);
      && |t| == 2 * c
      && forall j :: 0 <= j < c ==> t[2 * j] == CellChar(grid, teams, Cell(r, j)) && t[2 * j + 1] == ','
    decreases c
  {
    if c > 0 {
      RowTextShape(grid, teams, r, c - 1);
    }
  }

  /** The number of cells in `r` rows of `w` cells. */
  function Area(r: nat, w: nat): nat {
    if r == 0 then 0 else Area(r - 1, w) + w
  }

  lemma {:induction false} AreaIsProduct(r: nat, w: nat)
    ensures Area(r, w) == r * w
  {
    if r > 0 {
      AreaIsProduct(r - 1, w);
    }
  }

  lemma {:induction false} AreaGrows(i: nat, r: nat, w: nat)
    requires i < r
    ensures Area(i, w) + w <= Area(r, w)
    decreases r
  {
    if i < r - 1 {
      AreaGrows(i, r - 1, w);
    }
  }

  /** The row-major index of cell (i, j) on a board `w` wide and `h` high. */
  function Offset(i: int, j: int, w: nat, h: nat): (k: nat)
    requires 0 <= i < h && 0 <= j < w
    ensures k < Area(h, w)
  {
    AreaGrows(i, h, w);
    Area(i, w) + j
  }

  lemma {:induction false} BodyTextLength(grid: Grid, teams: seq<Team>, areaX: nat, r: nat)
    requires forall p :: p in grid ==> grid[p] < |teams|
    ensures |BodyText(grid, teams, areaX, r)| == 2 * Area(r, areaX)
    decreases r
  {
    if r > 0 {
      BodyTextLength(grid, teams, areaX, r - 1);
      RowTextShape(grid, teams, r - 1, areaX);
    }
  }

  /** Cell (i, j) and its comma in the first r rows. */
  lemma {:induction false} BodyTextCell(grid: Grid, teams: seq<Team>, areaX: nat, r: nat, i: int, j: int)
    requires forall p :: p in grid ==> grid[p] < |teams|
    requires 0 <= i < r && 0 <= j < areaX
    ensures var t := BodyText(grid, teams, areaX, r);
      && 2 * Offset(i, j, areaX, r) + 1 < |t|
      && t[2 * Offset(i, j, areaX, r)] == CellChar(grid, teams, Cell(i, j))
      && t[2 * Offset(i, j, areaX, r) + 1] == ','
    decreases r
  {
    if i < r - 1 {
      BodyTextCell(grid, teams, areaX, r - 1, i, j);
      EarlierRow(grid, teams, areaX, r, i, j);
    } else {
      LastRow(grid, teams, areaX, r, j);
    }
  }

  /** Adding a row keeps the text of the rows before it. */
  lemma EarlierRow(grid: Grid, teams: seq<Team>, areaX: nat, r: nat, i: int, j: int)
    requires forall p :: p in grid ==> grid[p] < |teams|
    requires 0 <= i < r - 1 && 0 <= j < areaX
    requires var t := BodyText(grid, teams, areaX, r - 1);
      2 * Offset(i, j, areaX, r - 1) + 1 < |t|
    ensures var t := BodyText(grid, teams, areaX, r - 1);
      var t' := BodyText(grid, teams, areaX, r);
      && 2 * Offset(i, j, areaX, r) + 1 < |t'|
      && t'[2 * Offset(i, j, areaX, r)] == t[2 * Offset(i, j, areaX, r - 1)]
      && t'[2 * Offset(i, j, areaX, r) + 1] == t[2 * Offset(i, j, areaX, r - 1) + 1]
  {
    assert Offset(i, j, areaX, r) == Offset(i, j, areaX, r - 1);
  }

  /** The cells of the last of r rows. */
  lemma LastRow(grid: Grid, teams: seq<Team>, areaX: nat, r: nat, j: int)
    requires forall p :: p in grid ==> grid[p] < |teams|
    requires 0 < r && 0 <= j < areaX
    ensures var t := BodyText(grid, teams, areaX, r);
      && 2 * Offset(r - 1, j, areaX, r) + 1 < |t|
      && t[2 * Offset(r - 1, j, areaX, r)] == CellChar(grid, teams, Cell(r - 1, j))
      && t[2 * Offset(r - 1, j, areaX, r) + 1] == ','
  {
    var prev := BodyText(grid, teams, areaX, r - 1);
    var row := RowText(grid, teams, r - 1, areaX);
    BodyTextLength(grid, teams, areaX, r - 1);
    RowTextShape(grid, teams, r - 1, areaX);
    assert 2 * Offset(r - 1, j, areaX, r) == |prev| + 2 * j;
  }

  /** The snapshot is the header and then two characters per cell. */
  lemma SnapshotLength(grid: Grid, teams: seq<Team>, areaX: nat, areaY: nat)
    requires forall p :: p in grid ==> grid[p] < |teams|
    ensures |Snapshot(grid, teams, areaX, areaY)| == |Header(areaX, areaY)| + 2 * (areaY * areaX)
  {
    BodyTextLength(grid, teams, areaX, areaY);
    AreaIsProduct(areaY, areaX);
  }

  /** The cell at (r, c) is written at offset 2 * (r * areaX + c) past the
      header, followed by a comma. */
  lemma SnapshotCell(grid: Grid, teams: seq<Team>, areaX: nat, areaY: nat, r: int, c: int)
    requires forall p :: p in grid ==> grid[p] < |teams|
    requires 0 <= r < areaY && 0 <= c < areaX
    ensures var s := Snapshot(grid, teams, areaX, areaY);
      var k := |Header(areaX, areaY)| + 2 * (r * areaX + c);
      && k + 1 < |s| && s[k] == CellChar(grid, teams, Cell(r, c)) && s[k + 1] == ','
  {
    BodyTextCell(grid, teams, areaX, areaY, r, c);
    AreaIsProduct(r, areaX);
  }
}
