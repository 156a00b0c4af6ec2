/**
 * The coordinate lists that `getSelectableCells` (src/index.js) hands to the
 * scanner, in the order it hands them over: each row left to right and then
 * right to left, each column top to bottom and then bottom to top, then the
 * eleven diagonals of at least three cells running from top-left to
 * bottom-right (offsets -5..5), each downwards and then upwards, then the
 * eleven running from top-right to bottom-left, likewise. 76 lists in all.
 */
module Lines {
  import opened Board

  function Abs(n: int): nat { if n < 0 then -n else n }
  function Max(a: int, b: int): int { if a < b then b else a }
  function Min(a: int, b: int): int { if a < b then a else b }

  /** The eight unit steps. */
  const Directions: set<(int, int)> := {(1, 0), (-1, 0), (0, 1), (0, -1), (1, 1), (-1, -1), (-1, 1), (1, -1)}

  function Neg(d: (int, int)): (int, int) { (-d.0, -d.1) }

  /** The cell `s` steps `d` away from `c`. */
  function Step(c: Cell, d: (int, int), s: int): Cell
  {
    Cell(c.x + s * d.0, c.y + s * d.1)
  }

  /** `n` cells starting at (x0, y0), each one step (dx, dy) after the previous. */
  function Ray(x0: int, y0: int, dx: int, dy: int, n: nat): (r: seq<Cell>)
    ensures |r| == n
  {
    seq(n, s => Cell(x0 + s * dx, y0 + s * dy))
  }

  /** A ray one cell longer is the ray followed by its next cell. */
  lemma RaySnoc(x0: int, y0: int, dx: int, dy: int, n: nat)
    ensures Ray(x0, y0, dx, dy, n) + [Cell(x0 + n * dx, y0 + n * dy)] == Ray(x0, y0, dx, dy, n + 1)
  {
  }

  /** Row `row`, left to right or (backward) right to left. */
  function RowLine(row: int, backward: bool): seq<Cell>
  {
    if backward then Ray(7, row, -1, 0, 8) else Ray(0, row, 1, 0, 8)
  }

  /** Column `column`, top to bottom or (backward) bottom to top. */
  function ColumnLine(column: int, backward: bool): seq<Cell>
  {
    if backward then Ray(column, 7, 0, -1, 8) else Ray(column, 0, 0, 1, 8)
  }

  /**
   * The top-left to bottom-right diagonal on which `x - y == offset`, top to
   * bottom or (backward) bottom to top.
   */
  function DiagonalLine(offset: int, backward: bool): seq<Cell>
    requires -5 <= offset <= 5
  {
    var xStart, yStart, n := Max(0, offset), Max(0, -offset), 8 - Abs(offset);
    if backward then Ray(xStart + (n - 1), yStart + (n - 1), -1, -1, n) else Ray(xStart, yStart, 1, 1, n)
  }

  /**
   * The top-right to bottom-left diagonal on which `x + y == 7 + offset`, top
   * to bottom or (backward) bottom to top.
   */
  function AntiDiagonalLine(offset: int, backward: bool): seq<Cell>
    requires -5 <= offset <= 5
  {
    var xStart, yStart, n := 7 + Min(0, offset), Max(0, offset), 8 - Abs(offset);
    if backward then Ray(xStart - (n - 1), yStart + (n - 1), 1, -1, n) else Ray(xStart, yStart, -1, 1, n)
  }

  /** The lists of the first `n` rows, each forward then backward. */
  function RowLists(n: nat): (ls: seq<seq<Cell>>)
    requires n <= 8
    ensures |ls| == 2 * n
  {
    if n == 0 then [] else RowLists(n - 1) + [RowLine(n - 1, false), RowLine(n - 1, true)]
  }

  function ColumnLists(n: nat): (ls: seq<seq<Cell>>)
    requires n <= 8
    ensures |ls| == 2 * n
  {
    if n == 0 then [] else ColumnLists(n - 1) + [ColumnLine(n - 1, false), ColumnLine(n - 1, true)]
  }

  /** The lists of the first `n` diagonals, offsets -5 up to n - 6. */
  function DiagonalLists(n: nat): (ls: seq<seq<Cell>>)
    requires n <= 11
    ensures |ls| == 2 * n
  {
    if n == 0 then [] else DiagonalLists(n - 1) + [DiagonalLine(n - 6, false), DiagonalLine(n - 6, true)]
  }

  function AntiDiagonalLists(n: nat): (ls: seq<seq<Cell>>)
    requires n <= 11
    ensures |ls| == 2 * n
  {
    if n == 0 then [] else AntiDiagonalLists(n - 1) + [AntiDiagonalLine(n - 6, false), AntiDiagonalLine(n - 6, true)]
  }

  /** Every list scanned, in scan order. */
  function AllLines(): (ls: seq<seq<Cell>>)
    ensures |ls| == 76
  {
    RowLists(8) + ColumnLists(8) + DiagonalLists(11) + AntiDiagonalLists(11)
  }

  /** `l` walks in steps of `d`. */
  ghost predicate Walks(l: seq<Cell>, d: (int, int))
  {
    forall s :: 0 <= s < |l| - 1 ==> l[s + 1] == Cell(l[s].x + d.0, l[s].y + d.1)
  }

  /** A list of at least three on-board cells that walks in steps of `d` across the whole board. */
  ghost predicate SpansBoard(l: seq<Cell>, d: (int, int))
  {
    3 <= |l| <= 8 &&
    (forall s :: 0 <= s < |l| ==> OnBoard(l[s])) &&
    Walks(l, d) &&
    !OnBoard(Cell(l[0].x - d.0, l[0].y - d.1)) &&
    !OnBoard(Cell(l[|l| - 1].x + d.0, l[|l| - 1].y + d.1))
  }

  lemma RayShape(x0: int, y0: int, dx: int, dy: int, n: nat)
    requires dx in {-1, 0, 1} && dy in {-1, 0, 1}
    requires n > 0 && OnBoard(Cell(x0, y0)) && OnBoard(Cell(x0 + (n - 1) * dx, y0 + (n - 1) * dy))
    ensures var r := Ray(x0, y0, dx, dy, n);
      r[0] == Cell(x0, y0) && r[n - 1] == Cell(x0 + (n - 1) * dx, y0 + (n - 1) * dy) &&
      (forall s :: 0 <= s < n ==> OnBoard(r[s])) && Walks(r, (dx, dy))
  {
    var r := Ray(x0, y0, dx, dy, n);
    forall s | 0 <= s < n ensures OnBoard(r[s]) {
      Between(x0, dx, n, s);
      Between(y0, dy, n, s);
    }
  }

  /** A coordinate on a unit walk lies between its first and last values. */
  lemma Between(a: int, d: int, n: nat, s: int)
    requires d in {-1, 0, 1} && 0 <= s < n
    requires 0 <= a < 8 && 0 <= a + (n - 1) * d < 8
    ensures 0 <= a + s * d < 8
  {
    if d == 1 {
      assert a + s * d == a + s;
    } else if d == -1 {
      assert a + s * d == a - s;
    }
  }

  lemma RowShape(row: int, backward: bool)
    requires 0 <= row < 8
    ensures SpansBoard(RowLine(row, backward), if backward then (-1, 0) else (1, 0))
  {
    if backward { RayShape(7, row, -1, 0, 8); } else { RayShape(0, row, 1, 0, 8); }
  }

  lemma ColumnShape(column: int, backward: bool)
    requires 0 <= column < 8
    ensures SpansBoard(ColumnLine(column, backward), if backward then (0, -1) else (0, 1))
  {
    if backward { RayShape(column, 7, 0, -1, 8); } else { RayShape(column, 0, 0, 1, 8); }
  }

  lemma DiagonalShape(offset: int, backward: bool)
    requires -5 <= offset <= 5
    ensures SpansBoard(DiagonalLine(offset, backward), if backward then (-1, -1) else (1, 1))
  {
    var xStart, yStart, n := Max(0, offset), Max(0, -offset), 8 - Abs(offset);
    if backward { RayShape(xStart + (n - 1), yStart + (n - 1), -1, -1, n); } else { RayShape(xStart, yStart, 1, 1, n); }
  }

  lemma AntiDiagonalShape(offset: int, backward: bool)
    requires -5 <= offset <= 5
    ensures SpansBoard(AntiDiagonalLine(offset, backward), if backward then (1, -1) else (-1, 1))
  {
    var xStart, yStart, n := 7 + Min(0, offset), Max(0, offset), 8 - Abs(offset);
    if backward { RayShape(xStart - (n - 1), yStart + (n - 1), 1, -1, n); } else { RayShape(xStart, yStart, -1, 1, n); }
  }

  /** A list that walks across the board in one of the eight directions. */
  ghost predicate Straight(l: seq<Cell>)
  {
    exists d :: d in Directions && SpansBoard(l, d)
  }

  lemma {:induction false} RowListsShape(n: nat)
    requires n <= 8
    ensures forall l :: l in RowLists(n) ==> Straight(l)
  {
    if n > 0 {
      RowListsShape(n - 1);
      RowShape(n - 1, false);
      RowShape(n - 1, true);
    }
  }

  lemma {:induction false} ColumnListsShape(n: nat)
    requires n <= 8
    ensures forall l :: l in ColumnLists(n) ==> Straight(l)
  {
    if n > 0 {
      ColumnListsShape(n - 1);
      ColumnShape(n - 1, false);
      ColumnShape(n - 1, true);
    }
  }

  lemma {:induction false} DiagonalListsShape(n: nat)
    requires n <= 11
    ensures forall l :: l in DiagonalLists(n) ==> Straight(l)
  {
    if n > 0 {
      DiagonalListsShape(n - 1);
      DiagonalShape(n - 6, false);
      DiagonalShape(n - 6, true);
    }
  }

  lemma {:induction false} AntiDiagonalListsShape(n: nat)
    requires n <= 11
    ensures forall l :: l in AntiDiagonalLists(n) ==> Straight(l)
  {
    if n > 0 {
      AntiDiagonalListsShape(n - 1);
      AntiDiagonalShape(n - 6, false);
      AntiDiagonalShape(n - 6, true);
    }
  }

  /**
   * Every list scanned is a run of at least three consecutive on-board cells
   * in one of the eight directions, and it spans the board: the cells just
   * before its first and just after its last cell are off the board. So no
   * coordinate outside 0..7 is ever read, and the diagonals of one or two
   * cells are never scanned.
   */
  lemma AllLinesShape()
    ensures forall l :: l in AllLines() ==> Straight(l)
  {
    RowListsShape(8);
    ColumnListsShape(8);
    DiagonalListsShape(11);
    AntiDiagonalListsShape(11);
  }

  /** Walking back `s` cells from position `i` is stepping `s` times against the walk. */
  lemma {:induction false} WalkBack(l: seq<Cell>, d: (int, int), i: int, s: nat)
    requires Walks(l, d) && s <= i < |l|
    ensures l[i - s] == Step(l[i], Neg(d), s)
  {
    if s > 0 {
      WalkBack(l, d, i, s - 1);
      assert l[i - s + 1] == Cell(l[i - s].x + d.0, l[i - s].y + d.1);
      assert s * -d.0 == (s - 1) * -d.0 - d.0 && s * -d.1 == (s - 1) * -d.1 - d.1;
    }
  }

  lemma {:induction false} RowListsHave(n: nat, row: int, backward: bool)
    requires n <= 8 && 0 <= row < n
    ensures RowLine(row, backward) in RowLists(n)
  {
    if row < n - 1 {
      RowListsHave(n - 1, row, backward);
    }
  }

  lemma {:induction false} ColumnListsHave(n: nat, column: int, backward: bool)
    requires n <= 8 && 0 <= column < n
    ensures ColumnLine(column, backward) in ColumnLists(n)
  {
    if column < n - 1 {
      ColumnListsHave(n - 1, column, backward);
    }
  }

  lemma {:induction false} DiagonalListsHave(n: nat, offset: int, backward: bool)
    requires n <= 11 && -5 <= offset < n - 5
    ensures DiagonalLine(offset, backward) in DiagonalLists(n)
  {
    if offset < n - 6 {
      DiagonalListsHave(n - 1, offset, backward);
    }
  }

  lemma {:induction false} AntiDiagonalListsHave(n: nat, offset: int, backward: bool)
    requires n <= 11 && -5 <= offset < n - 5
    ensures AntiDiagonalLine(offset, backward) in AntiDiagonalLists(n)
  {
    if offset < n - 6 {
      AntiDiagonalListsHave(n - 1, offset, backward);
    }
  }

  /**
   * Every on-board cell from which two steps against `e` stay on the board
   * lies on a scanned list that walks in steps of `e`.
   */
  lemma LineThrough(c: Cell, e: (int, int)) returns (l: seq<Cell>, i: nat)
    requires e in Directions && OnBoard(c) && OnBoard(Step(c, Neg(e), 2))
    ensures l in AllLines() && SpansBoard(l, e) && i < |l| && l[i] == c
  {
    if e.1 == 0 {
      l, i := RowThrough(c, e);
    } else if e.0 == 0 {
      l, i := ColumnThrough(c, e);
    } else if e.0 == e.1 {
      l, i := DiagonalThrough(c, e);
    } else {
      l, i := AntiDiagonalThrough(c, e);
    }
  }

  lemma RowThrough(c: Cell, e: (int, int)) returns (l: seq<Cell>, i: nat)
    requires e in {(1, 0), (-1, 0)} && OnBoard(c)
    ensures l in AllLines() && SpansBoard(l, e) && i < |l| && l[i] == c
  {
    var backward := e == (-1, 0);
    l, i := RowLine(c.y, backward), if backward then 7 - c.x else c.x;
    RowShape(c.y, backward);
    RowListsHave(8, c.y, backward);
  }

  lemma ColumnThrough(c: Cell, e: (int, int)) returns (l: seq<Cell>, i: nat)
    requires e in {(0, 1), (0, -1)} && OnBoard(c)
    ensures l in AllLines() && SpansBoard(l, e) && i < |l| && l[i] == c
  {
    var backward := e == (0, -1);
    l, i := ColumnLine(c.x, backward), if backward then 7 - c.y else c.y;
    ColumnShape(c.x, backward);
    ColumnListsHave(8, c.x, backward);
  }

  lemma DiagonalThrough(c: Cell, e: (int, int)) returns (l: seq<Cell>, i: nat)
    requires e in {(1, 1), (-1, -1)} && OnBoard(c) && OnBoard(Step(c, Neg(e), 2))
    ensures l in AllLines() && SpansBoard(l, e) && i < |l| && l[i] == c
  {
    var offset := c.x - c.y;
    var backward := e == (-1, -1);
    var xStart, n := Max(0, offset), 8 - Abs(offset);
    l, i := DiagonalLine(offset, backward), if backward then xStart + (n - 1) - c.x else c.x - xStart;
    DiagonalShape(offset, backward);
    DiagonalListsHave(11, offset, backward);
  }

  lemma AntiDiagonalThrough(c: Cell, e: (int, int)) returns (l: seq<Cell>, i: nat)
    requires e in {(-1, 1), (1, -1)} && OnBoard(c) && OnBoard(Step(c, Neg(e), 2))
    ensures l in AllLines() && SpansBoard(l, e) && i < |l| && l[i] == c
  {
    var offset := c.x + c.y - 7;
    var backward := e == (1, -1);
    var xStart, n := 7 + Min(0, offset), 8 - Abs(offset);
    l, i := AntiDiagonalLine(offset, backward), if backward then c.x - (xStart - (n - 1)) else xStart - c.x;
    AntiDiagonalShape(offset, backward);
    AntiDiagonalListsHave(11, offset, backward);
  }
}
