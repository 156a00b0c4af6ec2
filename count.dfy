/**
 * Stone counting and the result of a finished game (the `render` method of
 * src/index.js). A square whose black flag is set counts as black even if its
 * white flag is set too, because the counting loop tests black first.
 */
module Counting {
  import opened Board

  /** The number of squares of colour `col` among the first `n` squares of one row. */
  function CountRow(row: seq<Square>, col: Color, n: nat): nat
    requires n <= |row|
  {
    if n == 0 then 0
    else CountRow(row, col, n - 1) + (if ColorOf(row[n - 1]) == col then 1 else 0)
  }

  /** The number of squares of colour `col` in the first `n` rows. */
  function CountRows(g: Grid, col: Color, n: nat): nat
    requires WellFormed(g) && n <= 8
  {
    if n == 0 then 0
    else CountRows(g, col, n - 1) + CountRow(g[n - 1], col, 8)
  }

  /** The number of squares of colour `col` on the board. */
  function Count(g: Grid, col: Color): nat
    requires WellFormed(g)
  {
    CountRows(g, col, 8)
  }

  /** The number of stones on the board, whatever their colour. */
  function Stones(g: Grid): nat
    requires WellFormed(g)
  {
    Count(g, Black) + Count(g, White)
  }

  /**
   * The counting loop of `render`: black and white stones of the current board.
   */
  method CountStones(g: Grid) returns (blackStoneCount: nat, whiteStoneCount: nat)
    requires WellFormed(g)
    ensures blackStoneCount == Count(g, Black)
    ensures whiteStoneCount == Count(g, White)
    ensures blackStoneCount + whiteStoneCount + Count(g, Empty) == 64
  {
    blackStoneCount, whiteStoneCount := 0, 0;
    for y := 0 to 8
      invariant blackStoneCount == CountRows(g, Black, y)
      invariant whiteStoneCount == CountRows(g, White, y)
    {
      var row := g[y];
      for x := 0 to 8
        invariant blackStoneCount == CountRows(g, Black, y) + CountRow(row, Black, x)
        invariant whiteStoneCount == CountRows(g, White, y) + CountRow(row, White, x)
      {
        var square := row[x];
        if square.black {
          blackStoneCount := blackStoneCount + 1;
        } else if square.white {
          whiteStoneCount := whiteStoneCount + 1;
        }
      }
    }
    StonesPlusEmpty(g);
  }

  lemma {:induction false} RowPartition(row: seq<Square>, n: nat)
    requires n <= |row|
    ensures CountRow(row, Empty, n) + CountRow(row, Black, n) + CountRow(row, White, n) == n
  {
    if n > 0 {
      RowPartition(row, n - 1);
    }
  }

  lemma {:induction false} RowsPartition(g: Grid, n: nat)
    requires WellFormed(g) && n <= 8
    ensures CountRows(g, Empty, n) + CountRows(g, Black, n) + CountRows(g, White, n) == 8 * n
  {
    if n > 0 {
      RowsPartition(g, n - 1);
      RowPartition(g[n - 1], 8);
    }
  }

  /** Every square is empty, black or white: stones plus empty squares make 64. */
  lemma StonesPlusEmpty(g: Grid)
    requires WellFormed(g)
    ensures Stones(g) + Count(g, Empty) == 64
  {
    RowsPartition(g, 8);
  }

  lemma {:induction false} RowMonotone(r: seq<Square>, s: seq<Square>, col: Color, n: nat)
    requires n <= |r| && n <= |s|
    requires forall x :: 0 <= x < n && ColorOf(r[x]) == col ==> ColorOf(s[x]) == col
    ensures CountRow(s, col, n) >= CountRow(r, col, n)
  {
    if n > 0 {
      RowMonotone(r, s, col, n - 1);
    }
  }

  lemma {:induction false} RowsMonotone(g: Grid, h: Grid, col: Color, n: nat)
    requires WellFormed(g) && WellFormed(h) && n <= 8
    requires forall c :: OnBoard(c) && ColorOf(At(g, c)) == col ==> ColorOf(At(h, c)) == col
    ensures CountRows(h, col, n) >= CountRows(g, col, n)
  {
    if n > 0 {
      RowsMonotone(g, h, col, n - 1);
      var r, s := g[n - 1], h[n - 1];
      forall x | 0 <= x < 8 && ColorOf(r[x]) == col
        ensures ColorOf(s[x]) == col
      {
        assert At(g, Cell(x, n - 1)) == r[x] && At(h, Cell(x, n - 1)) == s[x];
      }
      RowMonotone(r, s, col, 8);
    }
  }

  /**
   * If every square of colour `col` keeps it when the board changes from `g`
   * to `h`, the count of `col` cannot fall.
   */
  lemma CountMonotone(g: Grid, h: Grid, col: Color)
    requires WellFormed(g) && WellFormed(h)
    requires forall c :: OnBoard(c) && ColorOf(At(g, c)) == col ==> ColorOf(At(h, c)) == col
    ensures Count(h, col) >= Count(g, col)
  {
    RowsMonotone(g, h, col, 8);
  }

  lemma {:induction false} RowGrows(r: seq<Square>, s: seq<Square>, col: Color, x0: nat, n: nat)
    requires n <= |r| && n <= |s| && x0 < n
    requires forall x :: 0 <= x < n && ColorOf(r[x]) == col ==> ColorOf(s[x]) == col
    requires ColorOf(r[x0]) != col && ColorOf(s[x0]) == col
    ensures CountRow(s, col, n) > CountRow(r, col, n)
  {
    if x0 == n - 1 {
      RowMonotone(r, s, col, n - 1);
    } else {
      RowGrows(r, s, col, x0, n - 1);
    }
  }

  lemma {:induction false} RowsGrow(g: Grid, h: Grid, col: Color, c0: Cell, n: nat)
    requires WellFormed(g) && WellFormed(h) && n <= 8 && OnBoard(c0) && c0.y < n
    requires forall c :: OnBoard(c) && ColorOf(At(g, c)) == col ==> ColorOf(At(h, c)) == col
    requires ColorOf(At(g, c0)) != col && ColorOf(At(h, c0)) == col
    ensures CountRows(h, col, n) > CountRows(g, col, n)
  {
    var r, s := g[n - 1], h[n - 1];
    forall x | 0 <= x < 8 && ColorOf(r[x]) == col
      ensures ColorOf(s[x]) == col
    {
      assert At(g, Cell(x, n - 1)) == r[x] && At(h, Cell(x, n - 1)) == s[x];
    }
    if c0.y == n - 1 {
      RowsMonotone(g, h, col, n - 1);
      RowGrows(r, s, col, c0.x, 8);
    } else {
      RowsGrow(g, h, col, c0, n - 1);
      RowMonotone(r, s, col, 8);
    }
  }

  /**
   * If, in addition, square `c0` gains colour `col`, the count of `col` grows
   * by at least one.
   */
  lemma CountGrows(g: Grid, h: Grid, col: Color, c0: Cell)
    requires WellFormed(g) && WellFormed(h) && OnBoard(c0)
    requires forall c :: OnBoard(c) && ColorOf(At(g, c)) == col ==> ColorOf(At(h, c)) == col
    requires ColorOf(At(g, c0)) != col && ColorOf(At(h, c0)) == col
    ensures Count(h, col) > Count(g, col)
  {
    RowsGrow(g, h, col, c0, 8);
  }

  lemma {:induction false} RowSame(r: seq<Square>, s: seq<Square>, col: Color, n: nat)
    requires n <= |r| && n <= |s|
    requires forall x :: 0 <= x < n ==> (ColorOf(r[x]) == col <==> ColorOf(s[x]) == col)
    ensures CountRow(s, col, n) == CountRow(r, col, n)
  {
    if n > 0 {
      RowSame(r, s, col, n - 1);
    }
  }

  lemma {:induction false} RowDropsByOne(r: seq<Square>, s: seq<Square>, col: Color, x0: nat, n: nat)
    requires n <= |r| && n <= |s| && x0 < n
    requires forall x :: 0 <= x < n && x != x0 ==> (ColorOf(r[x]) == col <==> ColorOf(s[x]) == col)
    requires ColorOf(r[x0]) == col && ColorOf(s[x0]) != col
    ensures CountRow(r, col, n) == CountRow(s, col, n) + 1
  {
    if x0 == n - 1 {
      RowSame(r, s, col, n - 1);
    } else {
      RowDropsByOne(r, s, col, x0, n - 1);
    }
  }

  lemma {:induction false} RowsDropByOne(g: Grid, h: Grid, col: Color, c0: Cell, n: nat)
    requires WellFormed(g) && WellFormed(h) && n <= 8 && OnBoard(c0)
    requires forall c :: OnBoard(c) && c != c0 ==> (ColorOf(At(g, c)) == col <==> ColorOf(At(h, c)) == col)
    requires ColorOf(At(g, c0)) == col && ColorOf(At(h, c0)) != col
    ensures CountRows(g, col, n) == CountRows(h, col, n) + (if c0.y < n then 1 else 0)
  {
    if n > 0 {
      RowsDropByOne(g, h, col, c0, n - 1);
      var r, s := g[n - 1], h[n - 1];
      forall x | 0 <= x < 8 && (x != c0.x || n - 1 != c0.y)
        ensures ColorOf(r[x]) == col <==> ColorOf(s[x]) == col
      {
        assert At(g, Cell(x, n - 1)) == r[x] && At(h, Cell(x, n - 1)) == s[x];
      }
      if c0.y == n - 1 {
        RowDropsByOne(r, s, col, c0.x, 8);
      } else {
        RowSame(r, s, col, 8);
      }
    }
  }

  /**
   * Two boards that agree on which squares have colour `col`, except at `c0`
   * which has it in `g` and not in `h`: the count of `col` drops by exactly one.
   */
  lemma CountDropsByOne(g: Grid, h: Grid, col: Color, c0: Cell)
    requires WellFormed(g) && WellFormed(h) && OnBoard(c0)
    requires forall c :: OnBoard(c) && c != c0 ==> (ColorOf(At(g, c)) == col <==> ColorOf(At(h, c)) == col)
    requires ColorOf(At(g, c0)) == col && ColorOf(At(h, c0)) != col
    ensures Count(g, col) == Count(h, col) + 1
  {
    RowsDropByOne(g, h, col, c0, 8);
  }

  /** The result shown once the game is over. */
  datatype Outcome = BlackWins | WhiteWins | Draw

  /** The winner comparison of `render`: more stones wins, equal counts draw. */
  function Winner(blackStoneCount: nat, whiteStoneCount: nat): (r: Outcome)
    ensures r == BlackWins <==> blackStoneCount > whiteStoneCount
    ensures r == WhiteWins <==> blackStoneCount < whiteStoneCount
    ensures r == Draw <==> blackStoneCount == whiteStoneCount
  {
    if blackStoneCount > whiteStoneCount then BlackWins
    else if blackStoneCount < whiteStoneCount then WhiteWins
    else Draw
  }

  /** The starting position holds two stones of each colour. */
  lemma InitialCounts(g: Grid)
    requires IsStart(g)
    ensures Count(g, Black) == 2 && Count(g, White) == 2
    ensures Count(g, Empty) == 60
  {
    forall y | 0 <= y < 8
      ensures CountRow(g[y], Empty, 8) == if y == 3 || y == 4 then 6 else 8
      ensures CountRow(g[y], Black, 8) == CountRow(g[y], White, 8) == if y == 3 || y == 4 then 1 else 0
    {
      StartRow(g, y);
    }
    forall col ensures Count(g, col) == if col == Empty then 60 else 2 {
      assert CountRows(g, col, 1) == if col == Empty then 8 else 0;
      assert CountRows(g, col, 2) == if col == Empty then 16 else 0;
      assert CountRows(g, col, 4) == if col == Empty then 30 else 1;
      assert CountRows(g, col, 6) == if col == Empty then 44 else 2;
      assert CountRows(g, col, 8) == if col == Empty then 60 else 2;
    }
  }

  /** Row `y` of the starting position: rows 3 and 4 hold one stone of each colour, the others none. */
  lemma StartRow(g: Grid, y: int)
    requires IsStart(g) && 0 <= y < 8
    ensures CountRow(g[y], Empty, 8) == if y == 3 || y == 4 then 6 else 8
    ensures CountRow(g[y], Black, 8) == CountRow(g[y], White, 8) == if y == 3 || y == 4 then 1 else 0
  {
    forall x | 0 <= x < 8 ensures g[y][x] == StartSquare(Cell(x, y)) {
      assert At(g, Cell(x, y)) == StartSquare(Cell(x, y));
    }
    if y == 3 || y == 4 {
      CenterRow(g[y]);
    } else {
      EmptyRow(g[y], 8);
    }
  }

  /** A row whose only stones are one black and one white, on columns d and e. */
  lemma CenterRow(row: seq<Square>)
    requires |row| == 8
    requires forall x :: 0 <= x < 8 && x != 3 && x != 4 ==> row[x] == EmptySquare
    requires {ColorOf(row[3]), ColorOf(row[4])} == {Black, White}
    ensures CountRow(row, Black, 8) == 1 && CountRow(row, White, 8) == 1 && CountRow(row, Empty, 8) == 6
  {
    EmptyRow(row, 3);
    assert ColorOf(row[3]) != ColorOf(row[4]) && ColorOf(row[3]) != Empty && ColorOf(row[4]) != Empty by {
      assert ColorOf(row[3]) in {Black, White} && ColorOf(row[4]) in {Black, White};
      assert Black in {ColorOf(row[3]), ColorOf(row[4])} && White in {ColorOf(row[3]), ColorOf(row[4])};
    }
    assert CountRow(row, Empty, 5) == 3;
    assert CountRow(row, Black, 5) == 1;
    assert CountRow(row, White, 5) == 1;
    forall col ensures CountRow(row, col, 8) == CountRow(row, col, 5) + (if col == Empty then 3 else 0) {
      assert CountRow(row, col, 6) == CountRow(row, col, 5) + (if col == Empty then 1 else 0);
      assert CountRow(row, col, 7) == CountRow(row, col, 6) + (if col == Empty then 1 else 0);
    }
  }

  lemma {:induction false} EmptyRow(row: seq<Square>, n: nat)
    requires n <= |row|
    requires forall x :: 0 <= x < n ==> row[x] == EmptySquare
    ensures CountRow(row, Black, n) == 0 && CountRow(row, White, n) == 0 && CountRow(row, Empty, n) == n
  {
    if n > 0 {
      EmptyRow(row, n - 1);
    }
  }
}
