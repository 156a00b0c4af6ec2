/**
 * The 8x8 Reversi board of src/index.js.
 *
 * The source keeps the board as `squares[y][x]`, each square a pair
 * `[isBlack, isWhite]` of flags. The model keeps that pair as a `Square`, so a
 * square with both flags set can be written down; every reader in the source
 * tests the black flag first, and `ColorOf` does the same.
 */
module Board {

  /** One square: the source's `[isBlack, isWhite]` pair. */
  datatype Square = Square(black: bool, white: bool)

  /** What the scanner and the stone counter see on a square (black flag tested first). */
  datatype Color = Empty | Black | White

  /** A coordinate: column `x` (a..h) and row `y` (1..8), as in the map key "x-y". */
  datatype Cell = Cell(x: int, y: int)

  /** The board, indexed `g[y][x]`. */
  type Grid = seq<seq<Square>>

  const EmptySquare := Square(false, false)

  predicate OnBoard(c: Cell)
  {
    0 <= c.x < 8 && 0 <= c.y < 8
  }

  predicate WellFormed(g: Grid)
  {
    |g| == 8 && forall y :: 0 <= y < 8 ==> |g[y]| == 8
  }

  function At(g: Grid, c: Cell): Square
    requires WellFormed(g) && OnBoard(c)
  {
    g[c.y][c.x]
  }

  function ColorOf(s: Square): (r: Color)
    ensures r == Empty <==> !s.black && !s.white
    ensures r == Black <==> s.black
  {
    if s.black then Black else if s.white then White else Empty
  }

  /** The colour of the side to move: the source's `blackIsNext` flag. */
  function Mover(black: bool): Color
  {
    if black then Black else White
  }

  /** The colour whose stones the side to move may flip. */
  function Opponent(black: bool): Color
  {
    if black then White else Black
  }

  /** A square holding one stone of the side to move, and nothing else. */
  function Stone(black: bool): (s: Square)
    ensures ColorOf(s) == Mover(black) && s.black != s.white
  {
    if black then Square(true, false) else Square(false, true)
  }

  /** No square carries both flags; the engine keeps this true of every board it builds. */
  ghost predicate NoDoubleStones(g: Grid)
    requires WellFormed(g)
  {
    forall c :: OnBoard(c) ==> !(At(g, c).black && At(g, c).white)
  }

  /** The square at `c` in the starting position: white on d4 and e5, black on d5 and e4. */
  function StartSquare(c: Cell): Square
  {
    if c in {Cell(3, 3), Cell(4, 4)} then Square(false, true)
    else if c in {Cell(4, 3), Cell(3, 4)} then Square(true, false)
    else EmptySquare
  }

  /** `g` is the starting position. */
  ghost predicate IsStart(g: Grid)
  {
    WellFormed(g) && forall c :: OnBoard(c) ==> At(g, c) == StartSquare(c)
  }

  /** The value of an 8x8 array of squares, row by row. */
  function Snapshot(a: array2<Square>): (g: Grid)
    reads a
    requires a.Length0 == 8 && a.Length1 == 8
    ensures WellFormed(g)
    ensures forall y, x :: 0 <= y < 8 && 0 <= x < 8 ==> g[y][x] == a[y, x]
  {
    seq(8, y reads a requires 0 <= y < 8 => seq(8, x reads a requires 0 <= x < 8 => a[y, x]))
  }

  /**
   * `createSquares`: an 8x8 board of empty squares, then the four starting
   * stones written in place.
   */
  method CreateSquares() returns (g: Grid)
    ensures IsStart(g) && NoDoubleStones(g)
  {
    var squares := new Square[8, 8]((y, x) => EmptySquare);
    // white on (3, 3)
    squares[3, 3] := squares[3, 3].(white := true);
    // black on (4, 3)
    squares[3, 4] := squares[3, 4].(black := true);
    // black on (3, 4)
    squares[4, 3] := squares[4, 3].(black := true);
    // white on (4, 4)
    squares[4, 4] := squares[4, 4].(white := true);
    g := Snapshot(squares);
  }

  /**
   * `copy2dArray`: a fresh board holding the same squares, filled row by row.
   */
  method CopySquares(g: Grid) returns (a: array2<Square>)
    requires WellFormed(g)
    ensures fresh(a) && a.Length0 == 8 && a.Length1 == 8
    ensures Snapshot(a) == g
  {
    a := new Square[8, 8];
    for y := 0 to 8
      invariant forall r, x :: 0 <= r < y && 0 <= x < 8 ==> a[r, x] == g[r][x]
    {
      for x := 0 to 8
        invariant forall r, c :: 0 <= r < y && 0 <= c < 8 ==> a[r, c] == g[r][c]
        invariant forall c :: 0 <= c < x ==> a[y, c] == g[y][c]
      {
        a[y, x] := g[y][x];
      }
    }
    assert forall y :: 0 <= y < 8 ==> Snapshot(a)[y] == g[y];
  }
}
