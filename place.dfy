/**
 * The board writes of `putStone` (src/index.js): the destination gets the
 * mover's flag, then every target gets the mover's flag set and the other
 * flag cleared. The writes go to a fresh copy of the current board.
 */
module Place {
  import opened Wrappers
  import opened Board
  import opened MoveMaps
  import opened Lines
  import opened Rules
  import opened Counting

  /**
   * One square after a move. A target takes the mover's stone (targets are
   * written after the destination); the destination gains the mover's flag.
   */
  function PlacedSquare(s: Square, isSelect: bool, isTarget: bool, black: bool): Square
  {
    if isTarget then Stone(black)
    else if isSelect then (if black then s.(black := true) else s.(white := true))
    else s
  }

  /** The board after the side to move plays the entry `e`. */
  function Placed(g: Grid, e: Entry, black: bool): (h: Grid)
    requires WellFormed(g)
    ensures WellFormed(h)
    ensures forall c :: OnBoard(c) ==> At(h, c) == PlacedSquare(At(g, c), c == e.select, c in e.targets, black)
  {
    seq(8, y requires 0 <= y < 8 =>
      seq(8, x requires 0 <= x < 8 => PlacedSquare(g[y][x], Cell(x, y) == e.select, Cell(x, y) in e.targets, black)))
  }

  /** `e` is the entry the map stores under `e`'s own destination. */
  predicate Stored(m: MoveMap, e: Entry)
  {
    Get(m, e.select) == Some(e)
  }

  /**
   * The stone-writing part of `putStone`, in place on the copied board: the
   * destination first, then the targets one after the other.
   */
  method PlaceStones(squares: array2<Square>, selectedCell: Entry, blackIsNext: bool)
    requires squares.Length0 == 8 && squares.Length1 == 8
    requires OnBoard(selectedCell.select) && forall t :: t in selectedCell.targets ==> OnBoard(t)
    modifies squares
    ensures Snapshot(squares) == Placed(old(Snapshot(squares)), selectedCell, blackIsNext)
  {
    ghost var g := Snapshot(squares);
    var x, y := selectedCell.select.x, selectedCell.select.y;
    if blackIsNext {
      squares[y, x] := squares[y, x].(black := true);
    } else {
      squares[y, x] := squares[y, x].(white := true);
    }
    var targets := selectedCell.targets;
    for i := 0 to |targets|
      invariant forall r, q :: 0 <= r < 8 && 0 <= q < 8 ==>
        squares[r, q] == PlacedSquare(g[r][q], Cell(q, r) == selectedCell.select, Cell(q, r) in targets[..i], blackIsNext)
    {
      var target := targets[i];
      assert target in selectedCell.targets;
      assert targets[..i + 1] == targets[..i] + [target];
      if blackIsNext {
        squares[target.y, target.x] := squares[target.y, target.x].(black := true, white := false);
      } else {
        squares[target.y, target.x] := squares[target.y, target.x].(black := false, white := true);
      }
    }
    assert targets[..|targets|] == targets;
    assert forall r :: 0 <= r < 8 ==> Snapshot(squares)[r] == Placed(g, selectedCell, blackIsNext)[r];
  }

  /** A stone that a legal move flips is an opponent stone on the board, away from the destination. */
  lemma FlipIsOpponent(g: Grid, c: Cell, black: bool, t: Cell)
    requires WellFormed(g) && OnBoard(c) && ColorOf(At(g, c)) == Empty && Flips(g, c, black, t)
    ensures OnBoard(t) && ColorOf(At(g, t)) == Opponent(black) && t != c
  {
    var d, m: nat :| d in Directions && Flanks(g, c, black, d, m) && t in Run(c, d, m);
    var j :| 0 <= j < m && Run(c, d, m)[j] == t;
    assert t == Step(c, d, m - j);
  }

  /** Every legal destination flips at least one stone. */
  lemma LegalFlipsSome(g: Grid, c: Cell, black: bool) returns (t: Cell)
    requires WellFormed(g) && IsLegal(g, c, black)
    ensures Flips(g, c, black, t)
  {
    var d, m :| d in Directions && Flanks(g, c, black, d, m);
    t := Step(c, d, 1);
    assert Run(c, d, m)[m - 1] == t;
  }

  /**
   * `e` is the move the rules give for its destination: that cell is an
   * empty legal destination, and the targets are exactly the stones it flips.
   */
  ghost predicate IsMove(g: Grid, e: Entry, black: bool)
    requires WellFormed(g)
  {
    IsLegal(g, e.select, black) && forall t :: t in e.targets <==> Flips(g, e.select, black, t)
  }

  /** Every entry of the legal-move map is a move, and flips opponent stones only. */
  lemma StoredEntry(g: Grid, black: bool, e: Entry)
    requires WellFormed(g) && Stored(LegalMoves(g, black), e)
    ensures IsMove(g, e, black)
    ensures forall t :: t in e.targets ==> OnBoard(t) && ColorOf(At(g, t)) == Opponent(black)
  {
    LegalMovesKeys(g, black);
    StoredTargets(g, black, e);
    forall t | t in e.targets ensures OnBoard(t) && ColorOf(At(g, t)) == Opponent(black) {
      FlipIsOpponent(g, e.select, black, t);
    }
  }

  lemma StoredTargets(g: Grid, black: bool, e: Entry)
    requires WellFormed(g) && Stored(LegalMoves(g, black), e)
    ensures forall t :: t in e.targets <==> IsLegal(g, e.select, black) && Flips(g, e.select, black, t)
  {
    LegalMovesTargets(g, black);
    assert TargetsOf(LegalMoves(g, black), e.select) == e.targets;
  }

  /**
   * The entry the legal-move map stores under `c` exists exactly when `c` is
   * a legal destination, and it is then a move.
   */
  lemma EntryAt(g: Grid, black: bool, c: Cell)
    requires WellFormed(g)
    ensures Get(LegalMoves(g, black), c).Some? <==> IsLegal(g, c, black)
    ensures Get(LegalMoves(g, black), c).Some? ==> IsMove(g, Get(LegalMoves(g, black), c).value, black)
  {
    LegalMovesKeys(g, black);
    if Get(LegalMoves(g, black), c).Some? {
      StoredEntry(g, black, Get(LegalMoves(g, black), c).value);
    }
  }

  /** The squares a move writes are on the board. */
  lemma MoveOnBoard(g: Grid, black: bool, e: Entry)
    requires WellFormed(g) && IsMove(g, e, black)
    ensures OnBoard(e.select) && forall t :: t in e.targets ==> OnBoard(t)
  {
    forall t | t in e.targets ensures OnBoard(t) {
      FlipIsOpponent(g, e.select, black, t);
    }
  }

  /**
   * The board after the side to move plays `c` under the rules: `c` and every
   * stone the move flips take the mover's stone, and nothing else changes.
   */
  ghost function Play(g: Grid, c: Cell, black: bool): (h: Grid)
    requires WellFormed(g)
    ensures WellFormed(h)
  {
    seq(8, y requires 0 <= y < 8 =>
      seq(8, x requires 0 <= x < 8 =>
        if Cell(x, y) == c || Flips(g, c, black, Cell(x, y)) then Stone(black) else g[y][x]))
  }

  /** Writing the squares of a move is playing its destination under the rules. */
  lemma MoveIsPlay(g: Grid, e: Entry, black: bool)
    requires WellFormed(g) && IsMove(g, e, black)
    ensures Placed(g, e, black) == Play(g, e.select, black)
  {
    var h, p := Placed(g, e, black), Play(g, e.select, black);
    assert At(g, e.select) == EmptySquare;
    forall y | 0 <= y < 8 ensures h[y] == p[y] {
      assert forall x :: 0 <= x < 8 ==> At(h, Cell(x, y)) == At(p, Cell(x, y));
    }
  }

  /** A move never creates a square carrying both flags. */
  lemma PlayKeepsNoDoubleStones(g: Grid, c: Cell, black: bool)
    requires WellFormed(g) && NoDoubleStones(g)
    ensures NoDoubleStones(Play(g, c, black))
  {
    var h := Play(g, c, black);
    forall t | OnBoard(t) ensures At(h, t) == At(g, t) || At(h, t) == Stone(black) {
    }
  }

  /**
   * A legal move adds exactly one stone to the board; the mover gains stones
   * and the opponent loses at least one.
   */
  lemma PlayCounts(g: Grid, c: Cell, black: bool)
    requires WellFormed(g) && IsLegal(g, c, black)
    ensures Stones(Play(g, c, black)) == Stones(g) + 1
    ensures Count(Play(g, c, black), Mover(black)) > Count(g, Mover(black))
    ensures Count(Play(g, c, black), Opponent(black)) < Count(g, Opponent(black))
  {
    var h := Play(g, c, black);
    forall t | OnBoard(t) && t != c
      ensures At(h, t) == At(g, t) || (ColorOf(At(g, t)) == Opponent(black) && At(h, t) == Stone(black))
    {
      if Flips(g, c, black, t) {
        FlipIsOpponent(g, c, black, t);
      }
    }
    var t0 := LegalFlipsSome(g, c, black);
    FlipIsOpponent(g, c, black, t0);
    TurnCounts(g, h, c, t0, black);
  }

  /**
   * Counting for any change that fills one empty square with the mover's
   * stone and turns some opponent stones, among them `t0`, into mover stones.
   */
  lemma TurnCounts(g: Grid, h: Grid, c: Cell, t0: Cell, black: bool)
    requires WellFormed(g) && WellFormed(h) && OnBoard(c) && OnBoard(t0)
    requires ColorOf(At(g, c)) == Empty && At(h, c) == Stone(black)
    requires forall t :: OnBoard(t) && t != c ==>
      At(h, t) == At(g, t) || (ColorOf(At(g, t)) == Opponent(black) && At(h, t) == Stone(black))
    requires ColorOf(At(g, t0)) == Opponent(black) && At(h, t0) == Stone(black)
    ensures Stones(h) == Stones(g) + 1
    ensures Count(h, Mover(black)) > Count(g, Mover(black))
    ensures Count(h, Opponent(black)) < Count(g, Opponent(black))
  {
    CountDropsByOne(g, h, Empty, c);
    StonesPlusEmpty(g);
    StonesPlusEmpty(h);
    CountGrows(g, h, Mover(black), c);
    CountGrows(h, g, Opponent(black), t0);
  }
}
