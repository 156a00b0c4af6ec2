/**
 * The `Game` component of src/index.js, without its rendering: the state it
 * keeps, the two ways to start a game, a click on the board, the computer's
 * move, the turn logic of `putStone`, and the status line's result.
 */
module Reversi {
  import opened Wrappers
  import opened Board
  import opened MoveMaps
  import opened Lines
  import opened Rules
  import opened Place
  import opened Cpu
  import opened Counting

  /**
   * Who moves after `black` has moved and left the board `h`: the opponent
   * if the opponent can move, else the same side again if it can, else
   * nobody (the game is over).
   */
  ghost function NextPlayer(h: Grid, black: bool): (next: Option<bool>)
    requires WellFormed(h)
  {
    if CanMove(h, !black) then Some(!black)
    else if CanMove(h, black) then Some(black)
    else None
  }

  /** The side that must pass after `black` has moved and left `h`, if any. */
  ghost function PassedPlayer(h: Grid, black: bool): (passed: Option<bool>)
    requires WellFormed(h)
  {
    if !CanMove(h, !black) && CanMove(h, black) then Some(!black) else None
  }

  /** Black's four opening moves are legal on the starting board. */
  lemma OpeningMoves(g: Grid)
    requires IsStart(g)
    ensures forall c :: c in OpeningCells ==> IsLegal(g, c, true)
  {
    forall c | c in OpeningCells ensures IsLegal(g, c, true) {
      assert At(g, c) == StartSquare(c);
      StartFlanked(g, c);
    }
  }

  /**
   * On the starting board every flank of black is one white stone long and
   * belongs to one of the four opening moves.
   */
  lemma StartFlank(g: Grid, c: Cell, d: (int, int), m: int)
    requires IsStart(g) && d in Directions && Flanks(g, c, true, d, m)
    ensures m == 1
    ensures (c == Cell(2, 3) && d == (1, 0)) || (c == Cell(3, 2) && d == (0, 1)) ||
            (c == Cell(5, 4) && d == (-1, 0)) || (c == Cell(4, 5) && d == (0, -1))
  {
    FlankCells(g, c, true, d, m);
    StartColor(g, Step(c, d, 1));
    StartColor(g, Step(c, d, 2));
    if m >= 2 {
      StartColor(g, Step(c, d, 3));
      NoLongFlank(c, d);
      assert false;
    }
    OpeningGeometry(c, d);
  }

  /** The first three cells of a flank: an opponent stone, then a mover stone or a longer run. */
  lemma FlankCells(g: Grid, c: Cell, black: bool, d: (int, int), m: int)
    requires WellFormed(g) && Flanks(g, c, black, d, m)
    ensures OnBoard(Step(c, d, 1)) && ColorOf(At(g, Step(c, d, 1))) == Opponent(black)
    ensures m == 1 ==> OnBoard(Step(c, d, 2)) && ColorOf(At(g, Step(c, d, 2))) == Mover(black)
    ensures m >= 2 ==> OnBoard(Step(c, d, 2)) && ColorOf(At(g, Step(c, d, 2))) == Opponent(black)
    ensures m >= 2 ==> OnBoard(Step(c, d, 3)) && ColorOf(At(g, Step(c, d, 3))) != Empty
    ensures d != (0, 0)
  {
    if m >= 3 {
      assert 1 <= 3 <= m;
    }
    FlankDirection(g, c, black, d, m);
  }

  /** A flank runs in a real direction: its first cell and its closing cell differ in colour. */
  lemma FlankDirection(g: Grid, c: Cell, black: bool, d: (int, int), m: int)
    requires WellFormed(g) && Flanks(g, c, black, d, m)
    ensures d != (0, 0)
  {
    if d == (0, 0) {
      StepNowhere(c, 1);
      StepNowhere(c, m + 1);
    }
  }

  /** Zero steps in no direction stay put. */
  lemma StepNowhere(c: Cell, s: int)
    ensures Step(c, (0, 0), s) == c
  {
  }

  /** One white stone followed by a black one, read from the start position's stones. */
  lemma OpeningGeometry(c: Cell, d: (int, int))
    requires Step(c, d, 1) == Cell(3, 3) || Step(c, d, 1) == Cell(4, 4)
    requires Step(c, d, 2) == Cell(4, 3) || Step(c, d, 2) == Cell(3, 4)
    ensures (c == Cell(2, 3) && d == (1, 0)) || (c == Cell(3, 2) && d == (0, 1)) ||
            (c == Cell(5, 4) && d == (-1, 0)) || (c == Cell(4, 5) && d == (0, -1))
  {
    var a, b := Step(c, d, 1), Step(c, d, 2);
    assert b == Cell(a.x + d.0, a.y + d.1) && c == Cell(a.x - d.0, a.y - d.1);
  }

  /** Two white stones in a row leave the centre block at the next step. */
  lemma NoLongFlank(c: Cell, d: (int, int))
    requires d != (0, 0)
    requires Step(c, d, 1) == Cell(3, 3) || Step(c, d, 1) == Cell(4, 4)
    requires Step(c, d, 2) == Cell(3, 3) || Step(c, d, 2) == Cell(4, 4)
    ensures !(3 <= Step(c, d, 3).x <= 4 && 3 <= Step(c, d, 3).y <= 4)
  {
    var a, b := Step(c, d, 1), Step(c, d, 2);
    assert b == Cell(a.x + d.0, a.y + d.1) && Step(c, d, 3) == Cell(b.x + d.0, b.y + d.1);
  }

  /** Where the starting board has white and black stones. */
  lemma StartColor(g: Grid, t: Cell)
    requires IsStart(g)
    ensures OnBoard(t) && ColorOf(At(g, t)) == White ==> t == Cell(3, 3) || t == Cell(4, 4)
    ensures OnBoard(t) && ColorOf(At(g, t)) == Black ==> t == Cell(4, 3) || t == Cell(3, 4)
    ensures OnBoard(t) && ColorOf(At(g, t)) != Empty ==> 3 <= t.x <= 4 && 3 <= t.y <= 4
  {
    if OnBoard(t) {
      assert At(g, t) == StartSquare(t);
    }
  }

  /** The four opening moves of black. */
  const OpeningCells: set<Cell> := {Cell(2, 3), Cell(3, 2), Cell(4, 5), Cell(5, 4)}

  /** The white stone each opening move turns: d4 for 2-3 and 3-2, e5 for 4-5 and 5-4. */
  function OpeningTarget(c: Cell): Cell
  {
    if c == Cell(2, 3) || c == Cell(3, 2) then Cell(3, 3) else Cell(4, 4)
  }

  /** The direction from an opening move to its target. */
  function OpeningDirection(c: Cell): (int, int)
  {
    if c == Cell(2, 3) then (1, 0) else if c == Cell(3, 2) then (0, 1)
    else if c == Cell(5, 4) then (-1, 0) else (0, -1)
  }

  /**
   * Black's legal-move map on the starting board has exactly the keys
   * 2-3, 3-2, 4-5 and 5-4, and each of them turns exactly one white stone.
   */
  lemma OpeningMap(g: Grid)
    requires IsStart(g)
    ensures forall c :: c in Keys(LegalMoves(g, true)) <==> c in OpeningCells
    ensures forall c, t :: c in OpeningCells ==> (t in TargetsOf(LegalMoves(g, true), c) <==> t == OpeningTarget(c))
  {
    OpeningLegal(g);
    LegalMovesKeys(g, true);
    LegalMovesTargets(g, true);
    forall c, t | c in OpeningCells ensures t in TargetsOf(LegalMoves(g, true), c) <==> t == OpeningTarget(c) {
      OpeningFlips(g, c, t);
    }
  }

  /** On the starting board black can play exactly the four opening moves. */
  lemma OpeningLegal(g: Grid)
    requires IsStart(g)
    ensures forall c :: IsLegal(g, c, true) <==> c in OpeningCells
  {
    OpeningMoves(g);
    forall c | IsLegal(g, c, true) ensures c in OpeningCells {
      var d, m :| d in Directions && Flanks(g, c, true, d, m);
      StartFlank(g, c, d, m);
    }
  }

  /** Each opening move turns only the white stone next to it. */
  lemma OpeningFlips(g: Grid, c: Cell, t: Cell)
    requires IsStart(g) && c in OpeningCells
    ensures Flips(g, c, true, t) <==> t == OpeningTarget(c)
  {
    if Flips(g, c, true, t) {
      OpeningFlipsOnly(g, c, t);
    }
    if t == OpeningTarget(c) {
      OpeningFlipsTarget(g, c);
    }
  }

  /** An opening move flips nothing but its target. */
  lemma OpeningFlipsOnly(g: Grid, c: Cell, t: Cell)
    requires IsStart(g) && c in OpeningCells && Flips(g, c, true, t)
    ensures t == OpeningTarget(c)
  {
    var d, m: nat :| d in Directions && Flanks(g, c, true, d, m) && t in Run(c, d, m);
    StartFlank(g, c, d, m);
    assert Run(c, d, m) == [Step(c, d, 1)];
  }

  /** An opening move flips its target. */
  lemma OpeningFlipsTarget(g: Grid, c: Cell)
    requires IsStart(g) && c in OpeningCells
    ensures Flips(g, c, true, OpeningTarget(c))
  {
    var e := OpeningDirection(c);
    assert Step(c, e, 1) == OpeningTarget(c);
    StartFlanked(g, c);
    assert Run(c, e, 1) == [OpeningTarget(c)];
  }

  /** Each opening move flanks its target. */
  lemma StartFlanked(g: Grid, c: Cell)
    requires IsStart(g) && c in OpeningCells
    ensures OpeningDirection(c) in Directions && Flanks(g, c, true, OpeningDirection(c), 1)
  {
    var e := OpeningDirection(c);
    assert At(g, Step(c, e, 1)) == StartSquare(Step(c, e, 1));
    assert At(g, Step(c, e, 2)) == StartSquare(Step(c, e, 2));
  }

  /** Every board is well formed, with no square carrying both flags. */
  ghost predicate Boards(history: seq<Grid>)
  {
    forall i :: 0 <= i < |history| ==> WellFormed(history[i]) && NoDoubleStones(history[i])
  }

  /** The component's `this.state`. */
  datatype GameState = GameState(
    history: seq<Grid>,
    stepNumber: nat,
    blackIsNext: Option<bool>,
    isPlaying: bool,
    isSingleMode: bool,
    cpuLevel: int,
    isCpuBlack: bool,
    blackIsPassed: Option<bool>)

  /** `history[stepNumber]`, the board shown and played on. */
  function CurrentBoard(s: GameState): Grid
    requires s.stepNumber < |s.history|
  {
    s.history[s.stepNumber]
  }

  /**
   * The game's invariant: the current board is the last one, every board is
   * well formed with no doubled square, whenever play is on the side to move
   * can move (so the computer always finds a move), and a single-player game
   * with a side to move is in play.
   */
  ghost predicate ValidGame(s: GameState)
  {
    |s.history| >= 1 && s.stepNumber == |s.history| - 1 && Boards(s.history) &&
    (s.isPlaying ==> s.blackIsNext.Some? && CanMove(CurrentBoard(s), s.blackIsNext.value)) &&
    (s.isSingleMode && s.blackIsNext.Some? ==> s.isPlaying)
  }

  /** A fresh game on the starting board, black to move, as the three ways to (re)start leave it. */
  function Fresh(g: Grid, isPlaying: bool, isSingleMode: bool, cpuLevel: int, isCpuBlack: bool): GameState
  {
    GameState([g], 0, Some(true), isPlaying, isSingleMode, cpuLevel, isCpuBlack, None)
  }

  /** A fresh game is valid. */
  lemma FreshIsValid(g: Grid, isPlaying: bool, isSingleMode: bool, cpuLevel: int, isCpuBlack: bool)
    requires IsStart(g) && NoDoubleStones(g) && (isSingleMode ==> isPlaying)
    ensures ValidGame(Fresh(g, isPlaying, isSingleMode, cpuLevel, isCpuBlack))
  {
    OpeningMoves(g);
    assert Cell(2, 3) in OpeningCells;
  }

  /**
   * The `setState` of `putStone` once `black` has moved and left `board`:
   * the board is appended after the current one and the turn is handed on.
   */
  ghost function AfterMove(s: GameState, board: Grid, black: bool): GameState
    requires s.stepNumber < |s.history| && WellFormed(board)
  {
    var next := NextPlayer(board, black);
    s.(history := s.history[..s.stepNumber + 1] + [board], stepNumber := s.stepNumber + 1,
       blackIsNext := next, isPlaying := next.Some?, blackIsPassed := PassedPlayer(board, black))
  }

  /** Appending a sound board and handing the turn on keeps the game valid. */
  lemma AfterMoveValid(s: GameState, board: Grid, black: bool)
    requires ValidGame(s) && WellFormed(board) && NoDoubleStones(board)
    ensures ValidGame(AfterMove(s, board, black))
    ensures |AfterMove(s, board, black).history| == |s.history| + 1
  {
    assert s.history[..s.stepNumber + 1] == s.history;
    assert (s.history + [board])[|s.history|] == board;
  }

  /**
   * Whether a click on (x, y) gets through every guard of `handleClick`:
   * play is on, it is not the computer's turn, and the cell is a legal
   * destination (which implies it is empty).
   */
  ghost predicate Accepts(s: GameState, x: int, y: int)
    requires ValidGame(s)
  {
    s.isPlaying && !(s.isSingleMode && s.blackIsNext == Some(s.isCpuBlack)) &&
    IsLegal(CurrentBoard(s), Cell(x, y), s.blackIsNext.value)
  }

  /**
   * The turn logic of `putStone` after the stones are down: the opponent's
   * map first, and only when it is empty the mover's own.
   */
  method NextTurn(squares: Grid, blackIsNext: bool) returns (nextPlayer: Option<bool>, isPlaying: bool, blackIsPassed: Option<bool>)
    requires WellFormed(squares)
    ensures nextPlayer == NextPlayer(squares, blackIsNext) && isPlaying == nextPlayer.Some?
    ensures blackIsPassed == PassedPlayer(squares, blackIsNext)
  {
    CanMoveIff(squares, !blackIsNext);
    CanMoveIff(squares, blackIsNext);
    nextPlayer := Some(!blackIsNext);
    isPlaying := true;
    blackIsPassed := None;
    var selectableCellsOpposite := GetSelectableCells(squares, !blackIsNext);
    if |selectableCellsOpposite| == 0 {
      // the opponent cannot move: the mover plays again
      nextPlayer := Some(blackIsNext);
      var selectableCellsMine := GetSelectableCells(squares, blackIsNext);
      if |selectableCellsMine| == 0 {
        // neither side can move
        nextPlayer := None;
        isPlaying := false;
      } else {
        blackIsPassed := Some(!blackIsNext);
      }
    }
  }

  /**
   * The search of `handleClick` for the clicked cell in the legal-move map
   * of the side to move.
   */
  method ClickedEntry(squares: Grid, blackIsNext: bool, x: int, y: int) returns (selectedCell: Option<Entry>)
    requires WellFormed(squares)
    ensures selectedCell.Some? <==> IsLegal(squares, Cell(x, y), blackIsNext)
    ensures selectedCell.Some? ==> selectedCell.value.select == Cell(x, y) && IsMove(squares, selectedCell.value, blackIsNext)
  {
    var selectableCells := GetSelectableCells(squares, blackIsNext);
    selectedCell := FindSelected(selectableCells, x, y);
    EntryAt(squares, blackIsNext, Cell(x, y));
  }

  class Game {
    /** `this.state`; every `setState` replaces it. */
    var state: GameState

    ghost predicate Valid()
      reads this
    {
      ValidGame(state)
    }

    /** The constructor's initial state; `r` stands for the `Math.random()` that picks the computer's colour. */
    constructor(r: real)
      ensures Valid() && IsStart(state.history[0])
      ensures state == Fresh(state.history[0], false, false, 2, r > 0.5)
    {
      var squares := CreateSquares();
      state := GameState([squares], 0, Some(true), false, false, 2, r > 0.5, None);
      FreshIsValid(squares, false, false, 2, r > 0.5);
    }

    /** `startSingle`: a new game against the computer, which plays black when `r > 0.5`. */
    method StartSingle(cpuLevel: int, r: real)
      modifies this
      ensures Valid() && IsStart(state.history[0])
      ensures state == Fresh(state.history[0], true, true, cpuLevel, r > 0.5)
    {
      var isCpuBlack := r > 0.5;
      var squares := CreateSquares();
      state := GameState([squares], 0, Some(true), true, true, cpuLevel, isCpuBlack, None);
      FreshIsValid(squares, true, true, cpuLevel, isCpuBlack);
    }

    /** `startMulti`: a new game between two people. */
    method StartMulti()
      modifies this
      ensures Valid() && IsStart(state.history[0])
      ensures state == Fresh(state.history[0], true, false, 1, false)
    {
      var squares := CreateSquares();
      state := GameState([squares], 0, Some(true), true, false, 1, false, None);
      FreshIsValid(squares, true, false, 1, false);
    }

    /**
     * `putStone`: plays `selectedCell` for the side to move on the copied
     * board `squares`, appends it to `history`, and hands the turn on.
     */
    method PutStone(history: seq<Grid>, squares: array2<Square>, selectedCell: Entry)
      requires Valid() && state.blackIsNext.Some? && history == state.history[..state.stepNumber + 1]
      requires squares.Length0 == 8 && squares.Length1 == 8 && Snapshot(squares) == CurrentBoard(state)
      requires IsMove(CurrentBoard(state), selectedCell, state.blackIsNext.value)
      modifies this, squares
      ensures Valid()
      ensures Snapshot(squares) == Play(CurrentBoard(old(state)), selectedCell.select, old(state).blackIsNext.value)
      ensures state == AfterMove(old(state), Snapshot(squares), old(state).blackIsNext.value)
    {
      var black := state.blackIsNext.value;
      ghost var g := CurrentBoard(state);
      MoveOnBoard(g, black, selectedCell);
      PlaceStones(squares, selectedCell, black);
      var board := Snapshot(squares);
      MoveIsPlay(g, selectedCell, black);
      PlayKeepsNoDoubleStones(g, selectedCell.select, black);
      AfterMoveValid(state, board, black);

      var nextPlayer, isPlaying, blackIsPassed := NextTurn(board, black);
      assert Snapshot(squares) == board;
      ghost var s0 := state;
      state := state.(
        history := history + [board],
        stepNumber := |history|,
        blackIsNext := nextPlayer,
        isPlaying := isPlaying,
        blackIsPassed := blackIsPassed);
      assert state == AfterMove(s0, board, black);
    }

    /**
     * `handleClick`: ignored unless play is on, the square is empty, it is not
     * the computer's turn, and (x, y) is a legal destination; then that move
     * is played.
     */
    method HandleClick(x: int, y: int)
      requires Valid() && 0 <= x < 8 && 0 <= y < 8
      modifies this
      ensures Valid()
      ensures !Accepts(old(state), x, y) ==> state == old(state)
      ensures Accepts(old(state), x, y) ==>
        var black := old(state).blackIsNext.value;
        state == AfterMove(old(state), Play(CurrentBoard(old(state)), Cell(x, y), black), black)
    {
      if !state.isPlaying {
        return;
      }

      var history := state.history[..state.stepNumber + 1];
      var current := history[|history| - 1];
      var squares := CopySquares(current);
      if squares[y, x].black || squares[y, x].white {
        assert At(CurrentBoard(state), Cell(x, y)) == squares[y, x];
        return;
      }

      if state.isSingleMode && state.blackIsNext == Some(state.isCpuBlack) {
        // a click during the computer's turn is ignored
        return;
      }

      var selectedCell := ClickedEntry(Snapshot(squares), state.blackIsNext.value, x, y);
      if selectedCell.None? {
        return;
      }

      PutStone(history, squares, selectedCell.value);
    }

    /**
     * `putCpuStone`, run when it is the computer's turn: the level's choice
     * for the side to move is played. A level other than 1 or 2 chooses
     * nothing, and `putStone` then fails before changing any state.
     */
    method PutCpuStone(r: real)
      requires Valid() && state.isSingleMode && state.blackIsNext == Some(state.isCpuBlack) && 0.0 <= r < 1.0
      modifies this
      ensures Valid()
      ensures old(state).cpuLevel !in {1, 2} ==> state == old(state)
      ensures old(state).cpuLevel in {1, 2} ==>
        var g, black := CurrentBoard(old(state)), old(state).blackIsNext.value;
        exists e :: (IsMove(g, e, black) &&
          state == AfterMove(old(state), Play(g, e.select, black), black) &&
          (old(state).cpuLevel == 2 && !IsCorner(e.select) ==> forall c :: IsLegal(g, c, black) ==> !IsCorner(c)) &&
          (old(state).cpuLevel == 2 && NextToCorner(e.select) ==> forall c :: IsLegal(g, c, black) ==> NextToCorner(c)))
    {
      ghost var s0 := state;
      ghost var g, black := CurrentBoard(state), state.blackIsNext.value;
      var history := state.history[..state.stepNumber + 1];
      var current := history[|history| - 1];
      var squares := CopySquares(current);

      var selectedCell := SelectCpuCell(state.cpuLevel, Snapshot(squares), state.blackIsNext.value, r);
      if selectedCell.None? {
        assert s0.cpuLevel !in {1, 2};
        return;
      }

      PutStone(history, squares, selectedCell.value);
      assert state == AfterMove(s0, Play(g, selectedCell.value.select, black), black);
    }

    /**
     * The status line of `render`: the stone counts of the current board, and
     * once nobody is to move, the winner.
     */
    method Status() returns (blackStoneCount: nat, whiteStoneCount: nat, winner: Option<Outcome>)
      requires Valid()
      ensures blackStoneCount == Count(CurrentBoard(state), Black) && whiteStoneCount == Count(CurrentBoard(state), White)
      ensures winner.Some? <==> state.blackIsNext.None?
      ensures winner.Some? ==> winner.value == Winner(blackStoneCount, whiteStoneCount)
    {
      blackStoneCount, whiteStoneCount := CountStones(state.history[state.stepNumber]);
      winner := None;
      if state.blackIsNext.None? {
        winner := Some(Winner(blackStoneCount, whiteStoneCount));
      }
    }
  }
}
