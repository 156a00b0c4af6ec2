/**
 * `getSelectableCells` (src/index.js): every list of `Lines` is scanned, in
 * order, into the same two maps, and the map of the side to move is returned.
 */
module Rules {
  import opened Board
  import opened MoveMaps
  import opened Lines
  import opened Scanner

  const NoMoves := Selectable([], [])

  ghost predicate OnBoardLists(ls: seq<seq<Cell>>)
  {
    forall l :: l in ls ==> AllOnBoard(l)
  }

  /** The two maps after scanning the lists `ls` one after the other. */
  function ScanAll(g: Grid, p: Selectable, ls: seq<seq<Cell>>): Selectable
    requires WellFormed(g) && OnBoardLists(ls)
  {
    if ls == [] then p else ScanLine(g, ScanAll(g, p, ls[..|ls| - 1]), ls[|ls| - 1])
  }

  /** The destinations of the side to move, each with the stones it flips. */
  function LegalMoves(g: Grid, black: bool): MoveMap
    requires WellFormed(g)
  {
    AllLinesOnBoard();
    var p := ScanAll(g, NoMoves, AllLines());
    if black then p.black else p.white
  }

  lemma AllLinesOnBoard()
    ensures OnBoardLists(AllLines())
  {
    AllLinesShape();
  }

  lemma ScanAllSnoc(g: Grid, p: Selectable, ls: seq<seq<Cell>>, l: seq<Cell>)
    requires WellFormed(g) && OnBoardLists(ls) && AllOnBoard(l)
    ensures OnBoardLists(ls + [l])
    ensures ScanAll(g, p, ls + [l]) == ScanLine(g, ScanAll(g, p, ls), l)
  {
    assert (ls + [l])[..|ls|] == ls;
  }

  lemma {:induction false} ScanAllAppend(g: Grid, p: Selectable, ls: seq<seq<Cell>>, ms: seq<seq<Cell>>)
    requires WellFormed(g) && OnBoardLists(ls) && OnBoardLists(ms)
    ensures OnBoardLists(ls + ms)
    ensures ScanAll(g, p, ls + ms) == ScanAll(g, ScanAll(g, p, ls), ms)
  {
    if ms == [] {
      assert ls + ms == ls;
    } else {
      var init, last := ms[..|ms| - 1], ms[|ms| - 1];
      assert ms == init + [last];
      ScanAllAppend(g, p, ls, init);
      assert (ls + ms)[..|ls + ms| - 1] == ls + init && (ls + ms)[|ls + ms| - 1] == last;
    }
  }

  /** Scanning the four families one after the other is scanning every list. */
  lemma ScanAllLines(g: Grid)
    requires WellFormed(g)
    requires OnBoardLists(RowLists(8)) && OnBoardLists(ColumnLists(8))
    requires OnBoardLists(DiagonalLists(11)) && OnBoardLists(AntiDiagonalLists(11))
    ensures OnBoardLists(AllLines())
    ensures ScanAll(g, NoMoves, AllLines()) ==
      ScanAll(g, ScanAll(g, ScanAll(g, ScanAll(g, NoMoves, RowLists(8)), ColumnLists(8)), DiagonalLists(11)),
              AntiDiagonalLists(11))
  {
    var r, c, d, a := RowLists(8), ColumnLists(8), DiagonalLists(11), AntiDiagonalLists(11);
    ScanAllAppend(g, NoMoves, r, c);
    ScanAllAppend(g, NoMoves, r + c, d);
    ScanAllAppend(g, NoMoves, r + c + d, a);
  }

  /**
   * `getSelectableCells`: scan the rows, the columns and both families of
   * diagonals, in that order, into the same two maps, and return the map of
   * the side to move.
   */
  method GetSelectableCells(squares: Grid, blackIsNext: bool) returns (cells: MoveMap)
    requires WellFormed(squares)
    ensures cells == LegalMoves(squares, blackIsNext)
  {
    var blackSelectableCells, whiteSelectableCells: MoveMap := [], [];
    blackSelectableCells, whiteSelectableCells := ScanRows(squares, blackSelectableCells, whiteSelectableCells);
    blackSelectableCells, whiteSelectableCells := ScanColumns(squares, blackSelectableCells, whiteSelectableCells);
    blackSelectableCells, whiteSelectableCells := ScanDiagonals(squares, blackSelectableCells, whiteSelectableCells);
    blackSelectableCells, whiteSelectableCells := ScanAntiDiagonals(squares, blackSelectableCells, whiteSelectableCells);
    ScanAllLines(squares);
    if blackIsNext {
      cells := blackSelectableCells;
    } else {
      cells := whiteSelectableCells;
    }
  }

  lemma RowOnBoard(row: int, backward: bool)
    requires 0 <= row < 8
    ensures AllOnBoard(RowLine(row, backward))
  {
    RowShape(row, backward);
  }

  lemma ColumnOnBoard(column: int, backward: bool)
    requires 0 <= column < 8
    ensures AllOnBoard(ColumnLine(column, backward))
  {
    ColumnShape(column, backward);
  }

  lemma DiagonalOnBoard(offset: int, backward: bool)
    requires -5 <= offset <= 5
    ensures AllOnBoard(DiagonalLine(offset, backward))
  {
    DiagonalShape(offset, backward);
  }

  lemma AntiDiagonalOnBoard(offset: int, backward: bool)
    requires -5 <= offset <= 5
    ensures AllOnBoard(AntiDiagonalLine(offset, backward))
  {
    AntiDiagonalShape(offset, backward);
  }

  /*
   * The rule itself, stated on the board without lists: a destination is an
   * empty cell from which, in some direction, one or more opponent stones run
   * up to a stone of the mover.
   */

  /**
   * From `c`, the `m >= 1` cells in direction `d` hold opponent stones and the
   * next one holds a mover stone.
   */
  ghost predicate Flanks(g: Grid, c: Cell, black: bool, d: (int, int), m: int)
    requires WellFormed(g)
  {
    m >= 1 &&
    (forall s :: 1 <= s <= m ==> OnBoard(Step(c, d, s)) && ColorOf(At(g, Step(c, d, s))) == Opponent(black)) &&
    OnBoard(Step(c, d, m + 1)) && ColorOf(At(g, Step(c, d, m + 1))) == Mover(black)
  }

  /** `c` is a destination of the side to move. */
  ghost predicate IsLegal(g: Grid, c: Cell, black: bool)
    requires WellFormed(g)
  {
    OnBoard(c) && ColorOf(At(g, c)) == Empty && exists d, m :: d in Directions && Flanks(g, c, black, d, m)
  }

  /**
   * The `m` cells from `c` in direction `d`, farthest first: the order in
   * which a list walking towards `c` meets them.
   */
  function Run(c: Cell, d: (int, int), m: nat): (r: seq<Cell>)
    ensures |r| == m
  {
    seq(m, j => Step(c, d, m - j))
  }

  /** Playing `c` turns the stone on `t`: `t` lies on a flanked run from `c`. */
  ghost predicate Flips(g: Grid, c: Cell, black: bool, t: Cell)
    requires WellFormed(g)
  {
    exists d, m: nat :: d in Directions && Flanks(g, c, black, d, m) && t in Run(c, d, m)
  }

  /**
   * A sandwich on a list walking in steps of `e` is a flank from its empty
   * cell against `e`, and the list's opponent run is that flank's run.
   */
  lemma SandwichFlanks(g: Grid, l: seq<Cell>, e: (int, int), k: int, i: int, black: bool)
    requires WellFormed(g) && AllOnBoard(l) && Walks(l, e)
    requires Sandwich(g, l, k, i, black)
    ensures Flanks(g, l[i], black, Neg(e), i - 1 - k)
    ensures l[k + 1..i] == Run(l[i], Neg(e), i - 1 - k)
  {
    var c, d, m := l[i], Neg(e), i - 1 - k;
    forall s | 0 <= s <= i ensures l[i - s] == Step(c, d, s) {
      WalkBack(l, e, i, s);
    }
    forall s | 1 <= s <= m ensures OnBoard(Step(c, d, s)) && ColorOf(At(g, Step(c, d, s))) == Opponent(black) {
      assert ColorAt(g, l, i - s) == Opponent(black);
    }
    assert ColorAt(g, l, k) == Mover(black);
    forall j | 0 <= j < m ensures l[k + 1..i][j] == Run(c, d, m)[j] {
      assert l[k + 1..i][j] == l[i - (m - j)];
    }
  }

  /** A list that spans the board and reaches `c` at position `i` has room behind `c` for any flank. */
  lemma FlankFits(g: Grid, l: seq<Cell>, i: nat, c: Cell, black: bool, d: (int, int), m: int)
    requires WellFormed(g) && SpansBoard(l, Neg(d)) && i < |l| && l[i] == c
    requires Flanks(g, c, black, d, m)
    ensures m + 1 <= i
    ensures forall s :: 0 <= s <= i ==> l[i - s] == Step(c, d, s)
  {
    forall s | 0 <= s <= i ensures l[i - s] == Step(c, d, s) {
      WalkBack(l, Neg(d), i, s);
    }
    FlankRoom(g, l, i, c, black, d, m);
  }

  lemma FlankRoom(g: Grid, l: seq<Cell>, i: nat, c: Cell, black: bool, d: (int, int), m: int)
    requires WellFormed(g) && SpansBoard(l, Neg(d)) && i < |l| && l[i] == c
    requires Flanks(g, c, black, d, m)
    ensures m + 1 <= i
  {
    BehindStart(l, Neg(d), i);
    assert Neg(Neg(d)) == d;
    var behind := Step(c, d, i + 1);
  }

  /** Stepping back from position `i` past the start of a list that spans the board leaves the board. */
  lemma BehindStart(l: seq<Cell>, e: (int, int), i: nat)
    requires SpansBoard(l, e) && i < |l|
    ensures !OnBoard(Step(l[i], Neg(e), i + 1))
  {
    WalkBack(l, e, i, i);
    var d := Neg(e);
    assert (i + 1) * d.0 == i * d.0 + d.0 && (i + 1) * d.1 == i * d.1 + d.1;
  }

  lemma FlankOnList(g: Grid, l: seq<Cell>, i: nat, c: Cell, black: bool, d: (int, int), m: int)
    requires WellFormed(g) && AllOnBoard(l) && m + 1 <= i < |l| && l[i] == c && ColorOf(At(g, c)) == Empty
    requires forall s :: 0 <= s <= i ==> l[i - s] == Step(c, d, s)
    requires Flanks(g, c, black, d, m)
    ensures Sandwich(g, l, i - 1 - m, i, black)
  {
    var k := i - 1 - m;
    forall j | k < j < i ensures ColorAt(g, l, j) == Opponent(black) {
      assert l[j] == l[i - (i - j)] == Step(c, d, i - j);
    }
    assert l[k] == l[i - (m + 1)] == Step(c, d, m + 1);
  }

  /** Every flank lies along one of the scanned lists, which walks towards its empty cell. */
  lemma FlankLine(g: Grid, c: Cell, black: bool, d: (int, int), m: int) returns (l: seq<Cell>, i: nat)
    requires WellFormed(g) && d in Directions && OnBoard(c) && Flanks(g, c, black, d, m)
    ensures l in AllLines() && SpansBoard(l, Neg(d)) && i < |l| && l[i] == c
  {
    FlankSecond(g, c, black, d, m);
    NegDirection(d);
    l, i := LineThrough(c, Neg(d));
  }

  /** The second cell of a flank is on the board. */
  lemma FlankSecond(g: Grid, c: Cell, black: bool, d: (int, int), m: int)
    requires WellFormed(g) && Flanks(g, c, black, d, m)
    ensures OnBoard(Step(c, d, 2))
  {
    if m >= 2 {
      assert 1 <= 2 <= m;
    }
  }

  /** A flank from an empty cell is a sandwich on a list that spans the board towards that cell. */
  lemma FlanksSandwich(g: Grid, c: Cell, black: bool, d: (int, int), m: int, l: seq<Cell>, i: nat)
    requires WellFormed(g) && OnBoard(c) && ColorOf(At(g, c)) == Empty && Flanks(g, c, black, d, m)
    requires SpansBoard(l, Neg(d)) && i < |l| && l[i] == c
    ensures AllOnBoard(l) && Sandwich(g, l, i - 1 - m, i, black)
  {
    FlankFits(g, l, i, c, black, d, m);
    FlankOnList(g, l, i, c, black, d, m);
  }

  /*
   * What the scan computes, stated with the rule.
   */

  /** Every find of every list in `ls`, list after list. */
  function AllFinds(g: Grid, ls: seq<seq<Cell>>): seq<Find>
    requires WellFormed(g) && OnBoardLists(ls)
  {
    if ls == [] then [] else AllFinds(g, ls[..|ls| - 1]) + Finds(g, ls[|ls| - 1], |ls[|ls| - 1]|)
  }

  lemma {:induction false} ScanAllFinds(g: Grid, p: Selectable, ls: seq<seq<Cell>>)
    requires WellFormed(g) && OnBoardLists(ls)
    ensures ScanAll(g, p, ls) == RecordAll(p, AllFinds(g, ls))
  {
    if ls != [] {
      var init, l := ls[..|ls| - 1], ls[|ls| - 1];
      ScanAllFinds(g, p, init);
      RecordAllAppend(p, AllFinds(g, init), Finds(g, l, |l|));
    }
  }

  lemma {:induction false} AllFindsMembers(g: Grid, ls: seq<seq<Cell>>)
    requires WellFormed(g) && OnBoardLists(ls)
    ensures forall f :: f in AllFinds(g, ls) <==> exists l :: l in ls && f in Finds(g, l, |l|)
  {
    if ls != [] {
      var init, last := ls[..|ls| - 1], ls[|ls| - 1];
      AllFindsMembers(g, init);
      assert ls == init + [last];
      forall f | f in AllFinds(g, ls) ensures exists l :: l in ls && f in Finds(g, l, |l|) {
        assert AllFinds(g, ls) == AllFinds(g, init) + Finds(g, last, |last|);
        if f !in Finds(g, last, |last|) {
          assert f in AllFinds(g, init);
          var l :| l in init && f in Finds(g, l, |l|);
          assert l in ls;
        }
      }
    }
  }

  /** The map the scan of straight lists builds for one side. */
  function Moves(g: Grid, ls: seq<seq<Cell>>, black: bool): MoveMap
    requires WellFormed(g) && OnBoardLists(ls)
  {
    InsertAll([], Only(AllFinds(g, ls), black))
  }

  /** Each map, as the finds of its own mover over every list. */
  lemma LegalMovesFinds(g: Grid, black: bool)
    requires WellFormed(g)
    ensures OnBoardLists(AllLines())
    ensures LegalMoves(g, black) == Moves(g, AllLines(), black)
  {
    AllLinesOnBoard();
    ScanAllFinds(g, NoMoves, AllLines());
    RecordAllSplit(NoMoves, AllFinds(g, AllLines()));
  }

  lemma NegDirection(e: (int, int))
    requires e in Directions
    ensures Neg(e) in Directions && Neg(Neg(e)) == e
  {
  }

  /** Lists of on-board cells, each walking straight across the board. */
  ghost predicate StraightLists(ls: seq<seq<Cell>>)
  {
    OnBoardLists(ls) && forall l :: l in ls ==> Straight(l)
  }

  lemma AllLinesStraight()
    ensures StraightLists(AllLines())
  {
    AllLinesOnBoard();
    AllLinesShape();
  }

  /** The list on which a find was made, the direction it walks, and the sandwich the find closes there. */
  lemma FindOnList(g: Grid, ls: seq<seq<Cell>>, f: Find) returns (l: seq<Cell>, e: (int, int), k: int, i: int)
    requires WellFormed(g) && StraightLists(ls) && f in AllFinds(g, ls)
    ensures e in Directions && AllOnBoard(l) && Walks(l, e)
    ensures Sandwich(g, l, k, i, f.black) && f.select == l[i] && f.targets == l[k + 1..i]
  {
    l := FindList(g, ls, f);
    FindsSound(g, l, |l|);
    k, i :| i < |l| && Sandwich(g, l, k, i, f.black) && f.select == l[i] && f.targets == l[k + 1..i];
    e :| e in Directions && SpansBoard(l, e);
  }

  lemma FindList(g: Grid, ls: seq<seq<Cell>>, f: Find) returns (l: seq<Cell>)
    requires WellFormed(g) && StraightLists(ls) && f in AllFinds(g, ls)
    ensures Straight(l) && AllOnBoard(l) && f in Finds(g, l, |l|)
  {
    AllFindsMembers(g, ls);
    l :| l in ls && f in Finds(g, l, |l|);
  }

  /** A sandwich on a straight list is a flank from its empty end, read back along the list. */
  lemma SandwichIsFlank(g: Grid, l: seq<Cell>, e: (int, int), k: int, i: int, black: bool) returns (d: (int, int), m: nat)
    requires WellFormed(g) && e in Directions && AllOnBoard(l) && Walks(l, e) && Sandwich(g, l, k, i, black)
    ensures OnBoard(l[i]) && ColorOf(At(g, l[i])) == Empty
    ensures d in Directions && Flanks(g, l[i], black, d, m) && l[k + 1..i] == Run(l[i], d, m)
  {
    SandwichFlanks(g, l, e, k, i, black);
    NegDirection(e);
    d, m := Neg(e), i - 1 - k;
  }

  /** A find made on straight lists is a flank from its destination, with that flank's run as its targets. */
  lemma FindIsFlank(g: Grid, ls: seq<seq<Cell>>, f: Find) returns (d: (int, int), m: nat)
    requires WellFormed(g) && StraightLists(ls) && f in AllFinds(g, ls)
    ensures OnBoard(f.select) && ColorOf(At(g, f.select)) == Empty
    ensures d in Directions && Flanks(g, f.select, f.black, d, m) && f.targets == Run(f.select, d, m)
  {
    var l, e, k, i := FindOnList(g, ls, f);
    d, m := SandwichIsFlank(g, l, e, k, i, f.black);
  }

  /** A sandwich on one of the lists is one of the finds. */
  lemma SandwichIsFind(g: Grid, ls: seq<seq<Cell>>, l: seq<Cell>, k: int, i: int, black: bool)
    requires WellFormed(g) && OnBoardLists(ls) && l in ls && Sandwich(g, l, k, i, black)
    ensures Find(l[i], black, l[k + 1..i]) in AllFinds(g, ls)
  {
    FindsComplete(g, l, |l|);
    AllFindsMembers(g, ls);
  }

  /** A flank from an empty cell along one of the lists is a find there, with the flank's run as its targets. */
  lemma FlankIsFind(g: Grid, ls: seq<seq<Cell>>, c: Cell, black: bool, d: (int, int), m: int, l: seq<Cell>, i: nat)
    requires WellFormed(g) && OnBoardLists(ls) && l in ls
    requires d in Directions && OnBoard(c) && ColorOf(At(g, c)) == Empty && Flanks(g, c, black, d, m)
    requires SpansBoard(l, Neg(d)) && i < |l| && l[i] == c
    ensures Find(c, black, Run(c, d, m)) in AllFinds(g, ls)
  {
    FlanksSandwich(g, c, black, d, m, l, i);
    var k := i - 1 - m;
    FlankRun(g, l, k, i, black, d);
    SandwichIsFind(g, ls, l, k, i, black);
  }

  lemma FlankRun(g: Grid, l: seq<Cell>, k: int, i: int, black: bool, d: (int, int))
    requires WellFormed(g) && d in Directions && AllOnBoard(l) && SpansBoard(l, Neg(d)) && Sandwich(g, l, k, i, black)
    ensures l[k + 1..i] == Run(l[i], d, i - 1 - k)
  {
    SandwichFlanks(g, l, Neg(d), k, i, black);
    NegDirection(d);
  }

  /**
   * The keys of the map returned for the side to move are exactly the empty
   * cells from which, in some direction, opponent stones run up to a stone of
   * the mover.
   */
  lemma LegalMovesKeys(g: Grid, black: bool)
    requires WellFormed(g)
    ensures forall c :: c in Keys(LegalMoves(g, black)) <==> IsLegal(g, c, black)
  {
    LegalMovesFinds(g, black);
    AllLinesStraight();
    forall c | c in Keys(Moves(g, AllLines(), black)) ensures IsLegal(g, c, black) {
      KeySound(g, AllLines(), black, c);
    }
    forall c | IsLegal(g, c, black) ensures c in Keys(Moves(g, AllLines(), black)) {
      LegalIsKey(g, c, black);
    }
  }

  /** The side has somewhere to play. */
  ghost predicate CanMove(g: Grid, black: bool)
    requires WellFormed(g)
  {
    exists c :: IsLegal(g, c, black)
  }

  /** The map of the side to move is non-empty exactly when that side can move. */
  lemma CanMoveIff(g: Grid, black: bool)
    requires WellFormed(g)
    ensures |LegalMoves(g, black)| > 0 <==> CanMove(g, black)
  {
    LegalMovesKeys(g, black);
    if |LegalMoves(g, black)| > 0 {
      assert IsLegal(g, Keys(LegalMoves(g, black))[0], black);
    }
  }

  lemma LegalIsKey(g: Grid, c: Cell, black: bool)
    requires WellFormed(g) && IsLegal(g, c, black)
    ensures c in Keys(LegalMoves(g, black))
  {
    LegalMovesFinds(g, black);
    var f := LegalIsFind(g, c, black);
    FindIsKey(g, AllLines(), f);
  }

  lemma KeySound(g: Grid, ls: seq<seq<Cell>>, black: bool, c: Cell)
    requires WellFormed(g) && StraightLists(ls) && c in Keys(Moves(g, ls, black))
    ensures IsLegal(g, c, black)
  {
    var fs := Only(AllFinds(g, ls), black);
    InsertAllKeys([], fs);
    var j :| 0 <= j < |fs| && fs[j].select == c;
    var d, m := FindIsFlank(g, ls, fs[j]);
  }

  lemma FindIsKey(g: Grid, ls: seq<seq<Cell>>, f: Find)
    requires WellFormed(g) && OnBoardLists(ls) && f in AllFinds(g, ls)
    ensures f.select in Keys(Moves(g, ls, f.black))
  {
    var fs := Only(AllFinds(g, ls), f.black);
    InsertAllKeys([], fs);
    var j :| 0 <= j < |fs| && fs[j] == f;
  }

  lemma LegalIsFind(g: Grid, c: Cell, black: bool) returns (f: Find)
    requires WellFormed(g) && IsLegal(g, c, black)
    ensures OnBoardLists(AllLines()) && f in AllFinds(g, AllLines()) && f.select == c && f.black == black
  {
    var d, m :| d in Directions && Flanks(g, c, black, d, m);
    var l, i := FlankLine(g, c, black, d, m);
    AllLinesOnBoard();
    FlankIsFind(g, AllLines(), c, black, d, m, l, i);
    f := Find(c, black, Run(c, d, m));
  }

  /**
   * The targets stored under a destination are exactly the stones that
   * playing it turns: every opponent stone on a flanked run from it, in every
   * direction.
   */
  lemma LegalMovesTargets(g: Grid, black: bool)
    requires WellFormed(g)
    ensures forall c, t :: t in TargetsOf(LegalMoves(g, black), c) <==> IsLegal(g, c, black) && Flips(g, c, black, t)
  {
    TargetsSound(g, black);
    TargetsComplete(g, black);
  }

  lemma TargetsSound(g: Grid, black: bool)
    requires WellFormed(g)
    ensures forall c, t :: t in TargetsOf(LegalMoves(g, black), c) ==> IsLegal(g, c, black) && Flips(g, c, black, t)
  {
    LegalMovesFinds(g, black);
    AllLinesStraight();
    forall c, t | t in TargetsOf(Moves(g, AllLines(), black), c) ensures IsLegal(g, c, black) && Flips(g, c, black, t) {
      TargetSound(g, AllLines(), black, c, t);
    }
  }

  lemma TargetsComplete(g: Grid, black: bool)
    requires WellFormed(g)
    ensures forall c, t :: IsLegal(g, c, black) && Flips(g, c, black, t) ==> t in TargetsOf(LegalMoves(g, black), c)
  {
    LegalMovesFinds(g, black);
    forall c, t | IsLegal(g, c, black) && Flips(g, c, black, t) ensures t in TargetsOf(Moves(g, AllLines(), black), c) {
      var f := FlipIsFind(g, c, black, t);
      FindTargets(g, AllLines(), f, t);
    }
  }

  lemma FlipIsFind(g: Grid, c: Cell, black: bool, t: Cell) returns (f: Find)
    requires WellFormed(g) && IsLegal(g, c, black) && Flips(g, c, black, t)
    ensures OnBoardLists(AllLines()) && f in AllFinds(g, AllLines())
    ensures f.select == c && f.black == black && t in f.targets
  {
    var d, m: nat :| d in Directions && Flanks(g, c, black, d, m) && t in Run(c, d, m);
    var l, i := FlankLine(g, c, black, d, m);
    AllLinesOnBoard();
    FlankIsFind(g, AllLines(), c, black, d, m, l, i);
    f := Find(c, black, Run(c, d, m));
  }

  lemma TargetSound(g: Grid, ls: seq<seq<Cell>>, black: bool, c: Cell, t: Cell)
    requires WellFormed(g) && StraightLists(ls) && t in TargetsOf(Moves(g, ls, black), c)
    ensures IsLegal(g, c, black) && Flips(g, c, black, t)
  {
    var fs := Only(AllFinds(g, ls), black);
    InsertAllTargets([], fs, c);
    TargetsForMembers(fs, c);
    var f :| f in fs && f.select == c && t in f.targets;
    var d, m := FindIsFlank(g, ls, f);
  }

  lemma FindTargets(g: Grid, ls: seq<seq<Cell>>, f: Find, t: Cell)
    requires WellFormed(g) && OnBoardLists(ls) && f in AllFinds(g, ls) && t in f.targets
    ensures t in TargetsOf(Moves(g, ls, f.black), f.select)
  {
    var fs := Only(AllFinds(g, ls), f.black);
    InsertAllTargets([], fs, f.select);
    TargetsForMembers(fs, f.select);
  }

  lemma LegalMovesUnique(g: Grid, black: bool)
    requires WellFormed(g)
    ensures UniqueKeys(LegalMoves(g, black))
  {
    LegalMovesFinds(g, black);
    InsertAllUnique([], Only(AllFinds(g, AllLines()), black));
  }

  /** The row direction of `getSelectableCells`: each row left to right, then right to left. */
  method ScanRows(squares: Grid, blackSelectableCells: MoveMap, whiteSelectableCells: MoveMap)
    returns (blackOut: MoveMap, whiteOut: MoveMap)
    requires WellFormed(squares)
    ensures OnBoardLists(RowLists(8))
    ensures Selectable(blackOut, whiteOut) ==
            ScanAll(squares, Selectable(blackSelectableCells, whiteSelectableCells), RowLists(8))
  {
    ghost var p0 := Selectable(blackSelectableCells, whiteSelectableCells);
    blackOut, whiteOut := blackSelectableCells, whiteSelectableCells;
    ghost var done: seq<seq<Cell>> := [];
    for row := 0 to 8
      invariant done == RowLists(row) && OnBoardLists(done)
      invariant Selectable(blackOut, whiteOut) == ScanAll(squares, p0, done)
    {
      // forward, then backward along the same row
      var candidateCells := RowCells(row, false);
      RowOnBoard(row, false);
      ScanAllSnoc(squares, p0, done, candidateCells);
      blackOut, whiteOut := AppendSelectableCells(squares, blackOut, whiteOut, candidateCells);
      done := done + [candidateCells];
      candidateCells := RowCells(row, true);
      RowOnBoard(row, true);
      ScanAllSnoc(squares, p0, done, candidateCells);
      blackOut, whiteOut := AppendSelectableCells(squares, blackOut, whiteOut, candidateCells);
      done := done + [candidateCells];
    }
  }

  /** The column direction: each column top to bottom, then bottom to top. */
  method ScanColumns(squares: Grid, blackSelectableCells: MoveMap, whiteSelectableCells: MoveMap)
    returns (blackOut: MoveMap, whiteOut: MoveMap)
    requires WellFormed(squares)
    ensures OnBoardLists(ColumnLists(8))
    ensures Selectable(blackOut, whiteOut) ==
            ScanAll(squares, Selectable(blackSelectableCells, whiteSelectableCells), ColumnLists(8))
  {
    ghost var p0 := Selectable(blackSelectableCells, whiteSelectableCells);
    blackOut, whiteOut := blackSelectableCells, whiteSelectableCells;
    ghost var done: seq<seq<Cell>> := [];
    for column := 0 to 8
      invariant done == ColumnLists(column) && OnBoardLists(done)
      invariant Selectable(blackOut, whiteOut) == ScanAll(squares, p0, done)
    {
      // forward, then backward along the same line
      var candidateCells := ColumnCells(column, false);
      ColumnOnBoard(column, false);
      ScanAllSnoc(squares, p0, done, candidateCells);
      blackOut, whiteOut := AppendSelectableCells(squares, blackOut, whiteOut, candidateCells);
      done := done + [candidateCells];
      candidateCells := ColumnCells(column, true);
      ColumnOnBoard(column, true);
      ScanAllSnoc(squares, p0, done, candidateCells);
      blackOut, whiteOut := AppendSelectableCells(squares, blackOut, whiteOut, candidateCells);
      done := done + [candidateCells];
    }
  }

  /** The top-left to bottom-right diagonals, offsets -5 to 5, each downwards then upwards. */
  method ScanDiagonals(squares: Grid, blackSelectableCells: MoveMap, whiteSelectableCells: MoveMap)
    returns (blackOut: MoveMap, whiteOut: MoveMap)
    requires WellFormed(squares)
    ensures OnBoardLists(DiagonalLists(11))
    ensures Selectable(blackOut, whiteOut) ==
            ScanAll(squares, Selectable(blackSelectableCells, whiteSelectableCells), DiagonalLists(11))
  {
    ghost var p0 := Selectable(blackSelectableCells, whiteSelectableCells);
    blackOut, whiteOut := blackSelectableCells, whiteSelectableCells;
    ghost var done: seq<seq<Cell>> := [];
    for offset := -5 to 6
      invariant done == DiagonalLists(offset + 5) && OnBoardLists(done)
      invariant Selectable(blackOut, whiteOut) == ScanAll(squares, p0, done)
    {
      // forward, then backward along the same line
      var candidateCells := DiagonalCells(offset, false);
      DiagonalOnBoard(offset, false);
      ScanAllSnoc(squares, p0, done, candidateCells);
      blackOut, whiteOut := AppendSelectableCells(squares, blackOut, whiteOut, candidateCells);
      done := done + [candidateCells];
      candidateCells := DiagonalCells(offset, true);
      DiagonalOnBoard(offset, true);
      ScanAllSnoc(squares, p0, done, candidateCells);
      blackOut, whiteOut := AppendSelectableCells(squares, blackOut, whiteOut, candidateCells);
      done := done + [candidateCells];
    }
  }

  /** The top-right to bottom-left diagonals, offsets -5 to 5, each downwards then upwards. */
  method ScanAntiDiagonals(squares: Grid, blackSelectableCells: MoveMap, whiteSelectableCells: MoveMap)
    returns (blackOut: MoveMap, whiteOut: MoveMap)
    requires WellFormed(squares)
    ensures OnBoardLists(AntiDiagonalLists(11))
    ensures Selectable(blackOut, whiteOut) ==
            ScanAll(squares, Selectable(blackSelectableCells, whiteSelectableCells), AntiDiagonalLists(11))
  {
    ghost var p0 := Selectable(blackSelectableCells, whiteSelectableCells);
    blackOut, whiteOut := blackSelectableCells, whiteSelectableCells;
    ghost var done: seq<seq<Cell>> := [];
    for offset := -5 to 6
      invariant done == AntiDiagonalLists(offset + 5) && OnBoardLists(done)
      invariant Selectable(blackOut, whiteOut) == ScanAll(squares, p0, done)
    {
      // forward, then backward along the same line
      var candidateCells := AntiDiagonalCells(offset, false);
      AntiDiagonalOnBoard(offset, false);
      ScanAllSnoc(squares, p0, done, candidateCells);
      blackOut, whiteOut := AppendSelectableCells(squares, blackOut, whiteOut, candidateCells);
      done := done + [candidateCells];
      candidateCells := AntiDiagonalCells(offset, true);
      AntiDiagonalOnBoard(offset, true);
      ScanAllSnoc(squares, p0, done, candidateCells);
      blackOut, whiteOut := AppendSelectableCells(squares, blackOut, whiteOut, candidateCells);
      done := done + [candidateCells];
    }
  }

  /*
   * The counting loops of `getSelectableCells` that build one list.
   */

  method RowCells(row: int, backward: bool) returns (candidateCells: seq<Cell>)
    ensures candidateCells == RowLine(row, backward)
  {
    candidateCells := [];
    if !backward {
      for column := 0 to 8
        invariant candidateCells == Ray(0, row, 1, 0, column)
      {
        RaySnoc(0, row, 1, 0, column);
        candidateCells := candidateCells + [Cell(column, row)];
      }
    } else {
      for column := 8 downto 0
        invariant candidateCells == Ray(7, row, -1, 0, 8 - column)
      {
        RaySnoc(7, row, -1, 0, 7 - column);
        candidateCells := candidateCells + [Cell(column, row)];
      }
    }
  }

  method ColumnCells(column: int, backward: bool) returns (candidateCells: seq<Cell>)
    ensures candidateCells == ColumnLine(column, backward)
  {
    candidateCells := [];
    if !backward {
      for row := 0 to 8
        invariant candidateCells == Ray(column, 0, 0, 1, row)
      {
        RaySnoc(column, 0, 0, 1, row);
        candidateCells := candidateCells + [Cell(column, row)];
      }
    } else {
      for row := 8 downto 0
        invariant candidateCells == Ray(column, 7, 0, -1, 8 - row)
      {
        RaySnoc(column, 7, 0, -1, 7 - row);
        candidateCells := candidateCells + [Cell(column, row)];
      }
    }
  }

  method DiagonalCells(offset: int, backward: bool) returns (candidateCells: seq<Cell>)
    requires -5 <= offset <= 5
    ensures candidateCells == DiagonalLine(offset, backward)
  {
    var xStart, yStart := Max(0, offset), Max(0, -offset);
    var n := 8 - Abs(offset);
    candidateCells := [];
    if !backward {
      for step := 0 to n
        invariant candidateCells == Ray(xStart, yStart, 1, 1, step)
      {
        RaySnoc(xStart, yStart, 1, 1, step);
        candidateCells := candidateCells + [Cell(xStart + step, yStart + step)];
      }
    } else {
      for step := n downto 0
        invariant candidateCells == Ray(xStart + (n - 1), yStart + (n - 1), -1, -1, n - step)
      {
        RaySnoc(xStart + (n - 1), yStart + (n - 1), -1, -1, n - 1 - step);
        candidateCells := candidateCells + [Cell(xStart + step, yStart + step)];
      }
    }
  }

  method AntiDiagonalCells(offset: int, backward: bool) returns (candidateCells: seq<Cell>)
    requires -5 <= offset <= 5
    ensures candidateCells == AntiDiagonalLine(offset, backward)
  {
    var xStart, yStart := 7 + Min(0, offset), Max(0, offset);
    var n := 8 - Abs(offset);
    candidateCells := [];
    if !backward {
      for step := 0 to n
        invariant candidateCells == Ray(xStart, yStart, -1, 1, step)
      {
        RaySnoc(xStart, yStart, -1, 1, step);
        candidateCells := candidateCells + [Cell(xStart - step, yStart + step)];
      }
    } else {
      for step := n downto 0
        invariant candidateCells == Ray(xStart - (n - 1), yStart + (n - 1), 1, -1, n - step)
      {
        RaySnoc(xStart - (n - 1), yStart + (n - 1), 1, -1, n - 1 - step);
        candidateCells := candidateCells + [Cell(xStart - step, yStart + step)];
      }
    }
  }
}
