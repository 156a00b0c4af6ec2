/**
 * The sandwich scanner `appendSelectableCells` of src/index.js and the maps it
 * fills.
 *
 * The scanner walks one list of cells with four flags. It records an empty cell
 * as a destination when the cells just before it, in scan order, are a run of
 * stones of one colour immediately preceded by a stone of the other colour.
 * The destination goes to the map of the colour that closes the run on the
 * far side (the mover), with the run as its targets.
 *
 * The specification here does not mention the flags: `RunStart` gives the
 * maximal run of equal colours before a position, `Landing` says when an empty
 * cell closes a mover-then-opponents run, and `Finds` lists the landings in
 * scan order.
 */
module Scanner {
  import opened Board
  import opened Wrappers
  import opened MoveMaps

  /** The two maps the scanner fills: black's destinations and white's. */
  datatype Selectable = Selectable(black: MoveMap, white: MoveMap)

  /** One destination found on one list, for black (`black`) or for white. */
  datatype Find = Find(select: Cell, black: bool, targets: seq<Cell>)

  ghost predicate AllOnBoard(l: seq<Cell>)
  {
    forall i :: 0 <= i < |l| ==> OnBoard(l[i])
  }

  /** What the scanner sees at position `i` of list `l`. */
  function ColorAt(g: Grid, l: seq<Cell>, i: nat): Color
    requires WellFormed(g) && AllOnBoard(l) && i < |l|
  {
    ColorOf(At(g, l[i]))
  }

  /**
   * The start of the maximal run of equally coloured cells that ends at
   * position `i - 1`.
   */
  function RunStart(g: Grid, l: seq<Cell>, i: nat): (s: nat)
    requires WellFormed(g) && AllOnBoard(l) && 0 < i <= |l|
    ensures s < i
    ensures forall j :: s <= j < i ==> ColorAt(g, l, j) == ColorAt(g, l, i - 1)
    ensures s == 0 || ColorAt(g, l, s - 1) != ColorAt(g, l, i - 1)
  {
    if i >= 2 && ColorAt(g, l, i - 2) == ColorAt(g, l, i - 1) then RunStart(g, l, i - 1) else i - 1
  }

  /**
   * After the first `i` cells of `l`, a run of opponent stones is open that a
   * stone of the mover (`black` or white) opened.
   */
  predicate OpenRun(g: Grid, l: seq<Cell>, i: nat, black: bool)
    requires WellFormed(g) && AllOnBoard(l) && i <= |l|
  {
    i > 0 && ColorAt(g, l, i - 1) == Opponent(black) &&
    var s := RunStart(g, l, i); s > 0 && ColorAt(g, l, s - 1) == Mover(black)
  }

  /** Position `i` is an empty cell that closes such a run: a destination for the mover. */
  predicate Landing(g: Grid, l: seq<Cell>, i: nat, black: bool)
    requires WellFormed(g) && AllOnBoard(l) && i < |l|
  {
    ColorAt(g, l, i) == Empty && OpenRun(g, l, i, black)
  }

  /** The destination found at position `i`, if any. */
  function FindAt(g: Grid, l: seq<Cell>, i: nat): seq<Find>
    requires WellFormed(g) && AllOnBoard(l) && i < |l|
  {
    if Landing(g, l, i, true) then [Find(l[i], true, l[RunStart(g, l, i)..i])]
    else if Landing(g, l, i, false) then [Find(l[i], false, l[RunStart(g, l, i)..i])]
    else []
  }

  /** The destinations found among the first `n` positions of `l`, in scan order. */
  function Finds(g: Grid, l: seq<Cell>, n: nat): seq<Find>
    requires WellFormed(g) && AllOnBoard(l) && n <= |l|
  {
    if n == 0 then [] else Finds(g, l, n - 1) + FindAt(g, l, n - 1)
  }

  /** Record one find in the map of its mover. */
  function Record(p: Selectable, f: Find): Selectable
  {
    if f.black then p.(black := Insert(p.black, f.select, f.targets))
    else p.(white := Insert(p.white, f.select, f.targets))
  }

  /** Record a sequence of finds, in order. */
  function RecordAll(p: Selectable, fs: seq<Find>): Selectable
  {
    if fs == [] then p else Record(RecordAll(p, fs[..|fs| - 1]), fs[|fs| - 1])
  }

  /** What scanning the list `l` does to the two maps. */
  function ScanLine(g: Grid, p: Selectable, l: seq<Cell>): Selectable
    requires WellFormed(g) && AllOnBoard(l)
  {
    RecordAll(p, Finds(g, l, |l|))
  }

  /**
   * A stone of colour `Mover(b)` at position `i` closes any run of its own
   * opponent's colour, and opens or extends a run for the other side: that run
   * starts afresh when the cell before holds the other colour.
   */
  lemma StepStone(g: Grid, l: seq<Cell>, i: nat, b: bool)
    requires WellFormed(g) && AllOnBoard(l) && i < |l| && ColorAt(g, l, i) == Mover(b)
    ensures !OpenRun(g, l, i + 1, b)
    ensures !OpenRun(g, l, i, b) || (i > 0 && ColorAt(g, l, i - 1) == Opponent(b))
    ensures OpenRun(g, l, i + 1, !b) == ((i > 0 && ColorAt(g, l, i - 1) == Mover(!b)) || OpenRun(g, l, i, !b))
    ensures OpenRun(g, l, i + 1, !b) ==>
      l[RunStart(g, l, i + 1)..i + 1] ==
        (if i > 0 && ColorAt(g, l, i - 1) == Mover(!b) then [] else l[RunStart(g, l, i)..i]) + [l[i]]
    ensures FindAt(g, l, i) == []
  {
    if i > 0 && ColorAt(g, l, i - 1) == ColorAt(g, l, i) {
      assert RunStart(g, l, i + 1) == RunStart(g, l, i);
      assert l[RunStart(g, l, i)..i + 1] == l[RunStart(g, l, i)..i] + [l[i]];
    } else {
      assert RunStart(g, l, i + 1) == i;
    }
  }

  /** An empty cell closes every run: what is open before it decides what is found there. */
  lemma StepEmpty(g: Grid, l: seq<Cell>, i: nat)
    requires WellFormed(g) && AllOnBoard(l) && i < |l| && ColorAt(g, l, i) == Empty
    ensures !OpenRun(g, l, i + 1, true) && !OpenRun(g, l, i + 1, false)
    ensures !(OpenRun(g, l, i, true) && OpenRun(g, l, i, false))
    ensures FindAt(g, l, i) ==
      if OpenRun(g, l, i, true) then [Find(l[i], true, l[RunStart(g, l, i)..i])]
      else if OpenRun(g, l, i, false) then [Find(l[i], false, l[RunStart(g, l, i)..i])]
      else []
  {
  }

  /** Recording one more find extends the fold by one step. */
  lemma RecordAllSnoc(p: Selectable, fs: seq<Find>, more: seq<Find>)
    requires |more| <= 1
    ensures RecordAll(p, fs + more) == if more == [] then RecordAll(p, fs) else Record(RecordAll(p, fs), more[0])
  {
    if more == [] {
      assert fs + more == fs;
    } else {
      assert (fs + more)[..|fs|] == fs;
    }
  }

  /**
   * `appendSelectableCells`: walk `candidateCells` once with the four flags and
   * the pending `targetCells`, recording each destination in the map of its
   * mover.
   */
  method AppendSelectableCells(squares: Grid, blackSelectableCells: MoveMap, whiteSelectableCells: MoveMap,
                               candidateCells: seq<Cell>)
    returns (blackOut: MoveMap, whiteOut: MoveMap)
    requires WellFormed(squares) && AllOnBoard(candidateCells)
    ensures Selectable(blackOut, whiteOut) ==
            ScanLine(squares, Selectable(blackSelectableCells, whiteSelectableCells), candidateCells)
  {
    ghost var g, l, p0 := squares, candidateCells, Selectable(blackSelectableCells, whiteSelectableCells);
    var isBlackFound, isWhiteFound := false, false;
    var isBlackToWhite, isWhiteToBlack := false, false;
    var targetCells: seq<Cell> := [];
    blackOut, whiteOut := blackSelectableCells, whiteSelectableCells;

    for i := 0 to |candidateCells|
      invariant isBlackFound == (i > 0 && ColorAt(g, l, i - 1) == Black)
      invariant isWhiteFound == (i > 0 && ColorAt(g, l, i - 1) == White)
      invariant isBlackToWhite == OpenRun(g, l, i, true)
      invariant isWhiteToBlack == OpenRun(g, l, i, false)
      invariant targetCells == if isBlackToWhite || isWhiteToBlack then l[RunStart(g, l, i)..i] else []
      invariant Selectable(blackOut, whiteOut) == RecordAll(p0, Finds(g, l, i))
    {
      var candidateCell := candidateCells[i];
      var column, row := candidateCell.x, candidateCell.y;
      assert squares[row][column] == At(g, l[i]);
      RecordAllSnoc(p0, Finds(g, l, i), FindAt(g, l, i));

      if squares[row][column].black {
        StepStone(g, l, i, true);
        isBlackFound := true;
        if isWhiteFound {
          isWhiteToBlack := true;
          isWhiteFound := false;
          isBlackToWhite := false;
          targetCells := [];
        }
        if isWhiteToBlack {
          targetCells := targetCells + [Cell(column, row)];
        }
      } else if squares[row][column].white {
        StepStone(g, l, i, false);
        isWhiteFound := true;
        if isBlackFound {
          isBlackToWhite := true;
          isBlackFound := false;
          isWhiteToBlack := false;
          targetCells := [];
        }
        if isBlackToWhite {
          targetCells := targetCells + [Cell(column, row)];
        }
      } else {
        StepEmpty(g, l, i);
        if isBlackToWhite || isWhiteToBlack {
          if isBlackToWhite {
            blackOut := Insert(blackOut, candidateCell, targetCells);
          } else {
            whiteOut := Insert(whiteOut, candidateCell, targetCells);
          }
        }
        isBlackFound := false;
        isWhiteFound := false;
        isBlackToWhite := false;
        isWhiteToBlack := false;
        targetCells := [];
      }
    }
  }

  /*
   * What the scanner finds, stated without its flags.
   */

  /**
   * Position `i` is an empty cell, position `k` holds a mover stone, and every
   * position strictly between them (at least one) holds an opponent stone.
   */
  ghost predicate Sandwich(g: Grid, l: seq<Cell>, k: int, i: int, black: bool)
    requires WellFormed(g) && AllOnBoard(l)
  {
    0 <= k && k + 1 < i < |l| &&
    ColorAt(g, l, k) == Mover(black) &&
    (forall j :: k < j < i ==> ColorAt(g, l, j) == Opponent(black)) &&
    ColorAt(g, l, i) == Empty
  }

  /**
   * The scanner's landings are exactly the sandwiches, and the run it records
   * starts right after the mover stone.
   */
  lemma LandingIsSandwich(g: Grid, l: seq<Cell>, i: nat, black: bool)
    requires WellFormed(g) && AllOnBoard(l) && i < |l|
    ensures Landing(g, l, i, black) ==> Sandwich(g, l, RunStart(g, l, i) - 1, i, black)
    ensures forall k :: Sandwich(g, l, k, i, black) ==> Landing(g, l, i, black) && RunStart(g, l, i) == k + 1
  {
    forall k | Sandwich(g, l, k, i, black)
      ensures Landing(g, l, i, black) && RunStart(g, l, i) == k + 1
    {
      var s := RunStart(g, l, i);
      assert ColorAt(g, l, i - 1) == Opponent(black);
    }
  }

  /** Every find is a sandwich: an empty cell closing a mover-then-opponents run. */
  lemma {:induction false} FindsSound(g: Grid, l: seq<Cell>, n: nat)
    requires WellFormed(g) && AllOnBoard(l) && n <= |l|
    ensures forall f :: f in Finds(g, l, n) ==>
      exists k, i :: i < n && Sandwich(g, l, k, i, f.black) && f.select == l[i] && f.targets == l[k + 1..i]
  {
    if n > 0 {
      FindsSound(g, l, n - 1);
      LandingIsSandwich(g, l, n - 1, true);
      LandingIsSandwich(g, l, n - 1, false);
      forall f | f in FindAt(g, l, n - 1)
        ensures exists k, i :: i < n && Sandwich(g, l, k, i, f.black) && f.select == l[i] && f.targets == l[k + 1..i]
      {
        var k := RunStart(g, l, n - 1) - 1;
        assert Sandwich(g, l, k, n - 1, f.black);
      }
    }
  }

  /** Every sandwich is found, with the opponent run as its targets. */
  lemma {:induction false} FindsComplete(g: Grid, l: seq<Cell>, n: nat)
    requires WellFormed(g) && AllOnBoard(l) && n <= |l|
    ensures forall k, i, b :: i < n && Sandwich(g, l, k, i, b) ==> Find(l[i], b, l[k + 1..i]) in Finds(g, l, n)
  {
    if n > 0 {
      var i := n - 1;
      FindsComplete(g, l, i);
      forall k, b | Sandwich(g, l, k, i, b)
        ensures Find(l[i], b, l[k + 1..i]) in Finds(g, l, n)
      {
        LandingIsSandwich(g, l, i, b);
        LandingIsSandwich(g, l, i, !b);
        assert FindAt(g, l, i) == [Find(l[i], b, l[k + 1..i])];
      }
    }
  }

  /**
   * A destination the mover can play: an empty on-board cell, with at least one
   * target, every target an on-board opponent stone.
   */
  ghost predicate Playable(g: Grid, select: Cell, targets: seq<Cell>, black: bool)
    requires WellFormed(g)
  {
    OnBoard(select) && ColorOf(At(g, select)) == Empty && |targets| > 0 &&
    forall t :: t in targets ==> OnBoard(t) && ColorOf(At(g, t)) == Opponent(black)
  }

  /** Every find can be played by its mover. */
  lemma FindsPlayable(g: Grid, l: seq<Cell>, n: nat)
    requires WellFormed(g) && AllOnBoard(l) && n <= |l|
    ensures forall f :: f in Finds(g, l, n) ==> Playable(g, f.select, f.targets, f.black)
  {
    FindsSound(g, l, n);
    forall f | f in Finds(g, l, n) ensures Playable(g, f.select, f.targets, f.black) {
      var k, i :| i < n && Sandwich(g, l, k, i, f.black) && f.select == l[i] && f.targets == l[k + 1..i];
      SandwichPlayable(g, l, k, i, f.black);
    }
  }

  /** The empty end of a sandwich can be played, turning the opponent stones between. */
  lemma SandwichPlayable(g: Grid, l: seq<Cell>, k: int, i: int, black: bool)
    requires WellFormed(g) && AllOnBoard(l) && Sandwich(g, l, k, i, black)
    ensures Playable(g, l[i], l[k + 1..i], black)
  {
    forall t | t in l[k + 1..i] ensures OnBoard(t) && ColorOf(At(g, t)) == Opponent(black) {
      var m :| 0 <= m < i - (k + 1) && l[k + 1..i][m] == t;
      assert t == l[k + 1 + m];
      assert ColorAt(g, l, k + 1 + m) == Opponent(black);
    }
  }

  /*
   * The two maps after a sequence of finds.
   */

  /** The finds of one mover, in order. */
  function Only(fs: seq<Find>, black: bool): (r: seq<Find>)
    ensures forall f :: f in r <==> f in fs && f.black == black
  {
    if fs == [] then []
    else Only(fs[..|fs| - 1], black) + (if fs[|fs| - 1].black == black then [fs[|fs| - 1]] else [])
  }

  /** Store a sequence of finds in one map, in order. */
  function InsertAll(m: MoveMap, fs: seq<Find>): MoveMap
  {
    if fs == [] then m
    else var f := fs[|fs| - 1]; Insert(InsertAll(m, fs[..|fs| - 1]), f.select, f.targets)
  }

  /** The concatenation, in order, of the targets of the finds whose destination is `c`. */
  function TargetsFor(fs: seq<Find>, c: Cell): seq<Cell>
  {
    if fs == [] then []
    else TargetsFor(fs[..|fs| - 1], c) + (if fs[|fs| - 1].select == c then fs[|fs| - 1].targets else [])
  }

  /** Each map receives exactly the finds of its own mover. */
  lemma {:induction false} RecordAllSplit(p: Selectable, fs: seq<Find>)
    ensures RecordAll(p, fs) == Selectable(InsertAll(p.black, Only(fs, true)), InsertAll(p.white, Only(fs, false)))
  {
    if fs != [] {
      var init, f := fs[..|fs| - 1], fs[|fs| - 1];
      RecordAllSplit(p, init);
      var bs, ws := Only(init, true), Only(init, false);
      if f.black {
        assert Only(fs, true) == bs + [f] && Only(fs, false) == ws;
        InsertAllSnoc(p.black, bs, f);
      } else {
        assert Only(fs, false) == ws + [f] && Only(fs, true) == bs;
        InsertAllSnoc(p.white, ws, f);
      }
    }
  }

  lemma InsertAllSnoc(m: MoveMap, fs: seq<Find>, f: Find)
    ensures InsertAll(m, fs + [f]) == Insert(InsertAll(m, fs), f.select, f.targets)
  {
    assert (fs + [f])[..|fs|] == fs;
  }

  /** Recording two sequences of finds one after the other is recording their concatenation. */
  lemma {:induction false} RecordAllAppend(p: Selectable, fs: seq<Find>, gs: seq<Find>)
    ensures RecordAll(p, fs + gs) == RecordAll(RecordAll(p, fs), gs)
  {
    if gs == [] {
      assert fs + gs == fs;
    } else {
      var init := gs[..|gs| - 1];
      RecordAllAppend(p, fs, init);
      assert (fs + gs)[..|fs + gs| - 1] == fs + init;
    }
  }

  /**
   * A key is present after storing the finds exactly when it was present
   * before or some find has it as destination; keys already present keep
   * their place.
   */
  lemma InsertAllKeys(m: MoveMap, fs: seq<Find>)
    ensures forall c :: c in Keys(InsertAll(m, fs)) <==> c in Keys(m) || exists j :: 0 <= j < |fs| && fs[j].select == c
    ensures Keys(m) <= Keys(InsertAll(m, fs))
  {
    InsertAllPrefix(m, fs);
    InsertAllKeysSound(m, fs);
    InsertAllKeysComplete(m, fs);
  }

  lemma {:induction false} InsertAllPrefix(m: MoveMap, fs: seq<Find>)
    ensures Keys(m) <= Keys(InsertAll(m, fs))
  {
    if fs != [] {
      var init, f := fs[..|fs| - 1], fs[|fs| - 1];
      InsertAllPrefix(m, init);
      InsertKeys(InsertAll(m, init), f.select, f.targets);
    }
  }

  lemma {:induction false} InsertAllKeysSound(m: MoveMap, fs: seq<Find>)
    ensures forall c :: c in Keys(InsertAll(m, fs)) ==> c in Keys(m) || exists j :: 0 <= j < |fs| && fs[j].select == c
  {
    if fs != [] {
      var init, f := fs[..|fs| - 1], fs[|fs| - 1];
      var before := InsertAll(m, init);
      InsertAllKeysSound(m, init);
      InsertKeys(before, f.select, f.targets);
      forall c | c in Keys(InsertAll(m, fs)) && c !in Keys(m)
        ensures exists j :: 0 <= j < |fs| && fs[j].select == c
      {
        if c == f.select {
          assert fs[|fs| - 1].select == c;
        } else {
          assert c in Keys(before);
          var j :| 0 <= j < |init| && init[j].select == c;
          assert fs[j] == init[j];
        }
      }
    }
  }

  lemma {:induction false} InsertAllKeysComplete(m: MoveMap, fs: seq<Find>)
    ensures forall j :: 0 <= j < |fs| ==> fs[j].select in Keys(InsertAll(m, fs))
  {
    if fs != [] {
      var init, f := fs[..|fs| - 1], fs[|fs| - 1];
      var before := InsertAll(m, init);
      InsertAllKeysComplete(m, init);
      InsertKeys(before, f.select, f.targets);
      forall j | 0 <= j < |fs| ensures fs[j].select in Keys(InsertAll(m, fs)) {
        if j < |init| {
          assert init[j] == fs[j];
          assert fs[j].select in Keys(before);
        }
      }
    }
  }

  /**
   * The targets stored under `c` after storing the finds are those stored
   * before followed by the targets of every find for `c`, in order: nothing is
   * replaced.
   */
  lemma {:induction false} InsertAllTargets(m: MoveMap, fs: seq<Find>, c: Cell)
    ensures TargetsOf(InsertAll(m, fs), c) == TargetsOf(m, c) + TargetsFor(fs, c)
  {
    if fs != [] {
      var init, f := fs[..|fs| - 1], fs[|fs| - 1];
      InsertAllTargets(m, init, c);
      InsertTargets(InsertAll(m, init), f.select, f.targets, c);
    }
  }

  lemma {:induction false} InsertAllUnique(m: MoveMap, fs: seq<Find>)
    requires UniqueKeys(m)
    ensures UniqueKeys(InsertAll(m, fs))
  {
    if fs != [] {
      var f := fs[|fs| - 1];
      InsertAllUnique(m, fs[..|fs| - 1]);
      InsertUnique(InsertAll(m, fs[..|fs| - 1]), f.select, f.targets);
    }
  }

  /** Storing a playable find keeps every entry of the map playable. */
  lemma {:induction false} InsertPlayable(g: Grid, m: MoveMap, f: Find, black: bool)
    requires WellFormed(g) && Playable(g, f.select, f.targets, black)
    requires forall e :: e in m ==> Playable(g, e.select, e.targets, black)
    ensures forall e :: e in Insert(m, f.select, f.targets) ==> Playable(g, e.select, e.targets, black)
  {
    if m != [] && m[0].select != f.select {
      InsertPlayable(g, m[1..], f, black);
    }
  }

  lemma {:induction false} InsertAllPlayable(g: Grid, m: MoveMap, fs: seq<Find>, black: bool)
    requires WellFormed(g)
    requires forall f :: f in fs ==> Playable(g, f.select, f.targets, black)
    requires forall e :: e in m ==> Playable(g, e.select, e.targets, black)
    ensures forall e :: e in InsertAll(m, fs) ==> Playable(g, e.select, e.targets, black)
  {
    if fs != [] {
      InsertAllPlayable(g, m, fs[..|fs| - 1], black);
      InsertPlayable(g, InsertAll(m, fs[..|fs| - 1]), fs[|fs| - 1], black);
    }
  }

  lemma {:induction false} TargetsForMembers(fs: seq<Find>, c: Cell)
    ensures forall t :: t in TargetsFor(fs, c) <==> exists f :: f in fs && f.select == c && t in f.targets
  {
    if fs != [] {
      var init, last := fs[..|fs| - 1], fs[|fs| - 1];
      TargetsForMembers(init, c);
      assert fs == init + [last];
    }
  }
}
