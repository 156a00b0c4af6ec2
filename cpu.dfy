/**
 * The computer player of src/index.js: `selectCpuCell`, `selectCpuCellLv1`
 * and `selectCpuCellLv2`. The one `Math.random()` a choice draws is the
 * parameter `r`, a real in [0, 1); `undefined` is `None`.
 */
module Cpu {
  import opened Wrappers
  import opened Board
  import opened MoveMaps
  import opened Rules
  import opened Place

  /** The index a draw `r` in [0, 1) picks among `n` things: `r * n` rounded down. */
  function Pick(r: real, n: nat): (i: int)
    requires 0.0 <= r < 1.0
    ensures n > 0 ==> 0 <= i < n
    ensures n == 0 ==> i == 0
  {
    ScaleBelow(r, n as real);
    (r * n as real).Floor
  }

  /** A fraction in [0, 1) of a non-negative amount stays in [0, that amount). */
  lemma ScaleBelow(r: real, a: real)
    requires 0.0 <= r < 1.0 && 0.0 <= a
    ensures 0.0 <= r * a <= a
    ensures 0.0 < a ==> r * a < a
  {
    assert a - r * a == (1.0 - r) * a;
  }

  /** The four corner keys "0-0", "0-7", "7-0" and "7-7". */
  predicate IsCorner(c: Cell)
  {
    c in {Cell(0, 0), Cell(0, 7), Cell(7, 0), Cell(7, 7)}
  }

  /** The twelve keys next to a corner, which the level-2 player avoids. */
  predicate NextToCorner(c: Cell)
  {
    c in {Cell(0, 1), Cell(1, 0), Cell(1, 1), Cell(0, 6), Cell(1, 6), Cell(1, 7),
          Cell(6, 0), Cell(6, 1), Cell(7, 1), Cell(6, 6), Cell(6, 7), Cell(7, 6)}
  }

  /** The corner keys, in the order of the key list. */
  function CornerKeys(ks: seq<Cell>): (r: seq<Cell>)
    ensures |r| <= |ks|
    ensures forall c :: c in r <==> c in ks && IsCorner(c)
  {
    if ks == [] then []
    else (if IsCorner(ks[0]) then [ks[0]] else []) + CornerKeys(ks[1..])
  }

  /** The keys not next to a corner, in the order of the key list. */
  function CenterKeys(ks: seq<Cell>): (r: seq<Cell>)
    ensures |r| <= |ks|
    ensures forall c :: c in r <==> c in ks && !NextToCorner(c)
  {
    if ks == [] then []
    else (if !NextToCorner(ks[0]) then [ks[0]] else []) + CenterKeys(ks[1..])
  }

  /**
   * `selectCpuCellLv1`: the entry under a key drawn uniformly from the
   * map's keys; an empty map gives `undefined`.
   */
  function SelectLv1(selectableCells: MoveMap, r: real): (selectedCell: Option<Entry>)
    requires 0.0 <= r < 1.0
    ensures selectedCell.Some? <==> |selectableCells| > 0
    ensures selectedCell.Some? ==> Stored(selectableCells, selectedCell.value)
  {
    var keys := Keys(selectableCells);
    var selectedIndex := Pick(r, |selectableCells|);
    // Reading past the end of the key array gives `undefined`, and so does `get(undefined)`.
    if selectedIndex < |keys| then Get(selectableCells, keys[selectedIndex]) else None
  }

  /**
   * `selectCpuCellLv2`: a corner if one is playable; otherwise a cell not
   * next to a corner if one is playable; otherwise the level-1 choice.
   */
  function SelectLv2(selectableCells: MoveMap, r: real): (selectedCell: Option<Entry>)
    requires 0.0 <= r < 1.0
    ensures selectedCell.Some? <==> |selectableCells| > 0
    ensures selectedCell.Some? ==> Stored(selectableCells, selectedCell.value)
    ensures (exists c :: c in Keys(selectableCells) && IsCorner(c)) ==>
      selectedCell.Some? && IsCorner(selectedCell.value.select)
    ensures selectedCell.Some? && NextToCorner(selectedCell.value.select) ==>
      forall c :: c in Keys(selectableCells) ==> NextToCorner(c)
    ensures (forall c :: c in Keys(selectableCells) ==> NextToCorner(c)) ==> selectedCell == SelectLv1(selectableCells, r)
  {
    var keyArray := Keys(selectableCells);
    var cornerKeys := CornerKeys(keyArray);
    if |cornerKeys| > 0 then
      Get(selectableCells, cornerKeys[Pick(r, |cornerKeys|)])
    else
      var centerKeys := CenterKeys(keyArray);
      if |centerKeys| > 0 then
        Get(selectableCells, centerKeys[Pick(r, |centerKeys|)])
      else
        SelectLv1(selectableCells, r)
  }

  /** The choice of the computer of level `cpuLevel` among the entries of `m`. */
  function CpuChoice(cpuLevel: int, m: MoveMap, r: real): (selectedCell: Option<Entry>)
    requires 0.0 <= r < 1.0
    ensures selectedCell.Some? <==> (cpuLevel == 1 || cpuLevel == 2) && |m| > 0
    ensures selectedCell.Some? ==> Stored(m, selectedCell.value)
  {
    if cpuLevel == 1 then SelectLv1(m, r)
    else if cpuLevel == 2 then SelectLv2(m, r)
    else None
  }

  /**
   * `selectCpuCell`: the legal-move map of the side to move, then the choice
   * of the given level; any other level chooses nothing.
   */
  method SelectCpuCell(cpuLevel: int, squares: Grid, blackIsNext: bool, r: real) returns (selectedCell: Option<Entry>)
    requires WellFormed(squares) && 0.0 <= r < 1.0
    // Stated for the map `m` so that a caller that only needs the properties
    // below does not unfold the legal-move map.
    ensures forall m :: m == LegalMoves(squares, blackIsNext) ==> selectedCell == CpuChoice(cpuLevel, m, r)
    ensures selectedCell.Some? <==> (cpuLevel == 1 || cpuLevel == 2) && CanMove(squares, blackIsNext)
    ensures selectedCell.Some? ==> IsMove(squares, selectedCell.value, blackIsNext)
    ensures cpuLevel == 2 && selectedCell.Some? && !IsCorner(selectedCell.value.select) ==>
      forall c :: IsLegal(squares, c, blackIsNext) ==> !IsCorner(c)
    ensures cpuLevel == 2 && selectedCell.Some? && NextToCorner(selectedCell.value.select) ==>
      forall c :: IsLegal(squares, c, blackIsNext) ==> NextToCorner(c)
  {
    selectedCell := None;
    var selectableCells := GetSelectableCells(squares, blackIsNext);
    if cpuLevel == 1 {
      selectedCell := SelectLv1(selectableCells, r);
    } else if cpuLevel == 2 {
      selectedCell := SelectLv2(selectableCells, r);
    }
    CanMoveIff(squares, blackIsNext);
    LegalMovesKeys(squares, blackIsNext);
    if selectedCell.Some? {
      StoredEntry(squares, blackIsNext, selectedCell.value);
    }
  }
}
