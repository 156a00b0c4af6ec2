/**
 * The legal-move maps of src/index.js: a JavaScript `Map` from the key "x-y"
 * to an entry `{select, targets}`, kept in insertion order.
 */
module MoveMaps {
  import opened Board
  import opened Wrappers

  /** An entry of the legal-move map: the source's `{select, targets}` object. */
  datatype Entry = Entry(select: Cell, targets: seq<Cell>)

  /**
   * The source's `Map` from the key "x-y" to an entry, in insertion order. The
   * key of an entry is its `select` cell ("x-y" names the cell uniquely).
   */
  type MoveMap = seq<Entry>

  /** The key of each entry, in insertion order. */
  function Keys(m: MoveMap): (ks: seq<Cell>)
    ensures |ks| == |m| && forall i :: 0 <= i < |m| ==> ks[i] == m[i].select
  {
    if m == [] then [] else [m[0].select] + Keys(m[1..])
  }

  ghost predicate UniqueKeys(m: MoveMap)
  {
    forall i, j :: 0 <= i < j < |m| ==> m[i].select != m[j].select
  }

  /** The entry stored under the key of `c`, if any. */
  function Get(m: MoveMap, c: Cell): (r: Option<Entry>)
    ensures r.Some? <==> c in Keys(m)
    ensures r.Some? ==> r.value in m && r.value.select == c
  {
    if m == [] then None
    else if m[0].select == c then Some(m[0])
    else Get(m[1..], c)
  }

  /** The targets stored under `c`, or none when `c` is not a key. */
  function TargetsOf(m: MoveMap, c: Cell): seq<Cell>
  {
    match Get(m, c)
    case Some(e) => e.targets
    case None => []
  }

  /**
   * Storing a find: under a key already present the targets are appended to
   * the stored entry's targets; under a new key a new entry goes at the end.
   */
  function Insert(m: MoveMap, select: Cell, targets: seq<Cell>): MoveMap
  {
    if m == [] then [Entry(select, targets)]
    else if m[0].select == select then [m[0].(targets := m[0].targets + targets)] + m[1..]
    else [m[0]] + Insert(m[1..], select, targets)
  }

  /**
   * The `for ... of selectableCells.values()` search of `handleClick`: the
   * entry whose `select` is (x, y), if any.
   */
  method FindSelected(selectableCells: MoveMap, x: int, y: int) returns (selectedCell: Option<Entry>)
    ensures selectedCell == Get(selectableCells, Cell(x, y))
  {
    selectedCell := None;
    for i := 0 to |selectableCells|
      invariant Get(selectableCells, Cell(x, y)) == Get(selectableCells[i..], Cell(x, y))
    {
      assert selectableCells[i..][1..] == selectableCells[i + 1..];
      var selectableCell := selectableCells[i];
      if selectableCell.select.x == x && selectableCell.select.y == y {
        selectedCell := Some(selectableCell);
        return;
      }
    }
  }

  lemma KeysCons(e: Entry, m: MoveMap)
    ensures Keys([e] + m) == [e.select] + Keys(m)
  {
    assert ([e] + m)[1..] == m;
  }

  /**
   * Storing under a key already present keeps the keys and their order; under
   * a new key it adds that key at the end.
   */
  lemma {:induction false} InsertKeys(m: MoveMap, c: Cell, ts: seq<Cell>)
    ensures Keys(Insert(m, c, ts)) == if c in Keys(m) then Keys(m) else Keys(m) + [c]
  {
    if m != [] {
      assert m == [m[0]] + m[1..];
      KeysCons(m[0], m[1..]);
      if m[0].select == c {
        KeysCons(m[0].(targets := m[0].targets + ts), m[1..]);
      } else {
        InsertKeys(m[1..], c, ts);
        KeysCons(m[0], Insert(m[1..], c, ts));
        assert c in Keys(m) <==> c in Keys(m[1..]);
      }
    }
  }

  /**
   * Storing `ts` under `c` appends `ts` to the targets already stored under
   * `c` (none for a new key) and leaves every other key's targets alone.
   */
  lemma {:induction false} InsertTargets(m: MoveMap, c: Cell, ts: seq<Cell>, k: Cell)
    ensures TargetsOf(Insert(m, c, ts), k) == TargetsOf(m, k) + (if k == c then ts else [])
  {
    if m == [] {
    } else if m[0].select == c {
      var r := Insert(m, c, ts);
      assert r[0] == m[0].(targets := m[0].targets + ts) && r[1..] == m[1..];
    } else {
      InsertTargets(m[1..], c, ts, k);
      var r := Insert(m, c, ts);
      assert r[0] == m[0] && r[1..] == Insert(m[1..], c, ts);
    }
  }

  /** The entry stored under the key of the `i`-th entry is that entry, when keys are unique. */
  lemma {:induction false} GetUnique(m: MoveMap, i: nat)
    requires UniqueKeys(m) && i < |m|
    ensures Get(m, m[i].select) == Some(m[i])
  {
    if i > 0 {
      GetUnique(m[1..], i - 1);
    }
  }

  /** Keys stay unique: `set` is only used for a key not yet present. */
  lemma InsertUnique(m: MoveMap, c: Cell, ts: seq<Cell>)
    requires UniqueKeys(m)
    ensures UniqueKeys(Insert(m, c, ts))
  {
    InsertKeys(m, c, ts);
    var r := Insert(m, c, ts);
    forall i, j | 0 <= i < j < |r| ensures r[i].select != r[j].select {
      assert r[i].select == Keys(r)[i] && r[j].select == Keys(r)[j];
      if c !in Keys(m) && j == |m| {
        assert Keys(r)[i] == Keys(m)[i];
      }
    }
  }
}
