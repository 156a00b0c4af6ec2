# Reversi rules engine, modelled in Dafny

This project models the rules engine inside the React Reversi (Othello) game
of `src/index.js`. The React rendering is not modelled. The model covers:

- **Board.** An 8x8 grid of `[isBlack, isWhite]` squares, indexed `squares[y][x]`. `createSquares` builds the starting position and `copy2dArray` copies a board.
- **Lines.** The 76 coordinate lists that `getSelectableCells` hands to the scanner, in the order it hands them over:
  - each row, both ways;
  - each column, both ways;
  - the eleven diagonals of length three or more in each diagonal family, both ways.
- **Scanner.** `appendSelectableCells`, the sandwich scanner with four flags and a pending target list. It fills black's and white's insertion-ordered `Map` from the key `"x-y"` to `{select, targets}`.
- **Legal moves.** `getSelectableCells` itself, proved to agree with a board-level rule that mentions no lists: its keys are exactly the legal cells, and the targets under each key are exactly the stones that move turns. The rule fixes neither the order of the keys nor how often a target is listed. `IsLegal` says a cell is an empty destination with a flank in some direction. `Flips` says which stones the move turns.
- **Moving.** `putStone`:
  - it writes the stones in place on the copied board;
  - it decides the turn (opponent, pass, or game over);
  - it appends the board to the history.
- **Input.** `handleClick` and its four guards; `putCpuStone`.
- **Computer player.** The level-1 and level-2 choices.
- **Result.** The stone count and the winner of `render`.

The modules follow the program's structure:

| file | module | models |
|---|---|---|
| `wrappers.dfy` | `Wrappers` | `Option`, standing for `undefined` |
| `board.dfy` | `Board` | squares, cells, `createSquares`, `copy2dArray` |
| `count.dfy` | `Counting` | the counting loop and the winner of `render` |
| `movemap.dfy` | `MoveMaps` | the legal-move `Map` as an insertion-ordered sequence of entries; `Insert` is the store of `appendSelectableCells` (append the targets under a present key, else add a new entry) |
| `lines.dfy` | `Lines` | the 76 lists and their geometry |
| `scanner.dfy` | `Scanner` | `appendSelectableCells` and a flag-free specification of what it finds |
| `legal.dfy` | `Rules` | `getSelectableCells`, and its equivalence with the board-level rule |
| `place.dfy` | `Place` | the board writes of `putStone`, and what a move does to the board |
| `cpu.dfy` | `Cpu` | `selectCpuCell`, `selectCpuCellLv1` and `selectCpuCellLv2` |
| `game.dfy` | `Reversi` | the `Game` component's state and the methods that change it |

The component's `this.state` is the datatype `GameState`. The class `Game`
holds it in one field, `state`, and each `setState` replaces it.

**Randomness.** Each `Math.random()` is a parameter `r`, a real in [0, 1).
The index the source computes from it, `Math.floor(r * n)`, is computed
with real multiplication; the index stays below `n` either way.

**The map.** A JavaScript `Map` is a sequence of entries in insertion order.
The key `"x-y"` names a cell uniquely on the board, so the key of an entry is
its `select` cell.

Three facts about the code shape the model:

- **76 lists.** The code scans 16 row lists, 16 column lists and 22 lists in each diagonal family. Diagonals shorter than three cells are never scanned.
- **Targets are concatenated.** When several lists find the same destination, each list's targets are appended to the entry stored first, and `select` is never replaced.
- **A computer level other than 1 or 2 chooses `undefined`.** `putStone` then fails at its first line, before it changes any state. `Game.PutCpuStone` leaves the state unchanged in that case.

## Model

| member | source | states |
|---|---|---|
| Board.ColorOf | src/index.js:513-535 | a square reads as empty exactly when neither flag is set, and as black whenever the black flag is set (black is tested first) |
| Board.CreateSquares | src/index.js:109-120 | the board is the starting position: white on (3,3) and (4,4), black on (4,3) and (3,4), every other square empty; no square carries both flags |
| Board.CopySquares | src/index.js:407-413 | a fresh 8x8 array holding exactly the squares of the given board |
| Counting.CountStones | src/index.js:297-307 | the loop's counts are the numbers of black and white squares on the board, and with the empty squares they make 64 |
| Counting.StonesPlusEmpty | src/index.js:297-307 | every square is counted as exactly one of empty, black and white |
| Counting.Winner | src/index.js:318-325 | black wins exactly when it has more stones, white wins exactly when it has more, and a draw is exactly equal counts |
| Counting.InitialCounts | src/index.js:109-120 | the starting position holds two black stones, two white stones and 60 empty squares |
| MoveMaps.Keys | src/index.js:180 | `Array.from(map.keys())` lists the key of each entry, in insertion order |
| MoveMaps.Get | src/index.js:180 | `map.get(c)` finds an entry exactly when `c` is a key, and that entry is in the map under `c` |
| MoveMaps.FindSelected | src/index.js:140-147 | the search of `handleClick` over `values()` returns exactly the entry stored under (x, y), or nothing |
| MoveMaps.InsertKeys | src/index.js:544-548 | storing under a present key keeps the keys and their order; storing under a new key appends that key |
| MoveMaps.InsertTargets | src/index.js:544-548 | storing appends the new targets to those already under the key and changes no other key's targets |
| MoveMaps.InsertUnique | src/index.js:544-548 | keys stay unique, since `set` is used only for an absent key |
| Scanner.RunStart | src/index.js:509-535 | the start of the maximal run of equal colours before a position in scan order |
| Scanner.AppendSelectableCells | src/index.js:502-557 | the four-flag loop records in each map exactly the destinations of the flag-free specification, in scan order, each with its pending targets |
| Scanner.LandingIsSandwich | src/index.js:509-556 | the scanner records a cell exactly when it is empty and the cells before it are a mover stone followed by one or more opponent stones; the recorded run starts right after that mover stone |
| Scanner.FindsSound | src/index.js:509-556 | every destination found on a list is such a sandwich, and its targets are exactly the opponent run before it |
| Scanner.FindsComplete | src/index.js:509-556 | every sandwich on a list is found, with the opponent run as its targets |
| Scanner.FindsPlayable | src/index.js:509-556 | every find is an empty on-board cell with a non-empty target list of on-board opponent stones |
| Scanner.RecordAllSplit | src/index.js:539-543 | black's map receives exactly the finds of black and white's map exactly the finds of white |
| Scanner.InsertAllKeys | src/index.js:544-548 | after storing a sequence of finds, the keys are the earlier keys plus every find's destination, and earlier keys keep their place |
| Scanner.InsertAllTargets | src/index.js:544-547 | the targets under a key are the earlier ones followed by the targets of every find for that key, in order; nothing is replaced |
| Scanner.InsertAllUnique | src/index.js:544-548 | storing finds keeps keys unique |
| Scanner.InsertAllPlayable | src/index.js:544-548 | storing playable finds keeps every entry of a map playable |
| Lines.AllLines | src/index.js:421-493 | 76 lists are scanned |
| Lines.RowShape | src/index.js:422-436 | each row list has 8 on-board cells, walks one step left or right, and spans the board |
| Lines.ColumnShape | src/index.js:439-453 | each column list has 8 on-board cells, walks one step up or down, and spans the board |
| Lines.DiagonalShape | src/index.js:456-473 | each top-left to bottom-right list has 3 to 8 on-board cells, walks one diagonal step, and spans the board |
| Lines.AntiDiagonalShape | src/index.js:476-493 | each top-right to bottom-left list has 3 to 8 on-board cells, walks one diagonal step, and spans the board |
| Lines.AllLinesShape | src/index.js:421-493 | every scanned list stays on the board, walks in one of the eight directions, has at least three cells, and spans the board edge to edge |
| Lines.LineThrough | src/index.js:421-493 | for each direction and each cell with room for a sandwich behind it, some scanned list walks in that direction through the cell |
| Rules.RowCells | src/index.js:424-434 | the counting loops build row `row` left to right or right to left |
| Rules.ColumnCells | src/index.js:441-451 | the counting loops build column `column` top to bottom or bottom to top |
| Rules.DiagonalCells | src/index.js:457-471 | the counting loops build the top-left to bottom-right diagonal of `offset`, downwards or upwards |
| Rules.AntiDiagonalCells | src/index.js:477-491 | the counting loops build the top-right to bottom-left diagonal of `offset`, downwards or upwards |
| Rules.ScanRows | src/index.js:422-436 | the row loop leaves the maps as scanning the 16 row lists in order |
| Rules.ScanColumns | src/index.js:439-453 | the column loop leaves the maps as scanning the 16 column lists in order |
| Rules.ScanDiagonals | src/index.js:456-473 | the loop over offsets -5..5 leaves the maps as scanning the 22 diagonal lists in order |
| Rules.ScanAntiDiagonals | src/index.js:476-493 | the loop over offsets -5..5 leaves the maps as scanning the 22 anti-diagonal lists in order |
| Rules.ScanAllLines | src/index.js:421-493 | scanning the four families one after the other is scanning all 76 lists in order |
| Rules.GetSelectableCells | src/index.js:415-500 | the result is the map of the side to move after scanning every list into the same two maps |
| Rules.LegalMovesFinds | src/index.js:415-500 | the map of a side is the finds of that side over every list, stored in order |
| Rules.SandwichIsFlank | src/index.js:509-556 | a sandwich on a straight list is a flank from its empty cell, and the recorded run is that flank's stones |
| Rules.FlankLine | src/index.js:421-500 | every flank lies along one of the 76 scanned lists, which walks towards the flank's empty cell |
| Rules.FlanksSandwich | src/index.js:503-556 | every flank from an empty cell is a sandwich on a list that walks towards that cell across the board |
| Rules.LegalMovesKeys | src/index.js:415-557 | the keys of a side's map are exactly the empty cells from which, in some direction, opponent stones run up to a mover stone |
| Rules.CanMoveIff | src/index.js:235-241 | a side's map is non-empty exactly when that side has a legal move |
| Rules.LegalMovesTargets | src/index.js:415-557 | the targets under a key are exactly the stones that playing it turns, in every direction |
| Rules.LegalMovesUnique | src/index.js:544-548 | no key occurs twice in a map |
| Place.Placed | src/index.js:218-230 | after the writes, a target holds the mover's stone alone, the destination gains the mover's flag, and every other square is unchanged |
| Place.PlaceStones | src/index.js:214-230 | the in-place writes leave the array holding exactly `Placed` of the board before |
| Place.FlipIsOpponent | src/index.js:220-229 | every stone a legal move turns is an on-board opponent stone other than the destination |
| Place.LegalFlipsSome | src/index.js:526-535 | every legal destination turns at least one stone |
| Place.StoredEntry | src/index.js:415-557 | every entry of a map is a move under the rules, and its targets are on-board opponent stones |
| Place.EntryAt | src/index.js:140-150 | the map has an entry under a cell exactly when the cell is a legal destination, and that entry is a move |
| Place.MoveOnBoard | src/index.js:219-228 | every square a move writes is on the board |
| Place.MoveIsPlay | src/index.js:214-230 | writing a move's squares gives the rules' board: the destination and every turned stone take the mover's stone, and nothing else changes |
| Place.PlayKeepsNoDoubleStones | src/index.js:214-230 | after a move no square carries both flags |
| Place.PlayCounts | src/index.js:214-230 | a legal move adds exactly one stone to the board; the mover's count grows and the opponent's falls |
| Cpu.Pick | src/index.js:179 | `Math.floor(Math.random() * n)` is an index below `n` when `n > 0`, and 0 otherwise |
| Cpu.CornerKeys | src/index.js:185-190 | the filter keeps exactly the keys that are corners |
| Cpu.CenterKeys | src/index.js:197-204 | the filter keeps exactly the keys that are not next to a corner |
| Cpu.SelectLv1 | src/index.js:178-181 | the level-1 choice exists exactly when the map is non-empty, and it is an entry of the map under its own key |
| Cpu.SelectLv2 | src/index.js:183-212 | the level-2 choice is an entry of the map whenever the map is non-empty; it is a corner when a corner key exists; it is next to a corner only when every key is; when every key is next to a corner, it is the level-1 choice |
| Cpu.CpuChoice | src/index.js:165-176 | a level other than 1 or 2 chooses nothing; levels 1 and 2 choose an entry of a non-empty map |
| Cpu.SelectCpuCell | src/index.js:165-176 | the result is the level's choice among the entries of the legal-move map, in its key order; the choice exists exactly when the level is 1 or 2 and the side can move; it is then a move under the rules; at level 2 it is a corner whenever a corner is legal, and next to a corner only when every legal move is |
| Reversi.NextTurn | src/index.js:232-248 | the opponent moves next if it can; otherwise the mover moves again if it can, and the opponent is reported as passing; otherwise nobody moves and play stops |
| Reversi.ClickedEntry | src/index.js:140-150 | the clicked cell's entry exists exactly when the cell is a legal destination of the side to move, and it is that cell's move under the rules |
| Reversi.OpeningMoves | src/index.js:109-120 | black's moves 2-3, 3-2, 4-5 and 5-4 are legal on the starting board |
| Reversi.OpeningLegal | src/index.js:109-120 | on the starting board black can play those four cells and no other |
| Reversi.OpeningFlips | src/index.js:109-120 | each opening move turns exactly the white stone next to it |
| Reversi.OpeningMap | src/index.js:109-120 | black's map on the starting board has exactly the keys 2-3, 3-2, 4-5 and 5-4; the targets of 2-3 and 3-2 are exactly (3,3), and those of 4-5 and 5-4 exactly (4,4) |
| Reversi.FreshIsValid | src/index.js:91-106 | a fresh game on the starting board, black to move, satisfies the game invariant |
| Reversi.AfterMoveValid | src/index.js:250-258 | appending a sound board and handing on the turn keeps the invariant: the current board is the last one, and whoever is to move while play is on can move; one board is added |
| Reversi.Game.constructor | src/index.js:89-107 | the state is a fresh game on the starting board that is not in play: two-player, level 2, the computer's colour decided by `r > 0.5` |
| Reversi.Game.StartSingle | src/index.js:261-276 | the state is a fresh single-player game in play at the given level; the computer plays black when `r > 0.5` |
| Reversi.Game.StartMulti | src/index.js:278-291 | the state is a fresh two-player game in play |
| Reversi.Game.PutStone | src/index.js:214-259 | the copied board becomes the board the rules give for the move; that board is appended after the current one and the turn is handed on; the invariant is kept |
| Reversi.Game.HandleClick | src/index.js:122-153 | the state is unchanged unless play is on, it is not the computer's turn, and the cell is a legal destination; otherwise exactly that move is played |
| Reversi.Game.PutCpuStone | src/index.js:155-163 | at levels 1 and 2 a move under the rules is played and appended to the history, with the level-2 corner preferences; at any other level the state is unchanged |
| Reversi.Game.Status | src/index.js:293-325 | the counts are those of the current board, and a winner is given exactly when nobody is to move |

## Left out

- Rendering is not modelled: the `Square`, `Row` and `Board` components, the JSX, `propTypes`, `ReactDOM.render` and the status and count messages. Only the numbers and the outcome behind them are kept.
- `componentDidUpdate` is not modelled: its pass popup, its DOM class changes and its timer that schedules the computer's move are all left out. `Game.PutCpuStone` requires the condition under which that timer is set: single-player mode and the computer's turn.
- `setState` is a plain assignment of the listed fields; React's batching and asynchronous merging are left out.
- `Math.random()` is a parameter in [0, 1), not a source of randomness.
- Sharing of squares between history boards is not modelled. `copy2dArray` copies only the row arrays and `createSquares` is the only code that makes `[isBlack, isWhite]` pairs, so within one game every earlier history board shares the same 64 pairs, and each move's writes change them all. The model keeps every history board as a value. It therefore does not show the earlier boards changing. Only the current board is ever read, so no modelled behaviour depends on this.
- Reversi.Game.PutCpuStone: states that the move played is a move under the rules with the level-2 preferences, not which legal move the draw `r` picks. `Cpu.SelectCpuCell`, whose result it plays, states that choice.
- Reversi.OpeningMap: states which stones each opening entry turns through membership. It does not state that each target list has length one, because that needs showing that each opening cell is found on exactly one of the 76 lists, a proof over the order and contents of every list that costs far more than the membership argument.
- The "undo to an earlier step" that `stepNumber` would allow is not modelled: no code in the source moves `stepNumber` back, and the invariant keeps it at the last board.
