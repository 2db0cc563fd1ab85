# Battleship board engine, modelled in Dafny

This project models the board engine of a console Battleship prototype (`main.py`):

- a coordinate `Dot`, compared by value;
- a `Ship` with a start cell, a length, an orientation character and a mutable `lives` counter;
- a `Board` that holds:
  - a `size` x `size` cell matrix, updated in place;
  - a list `busy` of blocked coordinates;
  - the list of placed ships;
  - a counter of sunk ships.

The board places ships cell by cell, blocks the 3x3 contour around them, clears the blocked list, and resolves shots as off-board, already used, wound, kill or miss.

Files and modules:

- `dots.dfy`, module `Dots`:
  - the `Dot` datatype;
  - the board-bounds test `OutBoard`;
  - the neighbourhood offsets `Near`;
  - Chebyshev adjacency `Touches`;
  - duplicate-freedom `Distinct`.
- `ships.dfy`, module `Ships`:
  - the cell list of a ship as a value (`ShipCells`);
  - the class `Ship`, whose method `Coord` builds that list in a loop.
- `board_spec.dfy`, module `BoardSpec`. Value-level definitions that the board's methods are proved against:
  - `Scan` is the cell-by-cell check of `add_ship`;
  - `Ring` and `ContourAdds` give the cells `contour` appends;
  - `FirstHit` is the ship a shot hits.
  - The module also holds the lemmas about these definitions.
- `board.dfy`, module `Boards`. The class `Board`:
  - its field matrix is an `array2<Cell>`;
  - `busy` is a `seq<Dot>` and `ships` a `seq<Ship>`;
  - `count` is an `int`.
  - Its methods update these in place. Every method keeps the object invariant `Valid()`: the matrix has the board's dimensions, `busy` holds on-board cells with none listed twice, and every cell of every placed ship lies on the board (`ShipsOnBoard`).
- `scenario.dfy`, module `Scenario`:
  - the module-level demo of `main.py` (size 8, a vertical ship of length 4 at (2, 3), `board_clear`, then five shots);
  - two client methods: a repeated shot, and placing a ship that touches an earlier one.

The exceptions `BoardOutException`, `BoardUsedException` and `BoardShipException` become the error datatype `BoardError = Out | Used | ShipErr`:

- `add_ship` returns `Outcome = Pass | Fail(error)`;
- `shot` returns `Result<bool> = Ok(answer) | Err(error)`.

The cell strings `"o"`, `"■"`, `"X"` and `"."` become `Cell = Blank | Deck | Hit | Marked`. A miss and a revealed contour cell are both `Marked`, just as both are `"."` in `main.py`.

The model follows the code as written, not the usual rules of the game:

- `add_ship` is not all-or-nothing. Cells accepted before the first bad cell stay `"■"` and stay in `busy`.
- A kill answers `false`, the same as a miss. Only a wound answers `true`.
- Ship lengths and the board size are any integers, as in Python. `range` of a negative number is empty, so a negative size gives an empty field.
- Nothing assumes `board_clear` is called only once. So a ship's `lives` can go below zero: a shot after a second clear can hit a sunk ship again. `shot` then answers `true`, because it only tests `lives == 0`.
- A ship object may sit in `ships` more than once, or on two boards. `shot` changes the `lives` of the one hit object, and the contracts say so per object.

## Model

| member | source | states |
|---|---|---|
| Ships.Ship.constructor | main.py:20-24 | the ship keeps start, length and orientation, and `lives` starts at `length` |
| Ships.Ship.Coord | main.py:26-40 | returns `max(length, 0)` cells. Cell `i` is `(start.x+i, start.y)` for `'v'`, `(start.x, start.y+i)` for `'h'`, and `start` for any other character. The result equals `ShipCells` |
| Ships.CellAt | main.py:29-38 | the `i`-th cell `coord` builds: `start` moved `i` steps in x for `'v'`, `i` steps in y for `'h'`, and `start` itself for any other orientation character |
| Ships.ShipCells | main.py:26-40 | the list `coord` returns: `CellAt(start, orient, i)` for each `i` from 0 to `length - 1`, so no cells at all when `length <= 0` |
| Ships.StraightShipCells | main.py:26-40 | a `'v'` ship covers exactly the column segment of `length` cells from `start`, and an `'h'` ship the row segment (both directions of membership) |
| Ships.StraightShipDistinct | main.py:26-40 | a straight ship lists no cell twice |
| Ships.DegenerateShipCells | main.py:32-38 | with any other orientation character, every listed cell is `start` |
| Dots.OutBoard | main.py:70-71 | `out_board`: the coordinate lies off the board when either component is negative or not below `size` |
| Dots.InBoardIsIndex | main.py:70-71 | `out_board(d)` is false exactly when `d` indexes a cell of the `size` x `size` field |
| Dots.NearIsNeighbourhood | main.py:74-78 | the nine contour offsets are exactly the displacements of Chebyshev length at most 1 |
| BoardSpec.Scan | main.py:59-65 | the verdict of checking the cells in order against a growing `busy`. The first off-board cell gives `Out` and the first blocked cell gives `ShipErr`. Each accepted cell joins `busy` before the next is checked, and `placed` is at most the number of cells |
| BoardSpec.ScanSound | main.py:58-66 | the placement scan accepts a prefix of cells that are on the board, new to `busy` and not repeated. It succeeds exactly when it accepts every cell. Otherwise it stops at the first off-board cell with `Out`, or at the first blocked on-board cell with `ShipErr`, and never yields `Used` |
| BoardSpec.ScanRejects | main.py:59-63 | a placement fails as soon as one cell is off the board or already blocked, and fails with `ShipErr` when every cell is on the board |
| BoardSpec.DegenerateShipRefused | main.py:58-65 | a ship with another orientation character and length >= 2 lists `start` twice. So `add_ship` always refuses it: with `Out` if `start` is off the board, otherwise with `ShipErr` after marking at most one cell (none when `start` is already blocked) |
| BoardSpec.Ring | main.py:80-85 | the cells the inner contour loop appends around one ship cell. In offset order, each on-board neighbour not yet in `busy` is added, and it joins `busy` before the next offset is tried |
| BoardSpec.RingSound | main.py:80-85 | the cells added around one ship cell are on the board, new to `busy`, at one of the offsets, and none is added twice |
| BoardSpec.RingComplete | main.py:80-85 | every on-board cell at one of the offsets is in `busy` after that cell's ring |
| BoardSpec.ContourAdds | main.py:79-85 | the cells `contour` appends: the ring of each ship cell in order, each ring taken against `busy` as the earlier rings left it |
| BoardSpec.ContourSound | main.py:79-85 | the cells the contour adds are on the board, new to `busy`, each next to some ship cell, and none is added twice |
| BoardSpec.ContourComplete | main.py:79-85 | after the contour, every on-board cell next to some ship cell is in `busy` |
| BoardSpec.ContourExact | main.py:73-85 | the contour adds exactly the on-board cells next to the ship that were not yet in `busy` |
| BoardSpec.PlacementZone | main.py:58-68 | a successful placement adds to `busy` exactly the on-board cells within Chebyshev distance 1 of the ship that were not blocked before, each once |
| BoardSpec.TouchingPlacementFails | main.py:58-85 | while a placed ship and its contour are still blocked, a ship with a cell touching it (even diagonally) is refused |
| BoardSpec.ShipsOnBoard | main.py:59-68 | every cell of every ship in the list is on the board. `add_ship` appends a ship only after each of its cells has passed `out_board`, so this is part of `Board.Valid()`, which every `Board` method keeps |
| BoardSpec.FirstHit | main.py:96-97 | gives the index of the first ship whose cells contain the shot, or the number of ships when none does |
| Boards.Glyph | main.py:45-112 | the four cell states map one-to-one onto the symbols `o` (line 45), `■` (line 64), `X` (line 101) and `.` (lines 84 and 112). No other member uses it: it documents how `Cell` stands for the strings `main.py` writes into the field |
| Boards.Board.constructor | main.py:43-48 | a fresh board has the given size, an all-`"o"` field of `max(size, 0)` squared cells, empty `busy` and `ships`, and `count` 0 |
| Boards.Board.AddShip | main.py:58-68 | on the first bad cell: `Fail(Out)` or `Fail(ShipErr)`. The cells before it stay `"■"` and in `busy`, and `ships` is unchanged. On success: `Pass`, all cells `"■"`, `busy` gains the cells and then their contour, and the ship is appended last. No other cell changes and `count` is kept |
| Boards.Board.Place | main.py:59-65 | the placement loop returns exactly the verdict of `Scan` on the old `busy`. `busy` gains the accepted prefix of cells, those cells and no others become `"■"`, and `ships` and `count` are kept |
| Boards.Board.Mark | main.py:64-65 | an accepted cell becomes `"■"` and is appended to `busy` |
| Boards.Board.Contour | main.py:73-85 | `busy` gains exactly `ContourAdds` of the ship. When `show` holds, those cells and no others are painted `"."` |
| Boards.Board.Surround | main.py:80-85 | the nine neighbours of one cell are visited in order. `busy` gains exactly that cell's ring |
| Boards.Board.Visit | main.py:81-85 | an on-board neighbour not in `busy` is appended, and painted only when `show` holds. Anything else changes nothing |
| Boards.Board.BoardClear | main.py:86-87 | `busy` becomes empty. The field, `ships`, `count` and every ship's `lives` are unchanged |
| Boards.Board.Shot | main.py:88-114 | off-board gives `Err(Out)` and an already blocked cell gives `Err(Used)`, both with no change. Otherwise the shot is appended to `busy`. Only the first ship containing it loses one life, and that cell becomes `"X"`. If that ship reaches 0 lives, `count` grows by 1, the unblocked contour is blocked and painted `"."`, and the answer is `false`; otherwise the answer is `true`. A shot hitting no ship paints `"."`, answers `false` and changes no `lives` or `count` |
| Scenario.DemoShipCells | main.py:123 | the demo ship covers (2,3), (3,3), (4,3), (5,3) |
| Scenario.DemoShipFits | main.py:126 | on the empty 8 x 8 board every demo ship cell is accepted |
| Scenario.DemoSetup | main.py:122-128 | after the placement and `board_clear`, the ship cells read `"■"`, `busy` is empty, the ship has 4 lives, and (2, 2) is still `"o"` |
| Scenario.ShotMisses | main.py:112-114 | on a one-ship board, a fresh cell outside the ship is a miss painted `"."` |
| Scenario.ShotWounds | main.py:99-110 | on a one-ship board, a fresh ship cell with lives to spare is a wound that costs one life |
| Scenario.ShotKills | main.py:99-106 | on a one-ship board, a fresh ship cell with one life left is a kill. It is counted and answers `false`, and the revealed contour reads `"."` |
| Scenario.DemoWounds | main.py:129-136 | the demo's miss at (2,2) and wounds at (2,3), (3,3), (4,3) answer false, true, true, true, and leave lives 3, 2, 1 |
| Scenario.DemoKillReveals | main.py:137 | the kill at (5,3) reveals (6,4) |
| Scenario.DemoKill | main.py:137 | the demo's shot at (5,3) kills the ship: it answers `false`, `count` becomes 1, and the contour cell (6,4) reads `"."` |
| Scenario.Demo | main.py:122-137 | the whole demo: answers false, true, true, true, false; lives 3, 2, 1, 0; one ship sunk |
| Scenario.ShootTwice | main.py:88-95 | a second shot at the same on-board cell, with no `board_clear` in between, gives `Err(Used)` |
| Scenario.PlaceTouching | main.py:58-85 | once a ship has been placed, a second ship touching it (even diagonally) is refused |

## Left out

- `Board.__str__` (main.py:50-56) is console rendering only.
- The `print` calls inside `shot` (main.py:105, 108-109, 113) are output only. The model keeps the answer and the state changes.
- The localised messages of the exception classes (main.py:4-11) are text only. The three classes become the constructors of `BoardError`.
- `Player` (main.py:116-118) is an empty stub with no behaviour.
- Only `main.py` is modelled; the rest of the game is not part of this model. That covers the turn loop, the human and random opponents, fleet auto-placement with its retry budget, and the random draws.
- `Dot.__eq__` has no member of its own: Dafny's structural equality on the `Dot` datatype is that comparison. Python's `in` on lists of `Dot`s becomes sequence membership.
- Mutable Python attributes are fixed values in the model. `Dot` is a datatype, so `busy` holds coordinate values and not the caller's own `Dot` objects, which `main.py:95` appends. `Ship.start`, `length` and `orient` are `const`, while `coord()` re-reads them on every call. `main.py` never changes any of them after construction, so nothing is lost.
- `Board.out_board` is the module-level predicate `Dots.OutBoard(d, size)`, because the board's size never changes once it is built.
