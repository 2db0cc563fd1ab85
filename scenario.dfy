/** The module-level demo of `main.py` and two client-side consequences of the
    board's contracts. */
module Scenario {
  import opened Dots
  import opened Ships
  import opened BoardSpec
  import opened Boards

  /** The four cells of the demo ship: length 4, vertical, starting at (2, 3). */
  lemma DemoShipCells()
    ensures ShipCells(Dot(2, 3), 4, 'v') == [Dot(2, 3), Dot(3, 3), Dot(4, 3), Dot(5, 3)]
  {
  }

  /** On an empty 8 x 8 board every cell of the demo ship is accepted. */
  lemma DemoShipFits()
    ensures Scan([Dot(2, 3), Dot(3, 3), Dot(4, 3), Dot(5, 3)], [], 8) == Verdict(4, None)
  {
    var a, b, c, d := Dot(2, 3), Dot(3, 3), Dot(4, 3), Dot(5, 3);
    assert [a, b, c, d][1..] == [b, c, d] && [b, c, d][1..] == [c, d] && [c, d][1..] == [d];
    assert [] + [a] == [a] && [a] + [b] == [a, b] && [a, b] + [c] == [a, b, c];
    assert Scan([d], [a, b, c], 8) == Verdict(1, None) by {
      assert [d][1..] == [];
    }
    assert Scan([c, d], [a, b], 8) == Verdict(2, None);
    assert Scan([b, c, d], [a], 8) == Verdict(3, None);
  }

  /** The kill at (5, 3) reveals (6, 4), a neighbour of (5, 3) not shot at before. */
  lemma DemoKillReveals()
    ensures Dot(6, 4) in ContourAdds([Dot(2, 3), Dot(3, 3), Dot(4, 3), Dot(5, 3)],
                                     [Dot(2, 2), Dot(2, 3), Dot(3, 3), Dot(4, 3), Dot(5, 3)], 8)
  {
    var cells := [Dot(2, 3), Dot(3, 3), Dot(4, 3), Dot(5, 3)];
    ContourExact(cells, [Dot(2, 2), Dot(2, 3), Dot(3, 3), Dot(4, 3), Dot(5, 3)], 8, Dot(6, 4));
    assert Touches(Dot(6, 4), cells[3]);
  }

  /** `b = Board(8)`, the length-4 vertical ship at (2, 3) added, then
      `board_clear`: the ship's cells read `"■"`, nothing is blocked. */
  method DemoSetup() returns (b: Board, ship: Ship, placed: Outcome)
    ensures fresh(b) && fresh(b.field) && fresh(ship) && b.Valid()
    ensures placed == Pass && b.size == 8
    ensures b.ships == [ship] && b.busy == [] && b.count == 0
    ensures ship.lives == 4 && ship.Cells() == [Dot(2, 3), Dot(3, 3), Dot(4, 3), Dot(5, 3)]
    ensures forall c :: c in ship.Cells() ==> b.field[c.x, c.y] == Deck
    ensures b.field[2, 2] == Blank
  {
    b := new Board(8);
    ship := new Ship(Dot(2, 3), 4, 'v');
    DemoShipCells();
    var cells := ship.Cells();
    DemoShipFits();
    placed := b.AddShip(ship);
    assert cells[..4] == cells;
    b.BoardClear();
  }

  /** A shot at a fresh on-board cell of a board holding one ship, where the
      ship does not cover the cell: a miss, painted `"."`. */
  method ShotMisses(b: Board, ship: Ship, d: Dot) returns (r: Result<bool>)
    requires b.Valid() && b.ships == [ship]
    requires !OutBoard(d, b.size) && d !in b.busy && d !in ship.Cells()
    modifies b, b.field, ship
    ensures b.Valid() && b.ships == [ship]
    ensures r == Ok(false) && b.field[d.x, d.y] == Marked
    ensures b.busy == old(b.busy) + [d] && b.count == old(b.count) && ship.lives == old(ship.lives)
  {
    r := b.Shot(d);
  }

  /** A shot at a fresh cell of the only ship, which has lives to spare: a wound. */
  method ShotWounds(b: Board, ship: Ship, d: Dot) returns (r: Result<bool>)
    requires b.Valid() && b.ships == [ship]
    requires !OutBoard(d, b.size) && d !in b.busy && d in ship.Cells() && ship.lives != 1
    modifies b, b.field, ship
    ensures b.Valid() && b.ships == [ship]
    ensures r == Ok(true) && b.field[d.x, d.y] == Hit
    ensures b.busy == old(b.busy) + [d] && b.count == old(b.count) && ship.lives == old(ship.lives) - 1
  {
    r := b.Shot(d);
  }

  /** A shot at a fresh cell of the only ship, which has one life left: a kill,
      counted, answered `false`, with the contour around the ship revealed. */
  method ShotKills(b: Board, ship: Ship, d: Dot) returns (r: Result<bool>)
    requires b.Valid() && b.ships == [ship]
    requires !OutBoard(d, b.size) && d !in b.busy && d in ship.Cells() && ship.lives == 1
    modifies b, b.field, ship
    ensures b.Valid() && b.ships == [ship]
    ensures r == Ok(false) && b.field[d.x, d.y] == Hit
    ensures b.count == old(b.count) + 1 && ship.lives == 0
    ensures forall e :: (e in ContourAdds(ship.Cells(), old(b.busy) + [d], b.size) &&
      0 <= e.x < b.field.Length0 && 0 <= e.y < b.field.Length1) ==> b.field[e.x, e.y] == Marked
  {
    r := b.Shot(d);
    ContourSound(ship.Cells(), old(b.busy) + [d], b.size);
  }

  /** The first four shots of the demo, on the board `DemoSetup` leaves: the
      miss at (2, 2) and the wounds at (2, 3), (3, 3) and (4, 3). */
  method DemoWounds(b: Board, ship: Ship) returns (answers: seq<Result<bool>>, lives: seq<int>, missCell: Cell)
    requires b.Valid() && b.size == 8 && b.ships == [ship] && b.busy == [] && b.count == 0
    requires ship.lives == 4 && ship.Cells() == [Dot(2, 3), Dot(3, 3), Dot(4, 3), Dot(5, 3)]
    modifies b, b.field, ship
    ensures b.Valid() && b.ships == [ship] && b.count == 0 && ship.lives == 1
    ensures b.busy == [Dot(2, 2), Dot(2, 3), Dot(3, 3), Dot(4, 3)]
    ensures answers == [Ok(false), Ok(true), Ok(true), Ok(true)] && lives == [3, 2, 1]
    ensures missCell == Marked
  {
    var r0 := ShotMisses(b, ship, Dot(2, 2));
    missCell := b.field[2, 2];
    var r1 := ShotWounds(b, ship, Dot(2, 3));
    var l1 := ship.lives;
    var r2 := ShotWounds(b, ship, Dot(3, 3));
    var l2 := ship.lives;
    var r3 := ShotWounds(b, ship, Dot(4, 3));
    var l3 := ship.lives;
    answers := [r0, r1, r2, r3];
    lives := [l1, l2, l3];
  }

  /** The last shot of the demo, at (5, 3) after the four of `DemoWounds`: the
      kill, which the contour reveals around, e.g. at (6, 4). */
  method DemoKill(b: Board, ship: Ship) returns (answer: Result<bool>, killCell: Cell, contourCell: Cell)
    requires b.Valid() && b.size == 8 && b.ships == [ship] && b.count == 0 && ship.lives == 1
    requires b.busy == [Dot(2, 2), Dot(2, 3), Dot(3, 3), Dot(4, 3)]
    requires ship.Cells() == [Dot(2, 3), Dot(3, 3), Dot(4, 3), Dot(5, 3)]
    modifies b, b.field, ship
    ensures answer == Ok(false) && b.count == 1 && ship.lives == 0
    ensures killCell == Hit && contourCell == Marked
  {
    DemoKillReveals();
    assert b.busy + [Dot(5, 3)] == [Dot(2, 2), Dot(2, 3), Dot(3, 3), Dot(4, 3), Dot(5, 3)];
    answer := ShotKills(b, ship, Dot(5, 3));
    killCell, contourCell := b.field[5, 3], b.field[6, 4];
  }

  /** The demo: an 8 x 8 board, the ship placed and `busy` cleared, then a miss
      at (2, 2), wounds at (2, 3), (3, 3), (4, 3) and the killing shot at (5, 3).
      Only the wounds answer `true`; lives run 3, 2, 1, 0, one ship is sunk,
      and the kill paints the contour cell (6, 4) `"."`. */
  method Demo() returns (placed: Outcome, answers: seq<Result<bool>>, lives: seq<int>, sunk: int,
                         missCell: Cell, killCell: Cell, contourCell: Cell)
    ensures placed == Pass
    ensures answers == [Ok(false), Ok(true), Ok(true), Ok(true), Ok(false)]
    ensures lives == [3, 2, 1, 0]
    ensures sunk == 1
    ensures missCell == Marked && killCell == Hit && contourCell == Marked
  {
    var b, ship;
    b, ship, placed := DemoSetup();
    answers, lives, missCell := DemoWounds(b, ship);
    var last;
    last, killCell, contourCell := DemoKill(b, ship);
    answers := answers + [last];
    lives := lives + [ship.lives];
    sunk := b.count;
  }

  /** Without an intervening `board_clear`, a second shot at the same on-board
      coordinate is always refused as already used. */
  method ShootTwice(b: Board, d: Dot) returns (first: Result<bool>, second: Result<bool>)
    requires b.Valid()
    modifies b, b.field, b.ships
    ensures OutBoard(d, b.size) ==> first == Err(Out) && second == Err(Out)
    ensures !OutBoard(d, b.size) ==> second == Err(Used)
  {
    first := b.Shot(d);
    second := b.Shot(d);
  }

  /** While `busy` still holds the first ship and its contour, a second ship
      with a cell touching the first (even diagonally) is refused. */
  method PlaceTouching(b: Board, a: Ship, c: Ship, i: nat, j: nat) returns (first: Outcome, second: Outcome)
    requires b.Valid()
    requires i < |c.Cells()| && j < |a.Cells()| && Touches(c.Cells()[i], a.Cells()[j])
    modifies b, b.field
    ensures first == Pass ==> second.Fail?
  {
    first := b.AddShip(a);
    if first == Pass {
      TouchingPlacementFails(a.Cells(), old(b.busy), c.Cells(), b.size, i, j);
    }
    second := b.AddShip(c);
  }
}
