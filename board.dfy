/** The board: a `size` x `size` cell matrix updated in place, the list `busy` of
    blocked coordinates, the placed ships and the counter of sunk ships. */
module Boards {
  import opened Dots
  import opened Ships
  import opened BoardSpec

  /** Cell symbols: `"o"` untouched, `"■"` ship, `"X"` hit, `"."` miss or
      revealed contour (`main.py` uses one symbol for both). */
  datatype Cell = Blank | Deck | Hit | Marked

  function Glyph(c: Cell): (g: char)
    ensures c == Blank <==> g == 'o'
    ensures c == Deck <==> g == '■'
    ensures c == Hit <==> g == 'X'
    ensures c == Marked <==> g == '.'
  {
    match c
    case Blank => 'o'
    case Deck => '■'
    case Hit => 'X'
    case Marked => '.'
  }

  datatype Outcome = Pass | Fail(error: BoardError)

  datatype Result<T> = Ok(value: T) | Err(error: BoardError)

  class Board {
    const size: int
    const field: array2<Cell>
    var busy: seq<Dot>
    var ships: seq<Ship>
    var count: int

    /** The field has the board's dimensions; `busy` holds on-board cells, each
        once; every cell of every placed ship lies on the board. */
    ghost predicate Valid()
      reads this
    {
      field.Length0 == Max0(size) && field.Length1 == Max0(size) &&
      Distinct(busy) && (forall d :: d in busy ==> !OutBoard(d, size)) &&
      ShipsOnBoard(ships, size)
    }

    constructor (size: int)
      ensures Valid() && fresh(field)
      ensures this.size == size
      ensures forall i, j :: 0 <= i < field.Length0 && 0 <= j < field.Length1 ==> field[i, j] == Blank
      ensures busy == [] && ships == [] && count == 0
    {
      this.size := size;
      field := new Cell[Max0(size), Max0(size)]((i, j) => Blank);
      busy := [];
      ships := [];
      count := 0;
    }

    /** `Board.add_ship`: marks and blocks the ship's cells one at a time and stops
        at the first bad one (cells marked before it stay marked and blocked); on
        success blocks the contour without painting it and appends the ship. */
    method AddShip(ship: Ship) returns (r: Outcome)
      requires Valid()
      modifies this, field
      ensures Valid()
      ensures count == old(count)
      ensures var cells := ship.Cells(); var v := Scan(cells, old(busy), size);
        && (v.error == None ==>
              r == Pass && ships == old(ships) + [ship] &&
              busy == old(busy) + cells + ContourAdds(cells, old(busy) + cells, size))
        && (v.error != None ==>
              r == Fail(v.error.value) && ships == old(ships) &&
              busy == old(busy) + cells[..v.placed])
        && forall i, j :: 0 <= i < field.Length0 && 0 <= j < field.Length1 ==>
             field[i, j] == if Dot(i, j) in cells[..v.placed] then Deck else old(field[i, j])
    {
      var cells := ship.Coord();
      ScanSound(cells, busy, size);
      var v := Place(cells);
      if v.error != None {
        return Fail(v.error.value);
      }
      assert cells[..v.placed] == cells;
      Contour(ship, false);
      ships := ships + [ship];
      r := Pass;
    }

    /** The placement loop of `Board.add_ship`: paints and blocks `cells` in order
        and stops at the first off-board or blocked one, whose error it returns
        in the verdict of `Scan`. */
    method Place(cells: seq<Dot>) returns (v: Verdict)
      requires Valid()
      modifies this, field
      ensures Valid()
      ensures ships == old(ships) && count == old(count)
      ensures v == Scan(cells, old(busy), size)
      ensures busy == old(busy) + cells[..v.placed]
      ensures forall i, j :: 0 <= i < field.Length0 && 0 <= j < field.Length1 ==>
        field[i, j] == if Dot(i, j) in cells[..v.placed] then Deck else old(field[i, j])
    {
      ghost var b0 := busy;
      ghost var verdict := Scan(cells, b0, size);
      assert cells[0..] == cells;
      var k := 0;
      while k < |cells|
        invariant 0 <= k <= |cells|
        invariant Valid() && ships == old(ships) && count == old(count)
        invariant busy == b0 + cells[..k]
        invariant Shift(Scan(cells[k..], busy, size), k) == verdict
        invariant forall i, j :: 0 <= i < field.Length0 && 0 <= j < field.Length1 ==>
          field[i, j] == if Dot(i, j) in cells[..k] then Deck else old(field[i, j])
      {
        var c := cells[k];
        ScanAt(cells, k, busy, size);
        if OutBoard(c, size) {
          return Verdict(k, Some(Out));
        } else if c in busy {
          return Verdict(k, Some(ShipErr));
        }
        assert cells[..k + 1] == cells[..k] + [c];
        Mark(c);
        k := k + 1;
      }
      assert cells[k..] == [];
      return Verdict(k, None);
    }

    /** The body of the placement loop once a cell has passed both checks: the
        cell is painted `"■"` and appended to `busy`. */
    method Mark(c: Dot)
      requires Valid() && !OutBoard(c, size) && c !in busy
      modifies this, field
      ensures Valid()
      ensures ships == old(ships) && count == old(count)
      ensures busy == old(busy) + [c]
      ensures forall i, j :: 0 <= i < field.Length0 && 0 <= j < field.Length1 ==>
        field[i, j] == if Dot(i, j) == c then Deck else old(field[i, j])
    {
      field[c.x, c.y] := Deck;
      DistinctAppend(busy, [c]);
      busy := busy + [c];
    }

    /** `Board.contour`: visits the 3x3 neighbourhood of every ship cell and blocks
        each on-board cell not yet in `busy`, painting it `"."` when `show` holds. */
    method Contour(ship: Ship, show: bool)
      requires Valid()
      modifies this, field
      ensures Valid()
      ensures ships == old(ships) && count == old(count)
      ensures busy == old(busy) + ContourAdds(ship.Cells(), old(busy), size)
      ensures forall i, j :: 0 <= i < field.Length0 && 0 <= j < field.Length1 ==>
        field[i, j] == if show && Dot(i, j) in ContourAdds(ship.Cells(), old(busy), size)
                       then Marked else old(field[i, j])
    {
      var cells := ship.Coord();
      ghost var b0 := busy;
      ghost var added: seq<Dot> := [];
      ghost var whole := ContourAdds(cells, b0, size);
      assert cells[0..] == cells;
      var k := 0;
      while k < |cells|
        invariant 0 <= k <= |cells|
        invariant Valid() && ships == old(ships) && count == old(count)
        invariant busy == b0 + added
        invariant added + ContourAdds(cells[k..], busy, size) == whole
        invariant forall i, j :: 0 <= i < field.Length0 && 0 <= j < field.Length1 ==>
          field[i, j] == if show && Dot(i, j) in added then Marked else old(field[i, j])
      {
        ContourStep(cells, k, added, busy, size, whole);
        ghost var ring := Ring(cells[k], Near, busy, size);
        Surround(cells[k], show);
        added := added + ring;
        k := k + 1;
      }
    }

    /** One cell's share of `Board.contour`: the inner loop over the nine offsets. */
    method Surround(c: Dot, show: bool)
      requires Valid()
      modifies this, field
      ensures Valid()
      ensures ships == old(ships) && count == old(count)
      ensures busy == old(busy) + Ring(c, Near, old(busy), size)
      ensures forall i, j :: 0 <= i < field.Length0 && 0 <= j < field.Length1 ==>
        field[i, j] == if show && Dot(i, j) in Ring(c, Near, old(busy), size)
                       then Marked else old(field[i, j])
    {
      ghost var added: seq<Dot> := [];
      ghost var whole := Ring(c, Near, busy, size);
      assert Near[0..] == Near;
      var m := 0;
      while m < |Near|
        invariant 0 <= m <= |Near|
        invariant Valid() && ships == old(ships) && count == old(count)
        invariant busy == old(busy) + added
        invariant added + Ring(c, Near[m..], busy, size) == whole
        invariant forall i, j :: 0 <= i < field.Length0 && 0 <= j < field.Length1 ==>
          field[i, j] == if show && Dot(i, j) in added then Marked else old(field[i, j])
      {
        var cur := Dot(c.x + Near[m].0, c.y + Near[m].1);
        RingStep(c, m, added, busy, size, whole);
        ghost var taken := !OutBoard(cur, size) && cur !in busy;
        Visit(cur, show);
        if taken {
          added := added + [cur];
        }
        m := m + 1;
      }
    }

    /** The body of the contour's inner loop: an on-board neighbour not yet in
        `busy` is appended to it, and painted `"."` when `show` holds. */
    method Visit(cur: Dot, show: bool)
      requires Valid()
      modifies this, field
      ensures Valid()
      ensures ships == old(ships) && count == old(count)
      ensures var taken := !OutBoard(cur, size) && cur !in old(busy);
        && busy == old(busy) + (if taken then [cur] else [])
        && forall i, j :: 0 <= i < field.Length0 && 0 <= j < field.Length1 ==>
             field[i, j] == if show && taken && Dot(i, j) == cur then Marked else old(field[i, j])
    {
      if !OutBoard(cur, size) && cur !in busy {
        if show {
          field[cur.x, cur.y] := Marked;
        }
        DistinctAppend(busy, [cur]);
        busy := busy + [cur];
      }
    }

    /** `Board.board_clear`: empties `busy` and nothing else. */
    method BoardClear()
      requires Valid()
      modifies this
      ensures Valid()
      ensures busy == []
      ensures ships == old(ships) && count == old(count)
      ensures forall s :: s in ships ==> s.lives == old(s.lives)
    {
      busy := [];
    }

    /** `Board.shot`: an off-board or already blocked coordinate is refused with no
        change. Otherwise the coordinate is blocked; the first ship listing it
        loses one life and the cell becomes `"X"`; a ship left with no lives is
        counted as sunk and its contour revealed, and only a ship still alive
        answers `true`. A shot that hits no ship paints the cell `"."`. */
    method Shot(d: Dot) returns (r: Result<bool>)
      requires Valid()
      modifies this, field, ships
      ensures Valid()
      ensures ships == old(ships)
      ensures OutBoard(d, size) ==> r == Err(Out)
      ensures !OutBoard(d, size) && d in old(busy) ==> r == Err(Used)
      ensures r.Err? ==>
        busy == old(busy) && count == old(count) &&
        (forall s :: s in ships ==> s.lives == old(s.lives)) &&
        forall i, j :: 0 <= i < field.Length0 && 0 <= j < field.Length1 ==> field[i, j] == old(field[i, j])
      ensures !OutBoard(d, size) && d !in old(busy) ==>
        var h := FirstHit(ships, d);
        if h == |ships| then
          r == Ok(false) && busy == old(busy) + [d] && count == old(count) &&
          (forall s :: s in ships ==> s.lives == old(s.lives)) &&
          forall i, j :: 0 <= i < field.Length0 && 0 <= j < field.Length1 ==>
            field[i, j] == if Dot(i, j) == d then Marked else old(field[i, j])
        else
          var hit := ships[h];
          var sunk := hit.lives == 0;
          var revealed := if sunk then ContourAdds(hit.Cells(), old(busy) + [d], size) else [];
          hit.lives == old(hit.lives) - 1 &&
          (forall s :: s in ships && s != hit ==> s.lives == old(s.lives)) &&
          r == Ok(!sunk) &&
          count == old(count) + (if sunk then 1 else 0) &&
          busy == old(busy) + [d] + revealed &&
          forall i, j :: 0 <= i < field.Length0 && 0 <= j < field.Length1 ==>
            field[i, j] == if Dot(i, j) == d then Hit
                           else if Dot(i, j) in revealed then Marked
                           else old(field[i, j])
    {
      if OutBoard(d, size) {
        return Err(Out);
      }
      if d in busy {
        return Err(Used);
      }
      DistinctAppend(busy, [d]);
      busy := busy + [d];
      var k := 0;
      while k < |ships|
        invariant 0 <= k <= |ships|
        invariant Valid() && ships == old(ships) && count == old(count)
        invariant busy == old(busy) + [d]
        invariant forall j :: 0 <= j < k ==> d !in ships[j].Cells()
        invariant forall s :: s in ships ==> s.lives == old(s.lives)
        invariant forall i, j :: 0 <= i < field.Length0 && 0 <= j < field.Length1 ==>
          field[i, j] == old(field[i, j])
      {
        var cells := ships[k].Coord();
        if d in cells {
          assert FirstHit(ships, d) == k;
          var ship := ships[k];
          ship.lives := ship.lives - 1;
          field[d.x, d.y] := Hit;
          if ship.lives == 0 {
            count := count + 1;
            ContourSound(ship.Cells(), busy, size);
            Contour(ship, true);
            return Ok(false);
          } else {
            return Ok(true);
          }
        }
        k := k + 1;
      }
      field[d.x, d.y] := Marked;
      return Ok(false);
    }
  }

}
