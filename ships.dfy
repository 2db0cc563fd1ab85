/** Ships: a start coordinate, a length, an orientation and a lives counter. */
module Ships {
  import opened Dots

  /** The `i`-th cell of a ship: `'v'` steps the x coordinate, `'h'` the y
      coordinate, and any other orientation character leaves `start` as it is. */
  function CellAt(start: Dot, orient: char, i: int): Dot
  {
    if orient == 'v' then Dot(start.x + i, start.y)
    else if orient == 'h' then Dot(start.x, start.y + i)
    else start
  }

  /** The cells `Ship.coord` lists, in its order: one per `i` in `range(length)`. */
  function ShipCells(start: Dot, length: int, orient: char): seq<Dot>
  {
    seq(Max0(length), i => CellAt(start, orient, i))
  }

  /** A vertical ship covers exactly the column segment from `start` downwards,
      and a horizontal one the row segment from `start` rightwards. */
  lemma StraightShipCells(start: Dot, length: int, orient: char, d: Dot)
    requires orient == 'v' || orient == 'h'
    ensures orient == 'v' ==>
      (d in ShipCells(start, length, orient) <==> d.y == start.y && start.x <= d.x < start.x + length)
    ensures orient == 'h' ==>
      (d in ShipCells(start, length, orient) <==> d.x == start.x && start.y <= d.y < start.y + length)
  {
    var cells := ShipCells(start, length, orient);
    if orient == 'v' && d.y == start.y && start.x <= d.x < start.x + length {
      assert cells[d.x - start.x] == d;
    }
    if orient == 'h' && d.x == start.x && start.y <= d.y < start.y + length {
      assert cells[d.y - start.y] == d;
    }
  }

  /** A straight ship never lists a cell twice. */
  lemma StraightShipDistinct(start: Dot, length: int, orient: char)
    requires orient == 'v' || orient == 'h'
    ensures Distinct(ShipCells(start, length, orient))
  {
  }

  /** With any other orientation character every listed cell is `start`. */
  lemma DegenerateShipCells(start: Dot, length: int, orient: char)
    requires orient != 'v' && orient != 'h'
    ensures forall d :: d in ShipCells(start, length, orient) ==> d == start
  {
  }

  class Ship {
    const start: Dot
    const length: int
    const orient: char
    /** Remaining undamaged cells; `Board.shot` decrements it in place. */
    var lives: int

    constructor (start: Dot, length: int, orient: char)
      ensures this.start == start && this.length == length && this.orient == orient
      ensures lives == length
    {
      this.start := start;
      this.length := length;
      this.orient := orient;
      lives := length;
    }

    /** The ship's cells, as a value (depends only on the constant fields). */
    function Cells(): seq<Dot>
    {
      ShipCells(start, length, orient)
    }

    /** `Ship.coord`: builds the list of cells one by one. */
    method Coord() returns (r: seq<Dot>)
      ensures |r| == Max0(length)
      ensures forall i :: 0 <= i < |r| ==>
        r[i] == (if orient == 'v' then Dot(start.x + i, start.y)
                 else if orient == 'h' then Dot(start.x, start.y + i)
                 else start)
      ensures r == Cells()
    {
      r := [];
      var i := 0;
      while i < length
        invariant 0 <= i <= Max0(length)
        invariant r == ShipCells(start, length, orient)[..i]
      {
        var cx, cy := start.x, start.y;
        if orient == 'v' {
          cx := cx + i;
        } else if orient == 'h' {
          cy := cy + i;
        }
        r := r + [Dot(cx, cy)];
        i := i + 1;
      }
    }
  }
}
