/** Value-level specification of the board operations: which cells a placement
    accepts, which cells a contour adds, and which ship a shot hits. */
module BoardSpec {
  import opened Dots
  import opened Ships

  /** The three board exceptions of `main.py`. */
  datatype BoardError = Out | Used | ShipErr

  datatype Option<T> = None | Some(value: T)

  /** How far a placement scan got: `placed` cells accepted, then the error, if any. */
  datatype Verdict = Verdict(placed: nat, error: Option<BoardError>)

  /** The cell scan of `Board.add_ship`: each cell in order must be on the board
      and not yet in `busy`; an accepted cell joins `busy` before the next one is
      checked, and the first bad cell stops the scan. */
  function Scan(cells: seq<Dot>, busy: seq<Dot>, size: int): (v: Verdict)
    ensures v.placed <= |cells|
  {
    if cells == [] then Verdict(0, None)
    else if OutBoard(cells[0], size) then Verdict(0, Some(Out))
    else if cells[0] in busy then Verdict(0, Some(ShipErr))
    else
      var rest := Scan(cells[1..], busy + [cells[0]], size);
      Verdict(rest.placed + 1, rest.error)
  }

  /** The scan accepts a prefix of the ship: every accepted cell is on the board,
      new to `busy` and not repeated; it succeeds exactly when it accepts all
      cells, and otherwise stops at an off-board cell (`Out`) or at an on-board
      cell already blocked, by `busy` or by an earlier cell (`ShipErr`). */
  lemma {:induction false} ScanSound(cells: seq<Dot>, busy: seq<Dot>, size: int)
    ensures var v := Scan(cells, busy, size);
      && (forall j :: 0 <= j < v.placed ==>
            !OutBoard(cells[j], size) && cells[j] !in busy && cells[j] !in cells[..j])
      && (v.error == None <==> v.placed == |cells|)
      && (v.error == Some(Out) ==> OutBoard(cells[v.placed], size))
      && (v.error == Some(ShipErr) ==>
            !OutBoard(cells[v.placed], size) && cells[v.placed] in busy + cells[..v.placed])
      && v.error != Some(Used)
  {
    if cells != [] && !OutBoard(cells[0], size) && cells[0] !in busy {
      ScanSound(cells[1..], busy + [cells[0]], size);
      assert forall j :: 1 <= j <= |cells| ==> cells[..j] == [cells[0]] + cells[1..][..j - 1];
    }
  }

  /** Every cell of every ship in `ships` lies on the board. */
  predicate ShipsOnBoard(ships: seq<Ship>, size: int)
  {
    forall s, c :: s in ships && c in s.Cells() ==> !OutBoard(c, size)
  }

  /** The cells the contour appends while visiting the offsets `offs` around
      `c`: each on-board neighbour that is not yet in `busy`, which it then joins. */
  function Ring(c: Dot, offs: seq<(int, int)>, busy: seq<Dot>, size: int): seq<Dot>
  {
    if offs == [] then []
    else
      var cur := Dot(c.x + offs[0].0, c.y + offs[0].1);
      if !OutBoard(cur, size) && cur !in busy then
        [cur] + Ring(c, offs[1..], busy + [cur], size)
      else
        Ring(c, offs[1..], busy, size)
  }

  /** A ring holds on-board cells new to `busy`, each displaced from the centre
      by one of the offsets, and none twice. */
  lemma {:induction false} RingSound(c: Dot, offs: seq<(int, int)>, busy: seq<Dot>, size: int)
    ensures forall d :: d in Ring(c, offs, busy, size) ==>
      !OutBoard(d, size) && d !in busy && (d.x - c.x, d.y - c.y) in offs
    ensures Distinct(Ring(c, offs, busy, size))
  {
    if offs != [] {
      var cur := Dot(c.x + offs[0].0, c.y + offs[0].1);
      if !OutBoard(cur, size) && cur !in busy {
        var rest := Ring(c, offs[1..], busy + [cur], size);
        RingSound(c, offs[1..], busy + [cur], size);
        DistinctAppend([cur], rest);
        forall d | d in rest ensures (d.x - c.x, d.y - c.y) in offs {
          assert (d.x - c.x, d.y - c.y) in offs[1..];
        }
      } else {
        var rest := Ring(c, offs[1..], busy, size);
        RingSound(c, offs[1..], busy, size);
        forall d | d in rest ensures (d.x - c.x, d.y - c.y) in offs {
          assert (d.x - c.x, d.y - c.y) in offs[1..];
        }
      }
    }
  }

  /** `Board.contour`: the cells appended to `busy` when the 3x3 neighbourhood of
      every ship cell, in order, is added. */
  function ContourAdds(cells: seq<Dot>, busy: seq<Dot>, size: int): seq<Dot>
  {
    if cells == [] then []
    else
      var ring := Ring(cells[0], Near, busy, size);
      ring + ContourAdds(cells[1..], busy + ring, size)
  }

  /** Every cell the contour adds is on the board, new to `busy`, next to some
      ship cell, and added once. */
  lemma {:induction false} ContourSound(cells: seq<Dot>, busy: seq<Dot>, size: int)
    ensures forall d :: d in ContourAdds(cells, busy, size) ==>
      !OutBoard(d, size) && d !in busy && exists k :: 0 <= k < |cells| && Touches(d, cells[k])
    ensures Distinct(ContourAdds(cells, busy, size))
  {
    if cells != [] {
      var ring := Ring(cells[0], Near, busy, size);
      var rest := ContourAdds(cells[1..], busy + ring, size);
      RingSound(cells[0], Near, busy, size);
      ContourSound(cells[1..], busy + ring, size);
      forall d | d in ring ensures Touches(d, cells[0]) {
        NearIsNeighbourhood(d.x - cells[0].x, d.y - cells[0].y);
      }
      forall d | d in rest ensures exists k :: 0 <= k < |cells| && Touches(d, cells[k]) {
        var k :| 0 <= k < |cells[1..]| && Touches(d, cells[1..][k]);
        assert Touches(d, cells[k + 1]);
      }
      DistinctAppend(ring, rest);
    }
  }

  /** The verdict of a scan that starts `k` cells into the ship. */
  function Shift(v: Verdict, k: nat): Verdict
  {
    Verdict(v.placed + k, v.error)
  }

  /** The scan of the cells from index `k` on decides on cell `k` first. */
  lemma ScanAt(cells: seq<Dot>, k: nat, busy: seq<Dot>, size: int)
    requires k < |cells|
    ensures Scan(cells[k..], busy, size) ==
      if OutBoard(cells[k], size) then Verdict(0, Some(Out))
      else if cells[k] in busy then Verdict(0, Some(ShipErr))
      else Shift(Scan(cells[k + 1..], busy + [cells[k]], size), 1)
  {
    assert cells[k..][0] == cells[k] && cells[k..][1..] == cells[k + 1..];
  }

  /** One step of the ring around `c`, at offset index `m`: `done` is what the
      ring has appended so far and `busy` the list at this point. */
  lemma RingStep(c: Dot, m: nat, done: seq<Dot>, busy: seq<Dot>, size: int, whole: seq<Dot>)
    requires m < |Near| && done + Ring(c, Near[m..], busy, size) == whole
    ensures var cur := Dot(c.x + Near[m].0, c.y + Near[m].1);
      if !OutBoard(cur, size) && cur !in busy
      then (done + [cur]) + Ring(c, Near[m + 1..], busy + [cur], size) == whole
      else done + Ring(c, Near[m + 1..], busy, size) == whole
  {
    assert Near[m..][0] == Near[m] && Near[m..][1..] == Near[m + 1..];
  }

  /** One step of the contour, at ship cell `k`: `done` is what the contour has
      appended so far and `busy` the list at this point. */
  lemma ContourStep(cells: seq<Dot>, k: nat, done: seq<Dot>, busy: seq<Dot>, size: int, whole: seq<Dot>)
    requires k < |cells| && done + ContourAdds(cells[k..], busy, size) == whole
    ensures var ring := Ring(cells[k], Near, busy, size);
      (done + ring) + ContourAdds(cells[k + 1..], busy + ring, size) == whole
  {
    assert cells[k..][0] == cells[k] && cells[k..][1..] == cells[k + 1..];
  }

  /** Every on-board cell displaced from `c` by an offset of `offs` is in `busy`
      once the ring around `c` has been added. */
  lemma {:induction false} RingComplete(c: Dot, offs: seq<(int, int)>, busy: seq<Dot>, size: int, o: (int, int))
    requires o in offs && !OutBoard(Dot(c.x + o.0, c.y + o.1), size)
    ensures Dot(c.x + o.0, c.y + o.1) in busy + Ring(c, offs, busy, size)
  {
    var cur := Dot(c.x + offs[0].0, c.y + offs[0].1);
    if o == offs[0] {
    } else if !OutBoard(cur, size) && cur !in busy {
      RingComplete(c, offs[1..], busy + [cur], size, o);
    } else {
      RingComplete(c, offs[1..], busy, size, o);
    }
  }

  /** Every on-board cell next to some ship cell is in `busy` once the contour
      has been added. */
  lemma {:induction false} ContourComplete(cells: seq<Dot>, busy: seq<Dot>, size: int, d: Dot, k: nat)
    requires k < |cells| && Touches(d, cells[k]) && !OutBoard(d, size)
    ensures d in busy + ContourAdds(cells, busy, size)
    decreases k
  {
    var ring := Ring(cells[0], Near, busy, size);
    if k == 0 {
      var o := (d.x - cells[0].x, d.y - cells[0].y);
      NearIsNeighbourhood(o.0, o.1);
      RingComplete(cells[0], Near, busy, size, o);
      assert d == Dot(cells[0].x + o.0, cells[0].y + o.1);
    } else {
      ContourComplete(cells[1..], busy + ring, size, d, k - 1);
    }
  }

  /** The contour adds exactly the on-board cells next to the ship that were not
      yet in `busy`. */
  lemma ContourExact(cells: seq<Dot>, busy: seq<Dot>, size: int, d: Dot)
    ensures d in ContourAdds(cells, busy, size) <==>
      !OutBoard(d, size) && d !in busy && exists k :: 0 <= k < |cells| && Touches(d, cells[k])
  {
    ContourSound(cells, busy, size);
    if !OutBoard(d, size) && d !in busy && exists k :: 0 <= k < |cells| && Touches(d, cells[k]) {
      var k :| 0 <= k < |cells| && Touches(d, cells[k]);
      ContourComplete(cells, busy, size, d, k);
    }
  }

  /** After a successful placement scan, the ship cells together with their
      contour are exactly the on-board cells within Chebyshev distance 1 of the
      ship that were not in `busy` before, each listed once. */
  lemma PlacementZone(cells: seq<Dot>, busy: seq<Dot>, size: int, d: Dot)
    requires Scan(cells, busy, size).error == None
    ensures Distinct(cells + ContourAdds(cells, busy + cells, size))
    ensures d in cells + ContourAdds(cells, busy + cells, size) <==>
      !OutBoard(d, size) && d !in busy && exists k :: 0 <= k < |cells| && Touches(d, cells[k])
  {
    var v := Scan(cells, busy, size);
    ScanSound(cells, busy, size);
    assert Distinct(cells) by {
      forall i, j | 0 <= i < j < |cells| ensures cells[i] != cells[j] {
        assert cells[i] in cells[..j];
      }
    }
    var adds := ContourAdds(cells, busy + cells, size);
    ContourSound(cells, busy + cells, size);
    DistinctAppend(cells, adds);
    ContourExact(cells, busy + cells, size, d);
    if d in cells {
      var k :| 0 <= k < |cells| && cells[k] == d;
      assert Touches(d, cells[k]);
    }
  }

  /** A placement scan fails as soon as any cell is off the board or already
      in `busy`; when every cell is on the board the failure is `ShipErr`. */
  lemma ScanRejects(cells: seq<Dot>, busy: seq<Dot>, size: int, i: nat)
    requires i < |cells| && (OutBoard(cells[i], size) || cells[i] in busy)
    ensures Scan(cells, busy, size).error != None
    ensures (forall j :: 0 <= j < |cells| ==> !OutBoard(cells[j], size)) ==>
      Scan(cells, busy, size).error == Some(ShipErr)
  {
    var v := Scan(cells, busy, size);
    ScanSound(cells, busy, size);
    if forall j :: 0 <= j < |cells| ==> !OutBoard(cells[j], size) {
      assert !OutBoard(cells[v.placed], size);
      assert v.error.Some? && v.error != Some(Out) && v.error != Some(Used);
      assert v.error.value == ShipErr;
    }
  }

  /** A ship placed next to an earlier one (even diagonally) is refused while the
      earlier ship's cells and contour are still in `busy`. */
  lemma TouchingPlacementFails(first: seq<Dot>, busy: seq<Dot>, second: seq<Dot>, size: int, i: nat, j: nat)
    requires Scan(first, busy, size).error == None
    requires i < |second| && j < |first| && Touches(second[i], first[j])
    ensures Scan(second, busy + first + ContourAdds(first, busy + first, size), size).error != None
  {
    var after := busy + first + ContourAdds(first, busy + first, size);
    if !OutBoard(second[i], size) {
      ContourComplete(first, busy + first, size, second[i], j);
      assert second[i] in after;
    }
    ScanRejects(second, after, size, i);
  }

  /** A ship of length at least 2 with an orientation other than `'v'` or `'h'`
      lists `start` twice, so `add_ship` always refuses it: with `Out` when
      `start` is off the board, otherwise with `ShipErr` after marking at
      most one cell (none when `start` is already in `busy`). */
  lemma DegenerateShipRefused(start: Dot, length: int, orient: char, busy: seq<Dot>, size: int)
    requires orient != 'v' && orient != 'h' && length >= 2
    ensures Scan(ShipCells(start, length, orient), busy, size).placed <= 1
    ensures Scan(ShipCells(start, length, orient), busy, size).error ==
      if OutBoard(start, size) then Some(Out) else Some(ShipErr)
  {
    var cells := ShipCells(start, length, orient);
    assert cells[0] == start && cells[1] == start;
    ScanSound(cells, busy, size);
  }

  /** The index of the first ship listing `d` among its cells, or `|ships|`
      when none does (the loop of `Board.shot`). */
  function FirstHit(ships: seq<Ship>, d: Dot): (k: nat)
    ensures k <= |ships|
    ensures forall j :: 0 <= j < k ==> d !in ships[j].Cells()
    ensures k < |ships| ==> d in ships[k].Cells()
  {
    if ships == [] then 0
    else if d in ships[0].Cells() then 0
    else 1 + FirstHit(ships[1..], d)
  }
}
