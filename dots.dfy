/** Coordinates on the board and the geometry shared by ships and boards. */
module Dots {

  /** A board coordinate; compared by value, like `Dot.__eq__` in `main.py`. */
  datatype Dot = Dot(x: int, y: int)

  /** `n` clipped at zero: the number of rows a list built by `range(n)` gets. */
  function Max0(n: int): nat
  {
    if n < 0 then 0 else n
  }

  /** The coordinate lies outside the `size` x `size` board (`Board.out_board`). */
  predicate OutBoard(d: Dot, size: int)
  {
    !(0 <= d.x < size && 0 <= d.y < size)
  }

  /** The nine offsets of a 3x3 neighbourhood, in the order the contour visits them. */
  const Near: seq<(int, int)> :=
    [(-1, -1), (-1, 0), (-1, 1),
     (0, -1), (0, 0), (0, 1),
     (1, -1), (1, 0), (1, 1)]

  /** `d` lies within Chebyshev distance 1 of `c` (possibly `c` itself). */
  predicate Touches(d: Dot, c: Dot)
  {
    -1 <= d.x - c.x <= 1 && -1 <= d.y - c.y <= 1
  }

  /** No coordinate occurs twice. */
  predicate Distinct(s: seq<Dot>)
  {
    forall i, j :: 0 <= i < j < |s| ==> s[i] != s[j]
  }

  /** A coordinate is on the board exactly when it indexes a cell of the
      `Max0(size)` x `Max0(size)` field the board allocates. */
  lemma InBoardIsIndex(d: Dot, size: int)
    ensures !OutBoard(d, size) <==> 0 <= d.x < Max0(size) && 0 <= d.y < Max0(size)
  {
  }

  /** The offsets in `Near` are exactly the displacements of Chebyshev length at most 1. */
  lemma NearIsNeighbourhood(dx: int, dy: int)
    ensures (dx, dy) in Near <==> -1 <= dx <= 1 && -1 <= dy <= 1
  {
    if -1 <= dx <= 1 && -1 <= dy <= 1 {
      assert (dx, dy) == Near[3 * (dx + 1) + (dy + 1)];
    }
  }

  /** Appending two duplicate-free sequences with no common element keeps them duplicate-free. */
  lemma DistinctAppend(a: seq<Dot>, b: seq<Dot>)
    requires Distinct(a) && Distinct(b)
    requires forall d :: d in b ==> d !in a
    ensures Distinct(a + b)
  {
    forall i, j | 0 <= i < j < |a + b|
      ensures (a + b)[i] != (a + b)[j]
    {
      if j >= |a| && i < |a| {
        assert (a + b)[j] == b[j - |a|];
        assert (a + b)[i] in a;
      }
    }
  }
}
