/** Geometry of the square battle grid, common to both generations. */
module Geometry {

  /** Board.SIZE: the grid has SIZE rows and SIZE columns. */
  const SIZE: int := 10

  /** A (row, column) pair, not necessarily on the grid. */
  type Coord = (int, int)

  predicate InBounds(p: Coord) {
    0 <= p.0 < SIZE && 0 <= p.1 < SIZE
  }

  /** A coordinate on the grid; a grid cell is identified by its position. */
  type Pos = p: Coord | InBounds(p) witness (0, 0)

  /** The i-th segment of a ship that starts at (row, col): the loops of the
      placement code step the column when horizontal and the row otherwise. */
  function SegmentAt(row: int, col: int, horizontal: bool, i: int): Coord {
    if horizontal then (row, col + i) else (row + i, col)
  }

  /** The n consecutive segments of a ship starting at (row, col). */
  function Segment(row: int, col: int, horizontal: bool, n: nat): (s: seq<Coord>)
    ensures |s| == n
    ensures forall i :: 0 <= i < n ==> s[i] == SegmentAt(row, col, horizontal, i)
  {
    seq(n, i => SegmentAt(row, col, horizontal, i))
  }

  /** Where a coordinate sits along a ship starting at (row, col). */
  function SegmentIndex(row: int, col: int, horizontal: bool, p: Coord): int {
    if horizontal then p.1 - col else p.0 - row
  }

  /** A coordinate of a ship's segments is the segment at its index. */
  lemma InSegment(row: int, col: int, horizontal: bool, n: nat, p: Coord)
    requires p in Segment(row, col, horizontal, n)
    ensures 0 <= SegmentIndex(row, col, horizontal, p) < n
    ensures SegmentAt(row, col, horizontal, SegmentIndex(row, col, horizontal, p)) == p
  {
    var i :| 0 <= i < n && Segment(row, col, horizontal, n)[i] == p;
  }

  /** The segments of one ship are pairwise different cells. */
  lemma SegmentDistinct(row: int, col: int, horizontal: bool, n: nat)
    ensures forall i, j :: 0 <= i < j < n ==> Segment(row, col, horizontal, n)[i] != Segment(row, col, horizontal, n)[j]
  {
  }

  /** p lies in the 3x3 neighbourhood centred on q (q itself included). */
  predicate Near(p: Coord, q: Coord) {
    -1 <= p.0 - q.0 <= 1 && -1 <= p.1 - q.1 <= 1
  }

  /** Every grid coordinate once, row by row, as the AI constructors enumerate them. */
  function AllPairs(): (s: seq<Coord>)
    ensures |s| == SIZE * SIZE
    ensures forall k :: 0 <= k < |s| ==> s[k] == (k / SIZE, k % SIZE)
  {
    seq(SIZE * SIZE, k => (k / SIZE, k % SIZE))
  }

  /** AllPairs holds exactly the grid coordinates, each exactly once. */
  lemma AllPairsExactlyOnce()
    ensures forall p: Coord :: p in AllPairs() <==> InBounds(p)
    ensures forall i, j :: 0 <= i < j < |AllPairs()| ==> AllPairs()[i] != AllPairs()[j]
  {
    var s := AllPairs();
    forall p: Coord | InBounds(p)
      ensures p in s
    {
      var k := p.0 * SIZE + p.1;
      assert s[k] == p;
    }
  }
}
