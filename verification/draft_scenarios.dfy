/** Two behaviours of the earlier draft's placement that set it apart
    from the current engine: ships may touch, and a start above the grid
    is not refused but throws. */
module DraftScenarios {
  import opened Base
  import opened Geometry
  import opened DraftShipType
  import opened DraftCell
  import opened DraftShip
  import opened DraftBoard

  /** No cell of the board carries the ship flag. */
  ghost predicate NoShipCells(b: Board)
    requires Shaped(b)
  {
    forall q: Pos :: !At(b, q).ship
  }

  /** Two frigates side by side, at (0, 0) and (0, 1), are both placed:
      the draft has no adjacency rule. */
  lemma AdjacentFrigatesPlaced(b: Board, s1: Ship, s2: Ship)
    requires Shaped(b) && NoShipCells(b)
    requires s1.kind == Frigate && s2.kind == Frigate
    ensures PlaceShip(b, s1, 0, 0, true).Ok?
    ensures PlaceShip(PlaceShip(b, s1, 0, 0, true).value, s2, 0, 1, true).Ok?
  {
    assert SegmentAt(0, 0, true, 0) == (0, 0);
    var b1 := PlaceShip(b, s1, 0, 0, true).value;
    assert Segment(0, 0, true, 1) == [(0, 0)];
    assert SegmentAt(0, 1, true, 0) == (0, 1);
    assert !At(b1, (0, 1)).ship;
  }

  /** A start in row -1 passes the far-edge test, and the scan then reads
      outside the array: placeShip throws instead of refusing. */
  lemma StartAboveGridThrows(b: Board, s: Ship, c: int)
    requires Shaped(b) && 0 <= c && c + Size(s.kind) <= SIZE
    ensures PlaceShip(b, s, -1, c, true) == Err(ArrayIndexOutOfBounds)
  {
    assert !InBounds(SegmentAt(-1, c, true, 0));
  }

  /** A ship cell that no ship claims breaks consistency: a new board with
      one flagged cell and no ships is not a board the draft can reach. */
  lemma StrayFlagInconsistent(q: Pos)
    ensures !Consistent(Put(NewBoard(), q, SetShip(NewCell(), true)))
  {
    var b := Put(NewBoard(), q, SetShip(NewCell(), true));
    assert At(b, q).ship && AllCoords(b.ships) == [];
  }
}
