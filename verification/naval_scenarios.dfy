/** The situations the current engine's own tests exercise (BoardTest and
    ShipTest), stated for every board they describe rather than for one
    run: an empty board stands for `new Board()`, and a ship id of the
    right type for `new Ship(type)`. */
module NavalScenarios {
  import opened Base
  import opened Geometry
  import opened NavalShipType
  import opened NavalCell
  import opened NavalShip
  import opened NavalBoard
  import opened NavalRules

  /** A new board is empty. */
  lemma NewBoardEmpty()
    ensures Empty(NewBoard())
  {
    var b := NewBoard();
    assert forall q: Pos :: At(b, q) == NewCell(q.0, q.1);
  }

  /** On an empty board only the edges of the grid limit placement: a
      ship fits exactly when all its segments are on the grid. */
  lemma EmptyBoardPlaceable(b: Board, n: int, row: int, col: int, horizontal: bool)
    requires Shaped(b) && Empty(b)
    ensures CanPlace(b, n, row, col, horizontal) <==> forall i | 0 <= i < n :: InBounds(SegmentAt(row, col, horizontal, i))
  {
    CanPlaceMeaning(b, n, row, col, horizontal);
  }

  /** A carrier laid horizontally from (9, 9) runs off the grid at its
      second segment, so addShip refuses it and changes nothing, whatever
      else is on the board. */
  lemma CarrierOffTheEdgeRefused(b: Board, id: ShipId)
    requires WellFormed(b) && id < |b.ships| && b.ships[id].kind == Carrier
    ensures AddShip(b, id, 9, 9, true) == (b, false)
  {
    assert SegmentAt(9, 9, true, 1) == (9, 10);
  }

  /** A destroyer placed horizontally at (0, 0) on an empty board is
      accepted, and (0, 0) and (0, 1) become its cells. */
  lemma DestroyerAtOriginPlaced(b: Board, id: ShipId)
    requires WellFormed(b) && Empty(b) && id < |b.ships| && b.ships[id].kind == Destroyer
    ensures var res := AddShip(b, id, 0, 0, true);
      && res.1
      && At(res.0, (0, 0)).owner == Some(id) && At(res.0, (0, 1)).owner == Some(id)
      && res.0.ships[id].cells == [(0, 0), (0, 1)]
  {
    EmptyBoardPlaceable(b, 2, 0, 0, true);
    assert Segment(0, 0, true, 2) == [(0, 0), (0, 1)];
  }

  /** Ship.placeAt of a destroyer at (2, 2) on an empty board succeeds and
      leaves the ship with two cells. */
  lemma DestroyerPlacedByShip(b: Board, id: ShipId)
    requires WellFormed(b) && Empty(b) && id < |b.ships| && b.ships[id].kind == Destroyer
    ensures var res := PlaceAt(b, id, 2, 2, true);
      res.1 && |res.0.ships[id].cells| == 2
  {
    EmptyBoardPlaceable(b, 2, 2, 2, true);
  }

  /** A shot at water answers MISS; a second shot at the same cell answers
      ALREADY_TRIED and changes nothing. */
  lemma WaterShotMissesOnce(b: Board, row: int, col: int)
    requires WellFormed(b) && 0 <= row < SIZE && 0 <= col < SIZE
    requires !At(b, (row, col)).IsShip() && !At(b, (row, col)).IsTried()
    ensures Shoot(b, row, col).Ok? && Shoot(b, row, col).value.1 == Miss
    ensures var b1 := Shoot(b, row, col).value.0;
      Shoot(b1, row, col) == Ok((b1, AlreadyTried))
  {
  }

  /** A frigate placed at (0, 0) and notified of a hit on its only cell is
      sunk, and that cell is a sunk part. */
  lemma FrigateSinksOnItsHit(b: Board, id: ShipId)
    requires WellFormed(b) && Empty(b) && id < |b.ships| && b.ships[id].kind == Frigate
    ensures var b1 := PlaceAt(b, id, 0, 0, true).0;
      && PlaceAt(b, id, 0, 0, true).1
      && NotifyHit(b1, id, (0, 0)).ships[id].sunk
      && At(NotifyHit(b1, id, (0, 0)), (0, 0)).sunkPart
  {
    EmptyBoardPlaceable(b, 1, 0, 0, true);
    var b1 := PlaceAt(b, id, 0, 0, true).0;
    assert Segment(0, 0, true, 1) == [(0, 0)];
    assert b1.ships[id].cells == [(0, 0)];
    NotifyLastCellSinks(b1, id, (0, 0));
  }

  /** Once a ship holds (row, col), no other ship can be placed with its
      first segment there: the second placeAt is refused. */
  lemma SecondShipOnSameSpotRefused(b: Board, id1: ShipId, id2: ShipId, row: int, col: int, horizontal: bool)
    requires WellFormed(b) && id1 < |b.ships| && id2 < |b.ships|
    requires PlaceAt(b, id1, row, col, horizontal).1
    ensures PlaceAt(PlaceAt(b, id1, row, col, horizontal).0, id2, row, col, horizontal)
      == (PlaceAt(b, id1, row, col, horizontal).0, false)
  {
    var b1 := PlaceAt(b, id1, row, col, horizontal).0;
    var p: Pos := (row, col);
    assert SegmentAt(row, col, horizontal, 0) == p;
    assert At(b1, p).IsShip();
  }

  /** In contrast with the earlier draft, a frigate may not be placed next
      to another one: (0, 1) touches (0, 0). */
  lemma AdjacentFrigateRefused(b: Board, id1: ShipId, id2: ShipId)
    requires WellFormed(b) && id1 < |b.ships| && id2 < |b.ships|
    requires b.ships[id2].kind == Frigate
    requires PlaceAt(b, id1, 0, 0, true).1
    ensures !PlaceAt(PlaceAt(b, id1, 0, 0, true).0, id2, 0, 1, true).1
  {
    var b1 := PlaceAt(b, id1, 0, 0, true).0;
    var p: Pos := (0, 0);
    assert SegmentAt(0, 0, true, 0) == p;
    assert At(b1, p).IsShip();
    CanPlaceMeaning(b1, 1, 0, 1, true);
    assert SegmentAt(0, 1, true, 0) == (0, 1) && Near(p, (0, 1));
  }

  /** After a destroyer at (0, 0), a frigate diagonally next to it at
      (1, 1) is refused, while one at (3, 3), clear of it, is placed. */
  lemma FrigateNearDestroyer(b: Board, d: ShipId, f: ShipId)
    requires WellFormed(b) && Empty(b) && d < |b.ships| && f < |b.ships|
    requires b.ships[d].kind == Destroyer && b.ships[f].kind == Frigate
    ensures AddShip(b, d, 0, 0, true).1
    ensures !AddShip(AddShip(b, d, 0, 0, true).0, f, 1, 1, true).1
    ensures AddShip(AddShip(b, d, 0, 0, true).0, f, 3, 3, true).1
  {
    EmptyBoardPlaceable(b, 2, 0, 0, true);
    var b1 := AddShip(b, d, 0, 0, true).0;
    assert Segment(0, 0, true, 2) == [(0, 0), (0, 1)];
    var p: Pos := (0, 0);
    assert At(b1, p).IsShip();
    CanPlaceMeaning(b1, 1, 1, 1, true);
    assert SegmentAt(1, 1, true, 0) == (1, 1) && Near(p, (1, 1));
    CanPlaceMeaning(b1, 1, 3, 3, true);
    assert SegmentAt(3, 3, true, 0) == (3, 3);
    forall q: Pos | Near(q, (3, 3))
      ensures !At(b1, q).IsShip()
    {
      assert q !in [(0, 0), (0, 1)];
    }
  }

  /** A submarine placed at (4, 4) to (4, 6) and shot at each of its cells
      in turn answers HIT three times: every cell ends up hit, yet the ship
      is still afloat, because a shot never reaches the sinking step. */
  lemma SubmarineShotsAllHit(b: Board, id: ShipId)
    requires WellFormed(b) && Empty(b) && id < |b.ships|
    requires b.ships[id].kind == Submarine && !b.ships[id].sunk
    ensures AddShip(b, id, 4, 4, true).1
    ensures var b1 := AddShip(b, id, 4, 4, true).0;
      var r1 := Shoot(b1, 4, 4);
      && r1.Ok? && r1.value.1 == Hit
      && var r2 := Shoot(r1.value.0, 4, 5);
      && r2.Ok? && r2.value.1 == Hit
      && var r3 := Shoot(r2.value.0, 4, 6);
      && r3.Ok? && r3.value.1 == Hit
      && AllCellsHit(r3.value.0, r3.value.0.ships[id].cells)
      && !r3.value.0.ships[id].sunk
  {
    EmptyBoardPlaceable(b, 3, 4, 4, true);
    var b1 := AddShip(b, id, 4, 4, true).0;
    assert Segment(4, 4, true, 3) == [(4, 4), (4, 5), (4, 6)];
    var p1: Pos, p2: Pos, p3: Pos := (4, 4), (4, 5), (4, 6);
    assert b1.ships[id].cells == [p1, p2, p3];
    assert At(b1, p1).owner == Some(id) && !At(b1, p1).IsTried();
    assert At(b1, p2).owner == Some(id) && !At(b1, p2).IsTried();
    assert At(b1, p3).owner == Some(id) && !At(b1, p3).IsTried();
    var c1 := ShotAtAfloatShip(b1, id, p1);
    var c2 := ShotAtAfloatShip(c1, id, p2);
    var c3 := ShotAtAfloatShip(c2, id, p3);
    assert c3.ships[id].cells == [p1, p2, p3];
    assert At(c3, p1).hit && At(c3, p2).hit && At(c3, p3).hit;
  }

  /** A shot at an untried cell of an afloat ship answers HIT, hits that
      cell and changes nothing else. */
  lemma ShotAtAfloatShip(b: Board, id: ShipId, p: Pos) returns (b': Board)
    requires WellFormed(b) && id < |b.ships| && !b.ships[id].sunk
    requires At(b, p).owner == Some(id) && !At(b, p).IsTried()
    ensures Shoot(b, p.0, p.1) == Ok((b', Hit))
    ensures WellFormed(b') && b'.ships == b.ships
    ensures forall q: Pos :: At(b', q) == if q == p then At(b, q).(hit := true) else At(b, q)
  {
    b' := CellShoot(b, p).0;
  }
}
