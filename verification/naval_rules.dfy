/** Invariants of the current engine's board and the theorems about them:
    ships never touch, hit and miss stay exclusive, a ship's cells point back
    at it, and shooting can neither sink a ship nor end the game. */
module NavalRules {
  import opened Base
  import opened Geometry
  import opened NavalShipType
  import opened NavalCell
  import opened NavalShip
  import opened NavalBoard

  /** No-touching: two ship cells in each other's 3x3 neighbourhood belong
      to the same ship. */
  ghost predicate NoTouching(b: Board)
    requires Shaped(b)
  {
    forall p: Pos, q: Pos {:trigger Near(p, q)} :: Near(p, q) && At(b, p).IsShip() && At(b, q).IsShip() ==> At(b, p).owner == At(b, q).owner
  }

  /** Every cell is Sane: `hit` and `miss` exclusive, sunk parts hit. */
  ghost predicate CellsSane(b: Board)
    requires Shaped(b)
  {
    forall p: Pos :: Sane(At(b, p))
  }

  /** Back-references are current: a ship cell is listed by its ship. */
  ghost predicate Listed(b: Board)
    requires WellFormed(b)
  {
    forall p: Pos :: At(b, p).owner.Some? ==> p in b.ships[At(b, p).owner.value].cells
  }

  /** A ship that owns a cell and is sunk has every one of its cells hit. */
  ghost predicate SunkAllHit(b: Board)
    requires WellFormed(b)
  {
    forall p: Pos :: At(b, p).owner.Some? && b.ships[At(b, p).owner.value].sunk ==>
      AllCellsHit(b, b.ships[At(b, p).owner.value].cells)
  }

  /** The board state that placement and shooting keep when ships are placed once. */
  ghost predicate Coherent(b: Board) {
    WellFormed(b) && Listed(b) && SunkAllHit(b)
  }

  // ---------------------------------------------------------------------
  // Placement keeps ships apart
  // ---------------------------------------------------------------------

  lemma NearSymmetric(p: Coord, q: Coord)
    ensures Near(p, q) <==> Near(q, p)
  {
  }

  /** Every segment of a legal placement has no ship cell around it. */
  lemma PlaceableSegmentsClear(b: Board, n: nat, row: int, col: int, horizontal: bool)
    requires Shaped(b) && Placeable(b, n, row, col, horizontal)
    ensures forall p: Pos :: p in Segment(row, col, horizontal, n) ==> NoShipNear(b, p)
  {
    forall p: Pos | p in Segment(row, col, horizontal, n)
      ensures NoShipNear(b, p)
    {
      InSegment(row, col, horizontal, n, p);
    }
  }

  /** Turning cells with no ship cell around them into cells of one ship
      keeps ships apart. */
  lemma MarkClearCellsKeepsNoTouching(b: Board, b': Board, seg: seq<Coord>, id: ShipId)
    requires Shaped(b) && Shaped(b') && NoTouching(b)
    requires forall q: Pos :: At(b', q) == if q in seg then SetShip(At(b, q), Some(id)) else At(b, q)
    requires forall p: Pos :: p in seg ==> NoShipNear(b, p)
    ensures NoTouching(b')
  {
    forall p: Pos, q: Pos | Near(p, q) && At(b', p).IsShip() && At(b', q).IsShip()
      ensures At(b', p).owner == At(b', q).owner
    {
      if p in seg && q !in seg {
        assert false;
      } else if q in seg && p !in seg {
        assert false;
      }
    }
  }

  /** A successful placeAt leaves no ship touching another one. */
  lemma PlaceAtKeepsNoTouching(b: Board, id: ShipId, row: int, col: int, horizontal: bool)
    requires WellFormed(b) && id < |b.ships| && NoTouching(b)
    ensures NoTouching(PlaceAt(b, id, row, col, horizontal).0)
  {
    if CanPlaceShip(b, id, row, col, horizontal) {
      var n := GetSize(b.ships[id]);
      CanPlaceMeaning(b, n, row, col, horizontal);
      PlaceableSegmentsClear(b, n, row, col, horizontal);
      MarkClearCellsKeepsNoTouching(b, PlaceAt(b, id, row, col, horizontal).0, Segment(row, col, horizontal, n), id);
    }
  }

  /** Board.addShip keeps the no-touching rule. */
  lemma AddShipKeepsNoTouching(b: Board, id: ShipId, row: int, col: int, horizontal: bool)
    requires WellFormed(b) && id < |b.ships| && NoTouching(b)
    ensures NoTouching(AddShip(b, id, row, col, horizontal).0)
  {
    PlaceAtKeepsNoTouching(b, id, row, col, horizontal);
    var b1 := PlaceAt(b, id, row, col, horizontal).0;
    var b2 := AddShip(b, id, row, col, horizontal).0;
    assert forall q: Pos :: At(b2, q) == At(b1, q);
  }

  /** Cells of ship `id` marked on the grid and listed as its cells, where
      the ship listed none before and no other ship or flag changes. */
  ghost predicate MarkedFresh(b: Board, b': Board, seg: seq<Pos>, id: ShipId)
    requires WellFormed(b) && WellFormed(b') && id < |b.ships|
  {
    && |b'.ships| == |b.ships| && b.ships[id].cells == []
    && b'.ships[id].cells == seg && b'.ships[id].sunk == b.ships[id].sunk
    && (forall j | 0 <= j < |b.ships| && j != id :: b'.ships[j] == b.ships[j])
    && (forall q: Pos :: At(b', q) == if q in seg then SetShip(At(b, q), Some(id)) else At(b, q))
  }

  /** Marking a fresh ship's cells keeps every back-reference listed. */
  lemma MarkFreshKeepsListed(b: Board, b': Board, seg: seq<Pos>, id: ShipId)
    requires WellFormed(b) && WellFormed(b') && id < |b.ships| && Listed(b)
    requires MarkedFresh(b, b', seg, id)
    ensures Listed(b')
  {
    forall p: Pos | At(b', p).owner.Some? && p !in seg
      ensures p in b'.ships[At(b', p).owner.value].cells
    {
      assert At(b', p) == At(b, p);
      assert At(b, p).owner.value != id;
    }
  }

  /** Marking a fresh, afloat ship's cells keeps sunk ships fully hit. */
  lemma MarkFreshKeepsSunkAllHit(b: Board, b': Board, seg: seq<Pos>, id: ShipId)
    requires WellFormed(b) && WellFormed(b') && id < |b.ships| && Listed(b) && SunkAllHit(b)
    requires MarkedFresh(b, b', seg, id) && !b.ships[id].sunk
    ensures SunkAllHit(b')
  {
    forall p: Pos | At(b', p).owner.Some? && b'.ships[At(b', p).owner.value].sunk
      ensures AllCellsHit(b', b'.ships[At(b', p).owner.value].cells)
    {
      var j := At(b', p).owner.value;
      assert j != id;
      assert At(b', p) == At(b, p);
      var cs := b.ships[j].cells;
      forall k | 0 <= k < |cs|
        ensures At(b', cs[k]).hit
      {
        assert At(b, cs[k]).hit;
      }
    }
  }

  /** Placing a ship that holds no cells yet and is afloat keeps the board
      coherent: only its new cells point at it, and they are listed. */
  lemma PlaceFreshKeepsCoherent(b: Board, id: ShipId, row: int, col: int, horizontal: bool)
    requires Coherent(b) && id < |b.ships| && b.ships[id].cells == [] && !b.ships[id].sunk
    ensures Coherent(PlaceAt(b, id, row, col, horizontal).0)
  {
    var b' := PlaceAt(b, id, row, col, horizontal).0;
    if CanPlaceShip(b, id, row, col, horizontal) {
      var seg := Segment(row, col, horizontal, GetSize(b.ships[id]));
      CanPlaceMeaning(b, GetSize(b.ships[id]), row, col, horizontal);
      var cells: seq<Pos> := seg;
      assert MarkedFresh(b, b', cells, id);
      MarkFreshKeepsListed(b, b', cells, id);
      MarkFreshKeepsSunkAllHit(b, b', cells, id);
    }
  }

  // ---------------------------------------------------------------------
  // Shooting
  // ---------------------------------------------------------------------

  /** A shot keeps hit and miss exclusive and sunk parts hit. */
  lemma CellShootKeepsSane(b: Board, p: Pos)
    requires WellFormed(b) && CellsSane(b)
    ensures CellsSane(CellShoot(b, p).0)
  {
  }

  /** A shot keeps the board coherent: owners and ships are untouched and
      hits only accumulate. */
  lemma CellShootKeepsCoherent(b: Board, p: Pos)
    requires Coherent(b)
    ensures Coherent(CellShoot(b, p).0)
  {
    var b' := CellShoot(b, p).0;
    forall q: Pos | At(b', q).owner.Some? && b'.ships[At(b', q).owner.value].sunk
      ensures AllCellsHit(b', b'.ships[At(b', q).owner.value].cells)
    {
      var cs := b.ships[At(b, q).owner.value].cells;
      forall k | 0 <= k < |cs|
        ensures At(b', cs[k]).hit
      {
        assert At(b, cs[k]).hit;
      }
    }
  }

  /** On a coherent board a shot never answers SUNK: an untried ship cell is
      listed by its ship, and a sunk ship has all its listed cells hit. */
  lemma CoherentShotNeverSunk(b: Board, p: Pos)
    requires Coherent(b)
    ensures CellShoot(b, p).1 != Sunk
  {
  }

  /** The board after firing at each coordinate in turn (a shot off the grid
      throws and changes nothing). */
  ghost function Volley(b: Board, shots: seq<Coord>): (b': Board)
    requires WellFormed(b)
    ensures WellFormed(b')
    decreases |shots|
  {
    if shots == [] then b
    else
      var r := Shoot(b, shots[0].0, shots[0].1);
      Volley(if r.Ok? then r.value.0 else b, shots[1..])
  }

  /** Shooting never changes a ship or the fleet, so however many shots are
      fired, allShipsSunk keeps the value it had before the first one. */
  lemma {:induction false} VolleyNeverSinks(b: Board, shots: seq<Coord>)
    requires WellFormed(b)
    ensures Volley(b, shots).ships == b.ships && Volley(b, shots).fleet == b.fleet
    ensures AllShipsSunk(Volley(b, shots)) == AllShipsSunk(b)
    decreases |shots|
  {
    if shots != [] {
      var r := Shoot(b, shots[0].0, shots[0].1);
      VolleyNeverSinks(if r.Ok? then r.value.0 else b, shots[1..]);
    }
  }

  /** Ship.notifyHit called directly, as the ship's own test does, on the
      last unhit cell of a ship sinks it and marks all its cells. */
  lemma NotifyLastCellSinks(b: Board, id: ShipId, p: Pos)
    requires WellFormed(b) && id < |b.ships|
    requires p in b.ships[id].cells && !At(b, p).hit
    requires forall q :: q in b.ships[id].cells && q != p ==> At(b, q).hit
    ensures NotifyHit(b, id, p).ships[id].sunk
    ensures forall q :: q in b.ships[id].cells ==> At(NotifyHit(b, id, p), q).sunkPart
  {
    var b' := NotifyHit(b, id, p);
    var cs := b.ships[id].cells;
    forall k | 0 <= k < |cs|
      ensures At(b', cs[k]).hit
    {
      if cs[k] != p {
        assert At(b, cs[k]).hit;
      }
    }
  }

  /** Sinking is monotone: notifyHit never refloats a ship. */
  lemma NotifyKeepsSunk(b: Board, id: ShipId, p: Pos, j: ShipId)
    requires WellFormed(b) && id < |b.ships| && j < |b.ships| && b.ships[j].sunk
    ensures NotifyHit(b, id, p).ships[j].sunk
  {
  }

  // ---------------------------------------------------------------------
  // Re-placement
  // ---------------------------------------------------------------------

  /** A placed ship blocks itself: repeating a successful addShip fails,
      because the cells the ship now holds count as occupied. */
  lemma ShipBlocksItself(b: Board, id: ShipId, row: int, col: int, horizontal: bool)
    requires WellFormed(b) && id < |b.ships|
    requires AddShip(b, id, row, col, horizontal).1
    ensures !AddShip(AddShip(b, id, row, col, horizontal).0, id, row, col, horizontal).1
  {
    var b1 := AddShip(b, id, row, col, horizontal).0;
    var p: Pos := (row, col);
    assert SegmentAt(row, col, horizontal, 0) == p;
    assert At(b1, p).IsShip();
  }

  /** Re-placing a ship elsewhere empties its cell list but leaves the cells
      it held marked as ship cells pointing at it: stale back-references. */
  lemma ReplacementLeavesStaleCells(b: Board, id: ShipId, r1: int, c1: int, h1: bool, r2: int, c2: int, h2: bool, q: Pos)
    requires WellFormed(b) && id < |b.ships|
    requires AddShip(b, id, r1, c1, h1).1
    requires AddShip(AddShip(b, id, r1, c1, h1).0, id, r2, c2, h2).1
    requires q in Segment(r1, c1, h1, GetSize(b.ships[id])) && q !in Segment(r2, c2, h2, GetSize(b.ships[id]))
    ensures var b2 := AddShip(AddShip(b, id, r1, c1, h1).0, id, r2, c2, h2).0;
      At(b2, q).owner == Some(id) && q !in b2.ships[id].cells
  {
  }
}
