/** The current engine's board (class Board) together with the operations of
    Cell and Ship that reach across objects: the hit notification between a
    cell and its ship, sinking, and placement. The Java object graph becomes
    one value: the grid of cells, the fleet (the board's `ships` list, as ship
    ids) and a store of every Ship object used with the board, indexed by id.
    A cell's back-reference to its ship is the id of that ship in the store. */
module NavalBoard {
  import opened Base
  import opened Geometry
  import opened NavalShipType
  import opened NavalCell
  import opened NavalShip

  datatype Board = Board(grid: seq<seq<Cell>>, fleet: seq<ShipId>, ships: seq<Ship>)

  /** The grid is SIZE x SIZE. */
  predicate Shaped(b: Board) {
    |b.grid| == SIZE && forall r :: 0 <= r < SIZE ==> |b.grid[r]| == SIZE
  }

  /** The cell at a grid position. */
  function At(b: Board, p: Pos): Cell
    requires Shaped(b)
  {
    b.grid[p.0][p.1]
  }

  /** Every ship reference, from a cell or from the fleet, names a stored ship. */
  ghost predicate WellFormed(b: Board) {
    && Shaped(b)
    && (forall p: Pos :: At(b, p).owner.Some? ==> At(b, p).owner.value < |b.ships|)
    && (forall i :: 0 <= i < |b.fleet| ==> b.fleet[i] < |b.ships|)
  }

  /** Replaces the cell at p. */
  function Put(b: Board, p: Pos, c: Cell): (b': Board)
    requires Shaped(b)
    ensures Shaped(b') && b'.fleet == b.fleet && b'.ships == b.ships
    ensures forall q: Pos :: At(b', q) == if q == p then c else At(b, q)
    ensures WellFormed(b) && (c.owner.Some? ==> c.owner.value < |b.ships|) ==> WellFormed(b')
  {
    b.(grid := b.grid[p.0 := b.grid[p.0][p.1 := c]])
  }

  /** Replaces the stored ship with the given id. */
  function PutShip(b: Board, id: ShipId, s: Ship): (b': Board)
    requires WellFormed(b) && id < |b.ships|
    ensures WellFormed(b') && b'.grid == b.grid && b'.fleet == b.fleet
    ensures b'.ships == b.ships[id := s]
  {
    var b' := b.(ships := b.ships[id := s]);
    assert forall p: Pos :: At(b', p) == At(b, p);
    b'
  }

  /** Board.isValidPosition */
  predicate IsValidPosition(row: int, col: int) {
    0 <= row < SIZE && 0 <= col < SIZE
  }

  /** Board.getCell: the cell at (row, col), or IndexOutOfBoundsException
      exactly when the coordinate is off the grid. */
  function GetCell(b: Board, row: int, col: int): (r: Result<Cell>)
    requires Shaped(b)
    ensures r.Ok? <==> 0 <= row < SIZE && 0 <= col < SIZE
    ensures r.Ok? ==> r.value == At(b, (row, col))
    ensures r.Err? ==> r.error == IndexOutOfBounds
  {
    if IsValidPosition(row, col) then Ok(b.grid[row][col]) else Err(IndexOutOfBounds)
  }

  // ---------------------------------------------------------------------
  // Hits and sinking
  // ---------------------------------------------------------------------

  /** `cells.stream().allMatch(Cell::isHit)` over the given cells. */
  predicate AllCellsHit(b: Board, ps: seq<Pos>)
    requires Shaped(b)
  {
    forall k | 0 <= k < |ps| :: At(b, ps[k]).hit
  }

  /** The loop of Ship.markAsSunk over the ship's cells: setSunkPart(true) on each. */
  function MarkCells(b: Board, ps: seq<Pos>): (b': Board)
    requires Shaped(b)
    ensures Shaped(b') && b'.fleet == b.fleet && b'.ships == b.ships
    ensures forall q: Pos :: At(b', q) == if q in ps then SetSunkPart(At(b, q), true) else At(b, q)
    decreases |ps|
  {
    if ps == [] then b
    else MarkCells(Put(b, ps[0], SetSunkPart(At(b, ps[0]), true)), ps[1..])
  }

  /** Ship.markAsSunk: the ship is sunk and each of its cells is a hit sunk part. */
  function MarkAsSunk(b: Board, id: ShipId): (b': Board)
    requires WellFormed(b) && id < |b.ships|
    ensures WellFormed(b') && b'.fleet == b.fleet
    ensures b'.ships == b.ships[id := b.ships[id].(sunk := true)]
    ensures forall q: Pos :: q in b.ships[id].cells ==> At(b', q).sunkPart && At(b', q).hit
    ensures forall q: Pos :: q !in b.ships[id].cells ==> At(b', q) == At(b, q)
    ensures forall q: Pos :: q in b.ships[id].cells ==> At(b', q) == SetSunkPart(At(b, q), true)
  {
    var s := b.ships[id];
    var b1 := PutShip(b, id, s.(sunk := true));
    var b2 := MarkCells(b1, s.cells);
    assert forall q: Pos :: At(b2, q).owner == At(b, q).owner;
    b2
  }

  /** Cell.setHit. An already-hit cell is left alone; otherwise the flags are
      set first and only then, for a true argument on a ship cell, the owning
      ship is notified, in that order. Because the notification sees the cell
      already hit, it returns at once: setHit changes one cell and nothing
      else, and in particular never sinks a ship. */
  function SetHit(b: Board, p: Pos, v: bool): (b': Board)
    requires WellFormed(b)
    ensures WellFormed(b')
    ensures At(b, p).hit ==> b' == b
    ensures !At(b, p).hit ==> b' == Put(b, p, At(b, p).(hit := v, miss := false))
    decreases if At(b, p).hit then 0 else 1, 0
  {
    var cell := At(b, p);
    if cell.hit then b
    else
      var b1 := Put(b, p, SetHitFlag(cell, v));
      if v && cell.owner.Some? then NotifyHit(b1, cell.owner.value, p) else b1
  }

  /** Ship.notifyHit. A cell the ship does not list, or one already hit, is
      ignored. Otherwise the cell is hit (through setHit) and, when every cell
      of the ship is then hit, the ship is marked sunk. */
  function NotifyHit(b: Board, id: ShipId, p: Pos): (b': Board)
    requires WellFormed(b) && id < |b.ships|
    ensures WellFormed(b') && b'.fleet == b.fleet && |b'.ships| == |b.ships|
    ensures p !in b.ships[id].cells || At(b, p).hit ==> b' == b
    ensures p in b.ships[id].cells && !At(b, p).hit ==>
      && At(b', p).hit && At(b', p).owner == At(b, p).owner
      && (forall j :: 0 <= j < |b.ships| && j != id ==> b'.ships[j] == b.ships[j])
      && b'.ships[id].(sunk := b.ships[id].sunk) == b.ships[id]
      && (b'.ships[id].sunk <==> b.ships[id].sunk || AllCellsHit(b', b.ships[id].cells))
      && (AllCellsHit(b', b.ships[id].cells) ==> forall q :: q in b.ships[id].cells ==> At(b', q).sunkPart)
      && (forall q: Pos :: q != p && q !in b.ships[id].cells ==> At(b', q) == At(b, q))
      && (forall q: Pos :: q != p && q in b.ships[id].cells ==>
            At(b', q) == At(b, q) || (At(b, q).hit && At(b', q) == At(b, q).(sunkPart := true)))
    decreases if At(b, p).hit then 0 else 1, 1
  {
    var s := b.ships[id];
    if p !in s.cells || At(b, p).hit then b
    else
      var b1 := SetHit(b, p, true);
      if AllCellsHit(b1, b1.ships[id].cells) then MarkAsSunk(b1, id) else b1
  }

  /** Cell.shoot. A tried cell answers ALREADY_TRIED and nothing changes.
      Water becomes a miss. A ship cell becomes a hit and the answer is SUNK
      exactly when its ship was already sunk before the shot: the shot itself
      never changes any ship. */
  function CellShoot(b: Board, p: Pos): (res: (Board, ShotResult))
    requires WellFormed(b)
    ensures WellFormed(res.0)
    ensures res.0.ships == b.ships && res.0.fleet == b.fleet
    ensures res.1 == AlreadyTried <==> At(b, p).IsTried()
    ensures At(b, p).IsTried() ==> res.0 == b
    ensures !At(b, p).IsTried() && !At(b, p).IsShip() ==>
      res.1 == Miss && res.0 == Put(b, p, At(b, p).(miss := true))
    ensures !At(b, p).IsTried() && At(b, p).IsShip() ==>
      && res.0 == Put(b, p, At(b, p).(hit := true))
      && (res.1 == Sunk <==> b.ships[At(b, p).owner.value].sunk)
      && (res.1 == Hit <==> !b.ships[At(b, p).owner.value].sunk)
  {
    var cell := At(b, p);
    if cell.IsTried() then (b, AlreadyTried)
    else if cell.IsShip() then
      var b1 := SetHit(b, p, true);
      var owner := At(b1, p).owner;
      if owner.Some? && b1.ships[owner.value].sunk then (b1, Sunk) else (b1, Hit)
    else
      (Put(b, p, SetMiss(cell, true)), Miss)
  }

  /** Board.shoot: IndexOutOfBoundsException off the grid; otherwise the
      cell's shot, with HIT upgraded to SUNK when the cell's ship is sunk. The
      upgrade never fires: the answer is exactly the cell's own answer. */
  function Shoot(b: Board, row: int, col: int): (r: Result<(Board, ShotResult)>)
    requires WellFormed(b)
    ensures r.Ok? <==> 0 <= row < SIZE && 0 <= col < SIZE
    ensures r.Err? ==> r.error == IndexOutOfBounds
    ensures r.Ok? ==> r.value == CellShoot(b, (row, col))
  {
    match GetCell(b, row, col)
    case Err(e) => Err(e)
    case Ok(_) =>
      var p: Pos := (row, col);
      var (b1, res) := CellShoot(b, p);
      var owner := At(b1, p).owner;
      if res == Hit && owner.Some? && b1.ships[owner.value].sunk then Ok((b1, Sunk))
      else Ok((b1, res))
  }

  // ---------------------------------------------------------------------
  // Placement
  // ---------------------------------------------------------------------

  /** No ship cell in the 3x3 neighbourhood of p, p included. */
  ghost predicate NoShipNear(b: Board, p: Coord)
    requires Shaped(b)
  {
    forall q: Pos :: Near(q, p) ==> !At(b, q).IsShip()
  }

  /** The condition Board.isCellFreeForShipPlacement computes. */
  predicate CellFree(b: Board, row: int, col: int)
    requires Shaped(b)
  {
    forall r, c | row - 1 <= r <= row + 1 && col - 1 <= c <= col + 1 && IsValidPosition(r, c) ::
      !b.grid[r][c].IsShip()
  }

  lemma CellFreeMeaning(b: Board, row: int, col: int)
    requires Shaped(b)
    ensures CellFree(b, row, col) <==> NoShipNear(b, (row, col))
  {
    if CellFree(b, row, col) {
      forall q: Pos | Near(q, (row, col))
        ensures !At(b, q).IsShip()
      {
        assert IsValidPosition(q.0, q.1);
      }
    } else {
      var r, c :| row - 1 <= r <= row + 1 && col - 1 <= c <= col + 1 && IsValidPosition(r, c) && b.grid[r][c].IsShip();
      var q: Pos := (r, c);
      assert Near(q, (row, col)) && At(b, q).IsShip();
    }
  }

  /** Board.isCellFreeForShipPlacement: the two nested loops over the 3x3
      neighbourhood of (row, col), skipping positions off the grid. */
  method IsCellFreeForShipPlacement(b: Board, row: int, col: int) returns (free: bool)
    requires Shaped(b)
    ensures free <==> forall q: Pos :: Near(q, (row, col)) ==> !At(b, q).IsShip()
  {
    var r := row - 1;
    while r <= row + 1
      invariant row - 1 <= r <= row + 2
      invariant forall q: Pos :: Near(q, (row, col)) && q.0 < r ==> !At(b, q).IsShip()
    {
      var c := col - 1;
      while c <= col + 1
        invariant col - 1 <= c <= col + 2
        invariant forall q: Pos :: Near(q, (row, col)) && q.0 < r ==> !At(b, q).IsShip()
        invariant forall q: Pos :: Near(q, (row, col)) && q.0 == r && q.1 < c ==> !At(b, q).IsShip()
      {
        if IsValidPosition(r, c) && b.grid[r][c].IsShip() {
          var q: Pos := (r, c);
          assert Near(q, (row, col)) && At(b, q).IsShip();
          return false;
        }
        c := c + 1;
      }
      r := r + 1;
    }
    return true;
  }

  /** The check of Board.canPlaceShip for one ship size, segment by segment:
      on the grid, not a ship cell, and no ship cell around it. */
  predicate CanPlace(b: Board, n: int, row: int, col: int, horizontal: bool)
    requires Shaped(b)
  {
    forall i | 0 <= i < n ::
      IsValidPosition(SegmentAt(row, col, horizontal, i).0, SegmentAt(row, col, horizontal, i).1)
      && !b.grid[SegmentAt(row, col, horizontal, i).0][SegmentAt(row, col, horizontal, i).1].IsShip()
      && CellFree(b, SegmentAt(row, col, horizontal, i).0, SegmentAt(row, col, horizontal, i).1)
  }

  /** Board.canPlaceShip (and Ship.canPlaceAt, which repeats the same checks
      through Board's accessors). Any ship cell blocks, including the cells
      the ship being placed occupies already. */
  predicate CanPlaceShip(b: Board, id: ShipId, row: int, col: int, horizontal: bool)
    requires WellFormed(b) && id < |b.ships|
  {
    CanPlace(b, GetSize(b.ships[id]), row, col, horizontal)
  }

  /** What a legal placement is: every segment on the grid with no ship
      cell in its 3x3 neighbourhood. */
  ghost predicate Placeable(b: Board, n: int, row: int, col: int, horizontal: bool)
    requires Shaped(b)
  {
    forall i | 0 <= i < n ::
      InBounds(SegmentAt(row, col, horizontal, i)) && NoShipNear(b, SegmentAt(row, col, horizontal, i))
  }

  /** canPlaceShip holds exactly for legal placements; its separate "not a
      ship cell" test is implied by the neighbourhood test. */
  lemma CanPlaceMeaning(b: Board, n: int, row: int, col: int, horizontal: bool)
    requires Shaped(b)
    ensures CanPlace(b, n, row, col, horizontal) <==> Placeable(b, n, row, col, horizontal)
  {
    forall i | 0 <= i < n
      ensures CellFree(b, SegmentAt(row, col, horizontal, i).0, SegmentAt(row, col, horizontal, i).1)
          <==> NoShipNear(b, SegmentAt(row, col, horizontal, i))
    {
      CellFreeMeaning(b, SegmentAt(row, col, horizontal, i).0, SegmentAt(row, col, horizontal, i).1);
    }
    if Placeable(b, n, row, col, horizontal) {
      forall i | 0 <= i < n
        ensures !b.grid[SegmentAt(row, col, horizontal, i).0][SegmentAt(row, col, horizontal, i).1].IsShip()
      {
        var p: Pos := SegmentAt(row, col, horizontal, i);
        assert Near(p, p);
      }
    }
  }

  /** The same for Ship.canPlaceAt: a ship fits exactly when each of its
      size's segments is on the grid, is not a ship cell and has no ship cell
      next to it, whichever ship that is, itself included. */
  lemma CanPlaceAtMeaning(b: Board, id: ShipId, row: int, col: int, horizontal: bool)
    requires WellFormed(b) && id < |b.ships|
    ensures CanPlaceShip(b, id, row, col, horizontal) <==>
      forall i | 0 <= i < Size(b.ships[id].kind) ::
        var p := SegmentAt(row, col, horizontal, i);
        InBounds(p) && !At(b, p).IsShip() && forall q: Pos :: Near(q, p) ==> At(b, q).owner.None?
  {
    CanPlaceMeaning(b, GetSize(b.ships[id]), row, col, horizontal);
  }

  /** The segments of a legal placement, as grid positions. */
  function Cells(n: nat, row: int, col: int, horizontal: bool): (s: seq<Pos>)
    requires forall i | 0 <= i < n :: InBounds(SegmentAt(row, col, horizontal, i))
    ensures s == Segment(row, col, horizontal, n)
  {
    seq(n, i requires 0 <= i < n => SegmentAt(row, col, horizontal, i))
  }

  /** Ship.addCell: a cell the ship does not list yet is appended and pointed
      back at the ship; a listed cell changes nothing. */
  function AddCell(b: Board, id: ShipId, p: Pos): (b': Board)
    requires WellFormed(b) && id < |b.ships|
    ensures WellFormed(b') && b'.fleet == b.fleet && |b'.ships| == |b.ships|
    ensures p in b.ships[id].cells ==> b' == b
    ensures p !in b.ships[id].cells ==>
      && b'.ships == b.ships[id := b.ships[id].(cells := b.ships[id].cells + [p])]
      && (forall q: Pos :: At(b', q) == if q == p then SetShip(At(b, q), Some(id)) else At(b, q))
  {
    var s := b.ships[id];
    if p in s.cells then b
    else Put(PutShip(b, id, s.(cells := s.cells + [p])), p, SetShip(At(b, p), Some(id)))
  }

  /** The loop of Ship.placeAt: addCell on each segment in turn. Only ship
      `id` and the cells it is given can change. */
  function AddCells(b: Board, id: ShipId, ps: seq<Pos>): (b': Board)
    requires WellFormed(b) && id < |b.ships|
    ensures WellFormed(b') && b'.fleet == b.fleet && |b'.ships| == |b.ships|
    ensures forall j :: 0 <= j < |b.ships| && j != id ==> b'.ships[j] == b.ships[j]
    ensures b'.ships[id].(cells := b.ships[id].cells) == b.ships[id]
    decreases |ps|
  {
    if ps == [] then b
    else AddCells(AddCell(b, id, ps[0]), id, ps[1..])
  }

  /** The tail of a list holds only entries of the list other than its
      head, when the list has no repeats. */
  lemma DistinctTail<T>(ps: seq<T>)
    requires Distinct(ps) && ps != []
    ensures Distinct(ps[1..])
    ensures forall q :: q in ps[1..] ==> q in ps && q != ps[0]
  {
    forall q | q in ps[1..]
      ensures q in ps && q != ps[0]
    {
      var k :| 0 <= k < |ps[1..]| && ps[1..][k] == q;
      assert ps[k + 1] == q;
    }
  }

  /** Over distinct cells the ship does not list yet, AddCells appends them
      to the ship's list in order. */
  lemma {:induction false} AddCellsAppends(b: Board, id: ShipId, ps: seq<Pos>)
    requires WellFormed(b) && id < |b.ships|
    requires Distinct(ps) && forall q :: q in ps ==> q !in b.ships[id].cells
    ensures AddCells(b, id, ps).ships[id].cells == b.ships[id].cells + ps
    decreases |ps|
  {
    if ps != [] {
      var b1 := AddCell(b, id, ps[0]);
      DistinctTail(ps);
      AddCellsAppends(b1, id, ps[1..]);
      assert b.ships[id].cells + ps == (b.ships[id].cells + [ps[0]]) + ps[1..];
    }
  }

  /** Over distinct cells the ship does not list yet, AddCells points each
      of them back at the ship and leaves every other cell alone. */
  lemma {:induction false} AddCellsMarks(b: Board, id: ShipId, ps: seq<Pos>)
    requires WellFormed(b) && id < |b.ships|
    requires Distinct(ps) && forall q :: q in ps ==> q !in b.ships[id].cells
    ensures forall q: Pos :: At(AddCells(b, id, ps), q) == if q in ps then SetShip(At(b, q), Some(id)) else At(b, q)
    decreases |ps|
  {
    if ps != [] {
      var b1 := AddCell(b, id, ps[0]);
      DistinctTail(ps);
      AddCellsMarks(b1, id, ps[1..]);
      forall q: Pos
        ensures At(AddCells(b, id, ps), q) == if q in ps then SetShip(At(b, q), Some(id)) else At(b, q)
      {
        if q == ps[0] {
          assert q !in ps[1..];
        }
      }
    }
  }

  /** Ship.placeAt: refused without change when canPlaceAt fails; otherwise
      the orientation is recorded, the ship's cell list is emptied (the cells
      it held keep pointing at it) and the size consecutive cells from
      (row, col) are bound to the ship. */
  function PlaceAt(b: Board, id: ShipId, row: int, col: int, horizontal: bool): (res: (Board, bool))
    requires WellFormed(b) && id < |b.ships|
    ensures WellFormed(res.0) && res.0.fleet == b.fleet && |res.0.ships| == |b.ships|
    ensures !CanPlaceShip(b, id, row, col, horizontal) ==> res == (b, false)
    ensures CanPlaceShip(b, id, row, col, horizontal) ==>
      var seg := Segment(row, col, horizontal, GetSize(b.ships[id]));
      && res.1
      && res.0.ships == b.ships[id := b.ships[id].(horizontal := horizontal, cells := seg)]
      && (forall q: Pos :: At(res.0, q) == if q in seg then SetShip(At(b, q), Some(id)) else At(b, q))
  {
    if !CanPlaceShip(b, id, row, col, horizontal) then (b, false)
    else
      var s := b.ships[id];
      var n := GetSize(s);
      CanPlaceMeaning(b, n, row, col, horizontal);
      var seg := Cells(n, row, col, horizontal);
      SegmentDistinct(row, col, horizontal, n);
      var b1 := PutShip(b, id, s.(horizontal := horizontal, cells := []));
      AddCellsAppends(b1, id, seg);
      AddCellsMarks(b1, id, seg);
      var b2 := AddCells(b1, id, seg);
      assert b2.ships[id] == s.(horizontal := horizontal, cells := seg);
      assert b2.ships == b.ships[id := s.(horizontal := horizontal, cells := seg)];
      (b2, true)
  }

  /** Board.addShip: refused without change unless canPlaceShip holds; then
      the ship is placed and appended to the fleet unless already in it. */
  function AddShip(b: Board, id: ShipId, row: int, col: int, horizontal: bool): (res: (Board, bool))
    requires WellFormed(b) && id < |b.ships|
    ensures WellFormed(res.0) && |res.0.ships| == |b.ships|
    ensures res.1 <==> CanPlaceShip(b, id, row, col, horizontal)
    ensures !res.1 ==> res.0 == b
    ensures res.1 ==>
      var seg := Segment(row, col, horizontal, GetSize(b.ships[id]));
      && res.0.ships == b.ships[id := b.ships[id].(horizontal := horizontal, cells := seg)]
      && (forall q: Pos :: At(res.0, q) == if q in seg then SetShip(At(b, q), Some(id)) else At(b, q))
      && res.0.fleet == (if id in b.fleet then b.fleet else b.fleet + [id])
  {
    if !CanPlaceShip(b, id, row, col, horizontal) then (b, false)
    else
      var b1 := PlaceAt(b, id, row, col, horizontal).0;
      if id in b1.fleet then (b1, true)
      else
        JoinFleet(b1, id);
        (b1.(fleet := b1.fleet + [id]), true)
  }

  /** Appending a stored ship to the fleet leaves every cell as it was. */
  lemma JoinFleet(b: Board, id: ShipId)
    requires WellFormed(b) && id < |b.ships|
    ensures var b' := b.(fleet := b.fleet + [id]);
      WellFormed(b') && forall q: Pos :: At(b', q) == At(b, q)
  {
    var b' := b.(fleet := b.fleet + [id]);
    assert forall q: Pos :: At(b', q) == At(b, q);
  }

  // ---------------------------------------------------------------------
  // Progress, reset, construction
  // ---------------------------------------------------------------------

  /** Board.allShipsPlaced: ten ships, each holding as many cells as its size. */
  predicate AllShipsPlaced(b: Board)
    requires WellFormed(b)
  {
    |b.fleet| == 10 && forall i | 0 <= i < |b.fleet| :: |b.ships[b.fleet[i]].cells| == GetSize(b.ships[b.fleet[i]])
  }

  /** Board.allShipsSunk: every ship of the fleet is sunk (true for no ships). */
  predicate AllShipsSunk(b: Board)
    requires WellFormed(b)
  {
    forall i | 0 <= i < |b.fleet| :: b.ships[b.fleet[i]].sunk
  }

  /** The two fleet oracles in terms of the ships in the fleet. An empty
      fleet is all sunk but not all placed. All sunk means the fleet's ids
      lie among the ids of sunk ships. All placed means exactly ten fleet
      ships, each holding as many cells as its type's size. */
  lemma FleetOracles(b: Board)
    requires WellFormed(b)
    ensures b.fleet == [] ==> AllShipsSunk(b) && !AllShipsPlaced(b)
    ensures AllShipsSunk(b) <==>
      (set i | 0 <= i < |b.fleet| :: b.fleet[i]) <= (set j | 0 <= j < |b.ships| && b.ships[j].sunk)
    ensures AllShipsPlaced(b) <==>
      |b.fleet| == 10 && forall id | id in b.fleet :: id < |b.ships| && |b.ships[id].cells| == Size(b.ships[id].kind)
  {
    var ids := set i | 0 <= i < |b.fleet| :: b.fleet[i];
    var sunk := set j | 0 <= j < |b.ships| && b.ships[j].sunk;
    if AllShipsSunk(b) {
      forall id | id in ids
        ensures id in sunk
      {
        var i :| 0 <= i < |b.fleet| && b.fleet[i] == id;
      }
    } else {
      var i :| 0 <= i < |b.fleet| && !b.ships[b.fleet[i]].sunk;
      assert b.fleet[i] in ids && b.fleet[i] !in sunk;
    }
    if AllShipsPlaced(b) {
      forall id | id in b.fleet
        ensures id < |b.ships| && |b.ships[id].cells| == Size(b.ships[id].kind)
      {
        var i :| 0 <= i < |b.fleet| && b.fleet[i] == id;
      }
    }
  }

  /** Board.clear: every cell cleared and the fleet emptied. The Ship objects
      themselves are not touched. */
  function Clear(b: Board): (b': Board)
    requires Shaped(b)
    ensures WellFormed(b') && b'.fleet == [] && b'.ships == b.ships
    ensures forall q: Pos :: At(b', q) == NavalCell.Clear(At(b, q))
  {
    Board(seq(SIZE, r requires 0 <= r < SIZE => seq(SIZE, c requires 0 <= c < SIZE => NavalCell.Clear(b.grid[r][c]))),
          [], b.ships)
  }

  /** new Board(): a grid of fresh cells, no fleet, no ships. */
  function NewBoard(): (b: Board)
    ensures WellFormed(b) && b.fleet == [] && b.ships == []
    ensures forall q: Pos :: At(b, q) == NewCell(q.0, q.1)
  {
    Board(seq(SIZE, r => seq(SIZE, c => NewCell(r, c))), [], [])
  }

  /** The whole grid is untouched water. */
  ghost predicate Empty(b: Board)
    requires Shaped(b)
  {
    forall q: Pos :: !At(b, q).IsShip() && !At(b, q).IsTried() && !At(b, q).sunkPart
  }

  /** The `tried` view of the board that the AI consults. */
  function TriedOn(b: Board): (tried: Pos -> bool)
    requires Shaped(b)
    ensures forall q: Pos :: tried(q) == At(b, q).IsTried()
  {
    (q: Pos) => At(b, q).IsTried()
  }
}
