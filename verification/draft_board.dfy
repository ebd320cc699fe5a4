/** The earlier draft's board (class Board): a grid of flag cells and the
    list of ships placed on it. Cells do not know their ship; a ship knows
    its coordinates. Placement checks only the far edge and overlap, a
    shot answers a boolean, and sinking is a separate explicit step. */
module DraftBoard {
  import opened Base
  import opened Geometry
  import opened DraftShipType
  import opened DraftCell
  import opened DraftShip

  datatype Board = Board(grid: seq<seq<Cell>>, ships: seq<Ship>)

  /** The grid is SIZE x SIZE. */
  predicate Shaped(b: Board) {
    |b.grid| == SIZE && forall r :: 0 <= r < SIZE ==> |b.grid[r]| == SIZE
  }

  /** The cell at a grid position. */
  function At(b: Board, p: Pos): Cell
    requires Shaped(b)
  {
    b.grid[p.0][p.1]
  }

  /** Replaces the cell at p. */
  function Put(b: Board, p: Pos, c: Cell): (b': Board)
    requires Shaped(b)
    ensures Shaped(b') && b'.ships == b.ships
    ensures forall q: Pos :: At(b', q) == if q == p then c else At(b, q)
  {
    b.(grid := b.grid[p.0 := b.grid[p.0][p.1 := c]])
  }

  /** new Board(): SIZE x SIZE fresh cells and no ships. */
  function NewBoard(): (b: Board)
    ensures Shaped(b) && b.ships == []
    ensures forall q: Pos :: At(b, q) == NewCell()
  {
    Board(seq(SIZE, r => seq(SIZE, c => NewCell())), [])
  }

  /** Board.getCell: a raw array access, which throws outside the grid. */
  function GetCell(b: Board, r: int, c: int): (res: Result<Cell>)
    requires Shaped(b)
    ensures res.Ok? <==> InBounds((r, c))
    ensures res.Ok? ==> res.value == At(b, (r, c))
    ensures res.Err? ==> res.error == ArrayIndexOutOfBounds
  {
    if InBounds((r, c)) then Ok(At(b, (r, c))) else Err(ArrayIndexOutOfBounds)
  }

  /** The `tried` view of the board that the AI consults. */
  function TriedOn(b: Board): (tried: Pos -> bool)
    requires Shaped(b)
    ensures forall q: Pos :: tried(q) == At(b, q).IsTried()
  {
    (q: Pos) => At(b, q).IsTried()
  }

  /** A grid coordinate whose cell carries the ship flag. */
  predicate ShipAt(b: Board, q: Coord)
    requires Shaped(b)
  {
    InBounds(q) && At(b, q).ship
  }

  /** A grid coordinate whose cell does not carry the ship flag. */
  predicate FreeAt(b: Board, q: Coord)
    requires Shaped(b)
  {
    InBounds(q) && !At(b, q).ship
  }

  // ---------------------------------------------------------------------
  // Placement
  // ---------------------------------------------------------------------

  /** The scanning loop of canPlace from segment i on: false at the first
      ship cell, an ArrayIndexOutOfBoundsException at the first coordinate
      off the grid, true when every segment was free. */
  function ScanFree(b: Board, r: int, c: int, horizontal: bool, i: nat, len: int): (res: Result<bool>)
    requires Shaped(b)
    ensures res == Ok(true) <==> forall k | i <= k < len :: FreeAt(b, SegmentAt(r, c, horizontal, k))
    ensures res == Ok(false) ==> exists k | i <= k < len :: ShipAt(b, SegmentAt(r, c, horizontal, k))
    ensures res.Err? ==> res.error == ArrayIndexOutOfBounds
    ensures res.Err? ==> exists k | i <= k < len :: !InBounds(SegmentAt(r, c, horizontal, k))
    decreases len - i
  {
    if i >= len then Ok(true)
    else
      var q := SegmentAt(r, c, horizontal, i);
      if !InBounds(q) then Err(ArrayIndexOutOfBounds)
      else if At(b, q).ship then Ok(false)
      else ScanFree(b, r, c, horizontal, i + 1, len)
  }

  /** The far-edge test of canPlace: the last segment stays inside the
      grid in the direction of travel. */
  predicate EndFits(r: int, c: int, len: int, horizontal: bool) {
    (if horizontal then c else r) + len <= SIZE
  }

  /** Board.canPlace: false when the ship would pass the far edge or cover
      a ship cell. There is no adjacency rule, and the start is assumed
      to be on the grid: a start off it throws once the loop reaches it. */
  function CanPlace(b: Board, r: int, c: int, len: int, horizontal: bool): (res: Result<bool>)
    requires Shaped(b)
    ensures res == Ok(true) <==> EndFits(r, c, len, horizontal) && forall k | 0 <= k < len :: FreeAt(b, SegmentAt(r, c, horizontal, k))
    ensures !EndFits(r, c, len, horizontal) ==> res == Ok(false)
    ensures EndFits(r, c, len, horizontal) && res == Ok(false) ==> exists k | 0 <= k < len :: ShipAt(b, SegmentAt(r, c, horizontal, k))
    ensures InBounds((r, c)) ==> res.Ok?
    ensures res.Err? ==> res.error == ArrayIndexOutOfBounds
  {
    if !EndFits(r, c, len, horizontal) then Ok(false)
    else
      assert InBounds((r, c)) ==> forall k | 0 <= k < len :: InBounds(SegmentAt(r, c, horizontal, k));
      ScanFree(b, r, c, horizontal, 0, len)
  }

  /** The marking loop of placeShip over the cells `seg` still to mark:
      each cell gets the ship flag and the ship gets the coordinate. */
  function PlaceFrom(b: Board, s: Ship, seg: seq<Coord>): (res: (Board, Ship))
    requires Shaped(b) && forall k | 0 <= k < |seg| :: InBounds(seg[k])
    ensures Shaped(res.0) && res.0.ships == b.ships
    ensures res.1 == s.(coords := s.coords + seg)
    ensures forall q: Pos :: At(res.0, q) == if q in seg then SetShip(At(b, q), true) else At(b, q)
    decreases |seg|
  {
    if seg == [] then (b, s)
    else
      var q: Pos := seg[0];
      var res := PlaceFrom(Put(b, q, SetShip(At(b, q), true)), AddCoord(s, q.0, q.1), seg[1..]);
      assert s.coords + [q] + seg[1..] == s.coords + seg;
      res
  }

  /** Board.placeShip: PlacementException with nothing changed when
      canPlace refuses (and canPlace's own exception when it throws);
      otherwise the ship's size in consecutive cells get the ship flag, the
      ship gets their coordinates appended and joins the ship list. */
  function PlaceShip(b: Board, s: Ship, r: int, c: int, horizontal: bool): (res: Result<Board>)
    requires Shaped(b)
    ensures CanPlace(b, r, c, Size(s.kind), horizontal) == Ok(false) ==> res == Err(Placement)
    ensures CanPlace(b, r, c, Size(s.kind), horizontal).Err? ==> res == Err(ArrayIndexOutOfBounds)
    ensures CanPlace(b, r, c, Size(s.kind), horizontal) == Ok(true) ==> res.Ok?
    ensures res.Ok? ==> var seg := Segment(r, c, horizontal, Size(s.kind));
      && Shaped(res.value)
      && res.value.ships == b.ships + [s.(coords := s.coords + seg)]
      && forall q: Pos :: At(res.value, q) == if q in seg then SetShip(At(b, q), true) else At(b, q)
  {
    var len := Size(s.kind);
    match CanPlace(b, r, c, len, horizontal)
    case Err(e) => Err(e)
    case Ok(ok) =>
      if !ok then Err(Placement)
      else
        var (b1, s1) := PlaceFrom(b, s, Segment(r, c, horizontal, len));
        Ok(b1.(ships := b1.ships + [s1]))
  }

  // ---------------------------------------------------------------------
  // Shooting and sinking
  // ---------------------------------------------------------------------

  /** Board.shoot: false with nothing changed on a tried cell; on an
      untried ship cell `hit` is set and the answer is true; on untried
      water `miss` is set and the answer is false. The array access throws
      off the grid. */
  function Shoot(b: Board, r: int, c: int): (res: Result<(Board, bool)>)
    requires Shaped(b)
    ensures res.Err? <==> !InBounds((r, c))
    ensures res.Err? ==> res.error == ArrayIndexOutOfBounds
    ensures res.Ok? ==> var p: Pos := (r, c); var (b', answer) := res.value;
      && Shaped(b') && b'.ships == b.ships
      && (answer <==> !At(b, p).IsTried() && At(b, p).ship)
      && (At(b, p).IsTried() ==> b' == b)
      && (!At(b, p).IsTried() && At(b, p).ship ==> At(b', p) == SetHit(At(b, p), true))
      && (!At(b, p).IsTried() && !At(b, p).ship ==> At(b', p) == SetMiss(At(b, p), true))
      && forall q: Pos :: q != p ==> At(b', q) == At(b, q)
  {
    if !InBounds((r, c)) then Err(ArrayIndexOutOfBounds)
    else
      var p: Pos := (r, c);
      var cell := At(b, p);
      if cell.IsTried() then Ok((b, false))
      else if cell.ship then Ok((Put(b, p, SetHit(cell, true)), true))
      else Ok((Put(b, p, SetMiss(cell, true)), false))
  }

  /** Every coordinate of the ship is on the grid and hit. */
  predicate FullyHit(b: Board, s: Ship)
    requires Shaped(b)
  {
    forall k | 0 <= k < |s.coords| :: InBounds(s.coords[k]) && At(b, s.coords[k]).hit
  }

  /** Every ship's coordinates lie on the grid. */
  predicate CoordsOnGrid(b: Board) {
    forall j, k | 0 <= j < |b.ships| && 0 <= k < |b.ships[j].coords| :: InBounds(b.ships[j].coords[k])
  }

  /** The stream allMatch over a ship's coordinates from index i on:
      false at the first coordinate not hit, an exception at the first one
      off the grid. */
  function AllHit(b: Board, coords: seq<Coord>, i: nat): (res: Result<bool>)
    requires Shaped(b) && i <= |coords|
    ensures res == Ok(true) <==> forall k | i <= k < |coords| :: InBounds(coords[k]) && At(b, coords[k]).hit
    ensures (forall k | i <= k < |coords| :: InBounds(coords[k])) ==> res.Ok?
    ensures res.Err? ==> res.error == ArrayIndexOutOfBounds
    decreases |coords| - i
  {
    if i == |coords| then Ok(true)
    else if !InBounds(coords[i]) then Err(ArrayIndexOutOfBounds)
    else if !At(b, coords[i]).hit then Ok(false)
    else AllHit(b, coords, i + 1)
  }

  /** The loop of allShipsSunk over the ships from index i on. */
  function AllShipsSunkFrom(b: Board, i: nat): (res: Result<bool>)
    requires Shaped(b) && i <= |b.ships|
    ensures res == Ok(true) <==> forall j | i <= j < |b.ships| :: FullyHit(b, b.ships[j])
    ensures CoordsOnGrid(b) ==> res.Ok?
    ensures res.Err? ==> res.error == ArrayIndexOutOfBounds
    decreases |b.ships| - i
  {
    if i == |b.ships| then Ok(true)
    else
      match AllHit(b, b.ships[i].coords, 0)
      case Err(e) => Err(e)
      case Ok(sunk) => if !sunk then Ok(false) else AllShipsSunkFrom(b, i + 1)
  }

  /** Board.allShipsSunk: every coordinate of every ship is hit, judged from
      the cells and not from the ships' sunk flags; true with no ships. */
  function AllShipsSunk(b: Board): (res: Result<bool>)
    requires Shaped(b)
    ensures res == Ok(true) <==> forall j | 0 <= j < |b.ships| :: FullyHit(b, b.ships[j])
    ensures CoordsOnGrid(b) ==> res.Ok?
    ensures res.Err? ==> res.error == ArrayIndexOutOfBounds
  {
    AllShipsSunkFrom(b, 0)
  }

  /** The forEach of checkAndMarkSunkAt: every listed coordinate becomes a
      sunk part. */
  function MarkSunkParts(b: Board, coords: seq<Coord>): (b': Board)
    requires Shaped(b) && forall k | 0 <= k < |coords| :: InBounds(coords[k])
    ensures Shaped(b') && b'.ships == b.ships
    ensures forall q: Pos :: At(b', q) == if q in coords then SetSunkPart(At(b, q), true) else At(b, q)
    decreases |coords|
  {
    if coords == [] then b
    else
      var q: Pos := coords[0];
      MarkSunkParts(Put(b, q, SetSunkPart(At(b, q), true)), coords[1..])
  }

  /** The ship at j occupies (r, c) and every one of its coordinates is hit. */
  predicate SunkAt(b: Board, j: int, r: int, c: int)
    requires Shaped(b)
  {
    0 <= j < |b.ships| && Occupies(b.ships[j], r, c) && FullyHit(b, b.ships[j])
  }

  /** The index of the first ship from i on that occupies (r, c) and is
      fully hit, if there is one. */
  ghost function FirstSunkFrom(b: Board, r: int, c: int, i: nat): (j: Option<nat>)
    requires Shaped(b) && i <= |b.ships|
    ensures j.Some? ==> i <= j.value < |b.ships| && SunkAt(b, j.value, r, c)
    ensures j.Some? ==> forall j' | i <= j' < j.value :: !SunkAt(b, j', r, c)
    ensures j.None? <==> forall j' | i <= j' < |b.ships| :: !SunkAt(b, j', r, c)
    decreases |b.ships| - i
  {
    if i == |b.ships| then None
    else if SunkAt(b, i, r, c) then Some(i)
    else FirstSunkFrom(b, r, c, i + 1)
  }

  /** The loop of checkAndMarkSunkAt over the ships from index i on: the
      first ship occupying (r, c) whose coordinates are all hit is marked
      sunk, its cells become sunk parts and the answer is true. */
  function CheckAndMarkSunkFrom(b: Board, r: int, c: int, i: nat): (res: Result<(Board, bool)>)
    requires Shaped(b) && i <= |b.ships|
    ensures CoordsOnGrid(b) ==> res.Ok?
    ensures res.Err? ==> res.error == ArrayIndexOutOfBounds
    ensures res.Ok? ==> (res.value.1 <==> exists j | i <= j < |b.ships| :: SunkAt(b, j, r, c))
    ensures res.Ok? && !res.value.1 ==> res.value.0 == b
    ensures res.Ok? ==> (res.value.1 <==> FirstSunkFrom(b, r, c, i).Some?)
    ensures res.Ok? && res.value.1 ==> SunkMarked(b, FirstSunkFrom(b, r, c, i).value, res.value.0)
    decreases |b.ships| - i
  {
    if i == |b.ships| then Ok((b, false))
    else
      var s := b.ships[i];
      if !Occupies(s, r, c) then
        assert !SunkAt(b, i, r, c);
        CheckAndMarkSunkFrom(b, r, c, i + 1)
      else
        match AllHit(b, s.coords, 0)
        case Err(e) => Err(e)
        case Ok(sunk) =>
          if !sunk then
            assert !SunkAt(b, i, r, c);
            CheckAndMarkSunkFrom(b, r, c, i + 1)
          else
            var b1 := b.(ships := b.ships[i := SetSunk(s, true)]);
            var b2 := MarkSunkParts(b1, s.coords);
            assert SunkAt(b, i, r, c);
            assert forall q: Pos :: At(b1, q) == At(b, q);
            assert SunkMarked(b, i, b2);
            Ok((b2, true))
  }

  /** b' is b with ship j flagged sunk and its cells made sunk parts. */
  ghost predicate SunkMarked(b: Board, j: int, b': Board)
    requires Shaped(b) && 0 <= j < |b.ships|
  {
    && Shaped(b')
    && b'.ships == b.ships[j := SetSunk(b.ships[j], true)]
    && forall q: Pos :: At(b', q) == if q in b.ships[j].coords then SetSunkPart(At(b, q), true) else At(b, q)
  }

  /** Board.checkAndMarkSunkAt(r, c): true exactly when some ship occupying
      (r, c) has all its coordinates hit; the first such ship is then
      flagged sunk with its cells made sunk parts. Nothing changes on
      false. */
  function CheckAndMarkSunkAt(b: Board, r: int, c: int): (res: Result<(Board, bool)>)
    requires Shaped(b)
    ensures CoordsOnGrid(b) ==> res.Ok?
    ensures res.Err? ==> res.error == ArrayIndexOutOfBounds
    ensures res.Ok? ==> (res.value.1 <==> exists j | 0 <= j < |b.ships| :: SunkAt(b, j, r, c))
    ensures res.Ok? && !res.value.1 ==> res.value.0 == b
    ensures res.Ok? && res.value.1 ==> var j := FirstSunkFrom(b, r, c, 0);
      && j.Some? && SunkMarked(b, j.value, res.value.0)
      && forall j' | 0 <= j' < j.value :: !SunkAt(b, j', r, c)
  {
    CheckAndMarkSunkFrom(b, r, c, 0)
  }

  /** Repeated calls for a cell whose ship was reported sunk report it
      again: sinking changes neither the hits nor the coordinates. */
  lemma CheckAndMarkSunkAtAgain(b: Board, r: int, c: int)
    requires Shaped(b) && CoordsOnGrid(b)
    requires CheckAndMarkSunkAt(b, r, c).Ok? && CheckAndMarkSunkAt(b, r, c).value.1
    ensures var b' := CheckAndMarkSunkAt(b, r, c).value.0;
      Shaped(b') && CheckAndMarkSunkAt(b', r, c).Ok? && CheckAndMarkSunkAt(b', r, c).value.1
  {
    var b' := CheckAndMarkSunkAt(b, r, c).value.0;
    var j := FirstSunkFrom(b, r, c, 0).value;
    MarkedStaysSunk(b, j, b', r, c);
  }

  /** Marking a ship sunk keeps it sunk at the same cell and keeps every
      coordinate on the grid. */
  lemma MarkedStaysSunk(b: Board, j: int, b': Board, r: int, c: int)
    requires Shaped(b) && CoordsOnGrid(b) && 0 <= j < |b.ships|
    requires SunkAt(b, j, r, c) && SunkMarked(b, j, b')
    ensures SunkAt(b', j, r, c) && CoordsOnGrid(b')
  {
    assert forall q: Pos :: At(b', q).hit == At(b, q).hit;
    assert forall i | 0 <= i < |b'.ships| :: b'.ships[i].coords == b.ships[i].coords;
  }

  // ---------------------------------------------------------------------
  // The no-overlap invariant
  // ---------------------------------------------------------------------

  /** The coordinates of all ships, ship after ship. */
  function AllCoords(ships: seq<Ship>): (cs: seq<Coord>)
    ensures ships == [] ==> cs == []
    decreases |ships|
  {
    if ships == [] then [] else AllCoords(ships[..|ships| - 1]) + ships[|ships| - 1].coords
  }

  /** The ship cells of the grid are exactly the ship coordinates, and no
      coordinate is claimed twice, by one ship or by two. */
  ghost predicate Consistent(b: Board) {
    && Shaped(b)
    && (forall i | 0 <= i < |AllCoords(b.ships)| :: ShipAt(b, AllCoords(b.ships)[i]))
    && (forall q: Pos :: At(b, q).ship ==> q in AllCoords(b.ships))
    && Distinct(AllCoords(b.ships))
  }

  /** Each coordinate of each ship is among all the coordinates. */
  lemma {:induction false} InAllCoords(ships: seq<Ship>, j: int, k: int)
    requires 0 <= j < |ships| && 0 <= k < |ships[j].coords|
    ensures ships[j].coords[k] in AllCoords(ships)
    decreases |ships|
  {
    if j < |ships| - 1 {
      InAllCoords(ships[..|ships| - 1], j, k);
    }
  }

  /** A consistent board keeps all coordinates on the grid. */
  lemma ConsistentOnGrid(b: Board)
    requires Consistent(b)
    ensures CoordsOnGrid(b)
  {
    forall j, k | 0 <= j < |b.ships| && 0 <= k < |b.ships[j].coords|
      ensures InBounds(b.ships[j].coords[k])
    {
      InAllCoords(b.ships, j, k);
    }
  }

  /** Two lists without repeats and without common elements concatenate
      into a list without repeats. */
  lemma DistinctAppend<T>(a: seq<T>, c: seq<T>)
    requires Distinct(a) && Distinct(c)
    requires forall i, j | 0 <= i < |a| && 0 <= j < |c| :: a[i] != c[j]
    ensures Distinct(a + c)
  {
  }

  /** A new board has no ships, so it is consistent. */
  lemma NewBoardConsistent()
    ensures Consistent(NewBoard())
  {
  }

  /** A shot keeps the board consistent, since it never touches a ship
      flag, and a ship that was fully hit stays fully hit, so a won board
      stays won. */
  lemma ShootKeepsConsistent(b: Board, r: int, c: int)
    requires Consistent(b)
    ensures var res := Shoot(b, r, c);
      res.Ok? ==> var b' := res.value.0;
      && Consistent(b')
      && (forall j | 0 <= j < |b.ships| :: FullyHit(b, b.ships[j]) ==> FullyHit(b', b'.ships[j]))
      && (AllShipsSunk(b) == Ok(true) ==> AllShipsSunk(b') == Ok(true))
  {
    var res := Shoot(b, r, c);
    if res.Ok? {
      var b' := res.value.0;
      assert forall q: Pos :: At(b', q).ship == At(b, q).ship && (At(b, q).hit ==> At(b', q).hit);
    }
  }

  /** Lists of ships with the same coordinates ship by ship have the same
      coordinates overall. */
  lemma {:induction false} AllCoordsSameCoords(xs: seq<Ship>, ys: seq<Ship>)
    requires |xs| == |ys| && forall i | 0 <= i < |xs| :: xs[i].coords == ys[i].coords
    ensures AllCoords(xs) == AllCoords(ys)
    decreases |xs|
  {
    if xs != [] {
      AllCoordsSameCoords(xs[..|xs| - 1], ys[..|ys| - 1]);
    }
  }

  /** checkAndMarkSunkAt keeps the board consistent: marking a ship sunk
      changes neither any ship's coordinates nor any ship flag. */
  lemma CheckAndMarkSunkAtKeepsConsistent(b: Board, r: int, c: int)
    requires Consistent(b)
    ensures var res := CheckAndMarkSunkAt(b, r, c);
      res.Ok? ==> Consistent(res.value.0)
  {
    var res := CheckAndMarkSunkAt(b, r, c);
    if res.Ok? && res.value.1 {
      var j := FirstSunkFrom(b, r, c, 0).value;
      var b' := res.value.0;
      AllCoordsSameCoords(b.ships, b'.ships);
      assert forall q: Pos :: At(b', q).ship == At(b, q).ship;
    }
  }

  /** Placing a ship that has no coordinates yet keeps the board
      consistent: canPlace admitted only cells without the ship flag, so
      the new coordinates are different from every earlier one. */
  lemma PlaceShipKeepsConsistent(b: Board, s: Ship, r: int, c: int, horizontal: bool)
    requires Shaped(b) && s.coords == []
    requires PlaceShip(b, s, r, c, horizontal).Ok?
    ensures Consistent(b) ==> Consistent(PlaceShip(b, s, r, c, horizontal).value)
  {
    if Consistent(b) {
      PlaceShipConsistent(b, s, r, c, horizontal);
    }
  }

  /** The same, for a board known to be consistent. */
  lemma PlaceShipConsistent(b: Board, s: Ship, r: int, c: int, horizontal: bool)
    requires Consistent(b) && s.coords == []
    requires PlaceShip(b, s, r, c, horizontal).Ok?
    ensures Consistent(PlaceShip(b, s, r, c, horizontal).value)
  {
    var len := Size(s.kind);
    var seg := Segment(r, c, horizontal, len);
    assert CanPlace(b, r, c, len, horizontal) == Ok(true);
    SegmentDistinct(r, c, horizontal, len);
    assert s.coords + seg == seg;
    AddedConsistent(b, PlaceShip(b, s, r, c, horizontal).value, s.(coords := seg));
  }

  /** A board with one more ship, whose distinct coordinates were free
      and now carry the ship flag, stays consistent. */
  lemma AddedConsistent(b: Board, b': Board, s: Ship)
    requires Consistent(b) && Shaped(b')
    requires b'.ships == b.ships + [s]
    requires Distinct(s.coords) && forall k | 0 <= k < |s.coords| :: FreeAt(b, s.coords[k])
    requires forall q: Pos :: At(b', q) == if q in s.coords then SetShip(At(b, q), true) else At(b, q)
    ensures Consistent(b')
  {
    var seg := s.coords;
    AllCoordsSnoc(b.ships, s);
    var before := AllCoords(b.ships);
    DistinctAppend(before, seg);
    MarkingKeepsShips(b, b', before, seg);
  }

  /** The coordinates of a list with one more ship end with that ship's. */
  lemma AllCoordsSnoc(ships: seq<Ship>, s: Ship)
    ensures AllCoords(ships + [s]) == AllCoords(ships) + s.coords
  {
    assert (ships + [s])[..|ships|] == ships;
  }

  /** Setting the ship flag on the free cells `seg` keeps every ship cell
      one and makes the cells of `seg` ship cells. */
  lemma MarkingKeepsShips(b: Board, b': Board, before: seq<Coord>, seg: seq<Coord>)
    requires Shaped(b) && Shaped(b')
    requires forall i | 0 <= i < |before| :: ShipAt(b, before[i])
    requires forall k | 0 <= k < |seg| :: FreeAt(b, seg[k])
    requires forall q: Pos :: At(b', q) == if q in seg then SetShip(At(b, q), true) else At(b, q)
    ensures forall i | 0 <= i < |before + seg| :: ShipAt(b', (before + seg)[i])
  {
    forall i | 0 <= i < |before + seg|
      ensures ShipAt(b', (before + seg)[i])
    {
      if i < |before| {
        assert ShipAt(b, before[i]);
      } else {
        assert FreeAt(b, seg[i - |before|]);
      }
    }
  }

  // ---------------------------------------------------------------------
  // Random placement
  // ---------------------------------------------------------------------

  /** The types and counts randomPlaceAllShips walks through. */
  const Types: seq<ShipType> := [Carrier, Submarine, Destroyer, Frigate]
  const Counts: seq<nat> := [1, 2, 3, 4]

  /** Tries per ship before giving up. */
  const MAX_TRIES: nat := 2000

  /** Each type repeated by its count, in the order of the nested loops. */
  function Expand(types: seq<ShipType>, counts: seq<nat>): (kinds: seq<ShipType>)
    requires |types| == |counts|
    decreases |types|
  {
    if types == [] then [] else seq(counts[0], _ => types[0]) + Expand(types[1..], counts[1..])
  }

  /** The order in which the draft places its ships. */
  lemma ExpandedOrder()
    ensures Expand(Types, Counts) == [Carrier, Submarine, Submarine, Destroyer, Destroyer, Destroyer, Frigate, Frigate, Frigate, Frigate]
  {
  }

  /** The kind of each listed ship, in list order. */
  function Kinds(ships: seq<Ship>): (ks: seq<ShipType>)
    ensures |ks| == |ships| && forall i | 0 <= i < |ships| :: ks[i] == ships[i].kind
  {
    seq(|ships|, i requires 0 <= i < |ships| => ships[i].kind)
  }

  /** b' is b with one more ship of the given kind, placed at full size. */
  ghost predicate OneMore(b: Board, kind: ShipType, b': Board) {
    && |b'.ships| == |b.ships| + 1
    && b'.ships[..|b.ships|] == b.ships
    && b'.ships[|b.ships|].kind == kind
    && |b'.ships[|b.ships|].coords| == Size(kind)
    && !b'.ships[|b.ships|].sunk
  }

  /** b' is b where the coordinates of the ships added after b's own
      carry the ship flag; every other cell, and every other flag, is as
      in b. */
  ghost predicate FlagsAdded(b: Board, b': Board)
    requires Shaped(b) && Shaped(b') && |b.ships| <= |b'.ships|
  {
    forall q: Pos :: At(b', q) == if q in AllCoords(b'.ships[|b.ships|..]) then SetShip(At(b, q), true) else At(b, q)
  }

  /** The coordinates of two lists of ships, one after the other. */
  lemma {:induction false} AllCoordsAppend(xs: seq<Ship>, ys: seq<Ship>)
    ensures AllCoords(xs + ys) == AllCoords(xs) + AllCoords(ys)
    decreases |ys|
  {
    if ys == [] {
      assert xs + ys == xs;
    } else {
      var init := ys[..|ys| - 1];
      AllCoordsAppend(xs, init);
      assert (xs + ys)[..|xs + ys| - 1] == xs + init;
      assert AllCoords(xs + ys) == AllCoords(xs + init) + ys[|ys| - 1].coords;
    }
  }

  /** placeShip of a ship without coordinates flags exactly its new
      coordinates and leaves the rest of the grid alone. */
  lemma PlaceShipFlagsAdded(b: Board, s: Ship, r: int, c: int, horizontal: bool)
    requires Shaped(b) && s.coords == [] && PlaceShip(b, s, r, c, horizontal).Ok?
    ensures var b' := PlaceShip(b, s, r, c, horizontal).value;
      |b.ships| < |b'.ships| && FlagsAdded(b, b')
  {
    var b' := PlaceShip(b, s, r, c, horizontal).value;
    var added := b'.ships[|b.ships|];
    assert b'.ships[|b.ships|..] == [added];
    assert AllCoords([added]) == AllCoords([added][..0]) + added.coords;
    assert added.coords == Segment(r, c, horizontal, Size(s.kind));
  }

  /** The try at draw position pos is refused: canPlace does not accept
      the drawn row, column and orientation. */
  predicate TryRefused(b: Board, kind: ShipType, rng: Rng, pos: nat)
    requires Shaped(b)
  {
    CanPlace(b, NextInt(rng, pos, SIZE), NextInt(rng, pos + 1, SIZE), Size(kind), NextBoolean(rng, pos + 2)) != Ok(true)
  }

  /** The n consecutive tries from draw position pos, three draws each, are
      all refused. */
  predicate AllTriesRefused(b: Board, kind: ShipType, rng: Rng, pos: nat, n: nat)
    requires Shaped(b)
    decreases n
  {
    n == 0 || (TryRefused(b, kind, rng, pos) && AllTriesRefused(b, kind, rng, pos + 3, n - 1))
  }

  /** Try number n from draw position pos is the first one canPlace
      accepts, and res is the board placeShip gives at that try's drawn
      row, column and orientation, with the draws used up to it. */
  ghost predicate AcceptedAt(b: Board, kind: ShipType, rng: Rng, pos: nat, n: nat, res: (Option<Board>, nat))
    requires Shaped(b)
    decreases n
  {
    if n == 0 then
      && !TryRefused(b, kind, rng, pos)
      && res == (Some(PlaceShip(b, NewShip(kind), NextInt(rng, pos, SIZE), NextInt(rng, pos + 1, SIZE), NextBoolean(rng, pos + 2)).value), pos + 3)
    else TryRefused(b, kind, rng, pos) && AcceptedAt(b, kind, rng, pos + 3, n - 1, res)
  }

  /** A refused try in front of an accepted one moves the accepted one
      back by one. */
  lemma AcceptedShift(b: Board, kind: ShipType, rng: Rng, pos: nat, next: nat, m: nat, res: (Option<Board>, nat))
    requires Shaped(b) && next == pos + 3 && TryRefused(b, kind, rng, pos)
    requires exists n | 0 <= n < m :: AcceptedAt(b, kind, rng, next, n, res)
    ensures exists n | 0 <= n < m + 1 :: AcceptedAt(b, kind, rng, pos, n, res)
  {
    var n :| 0 <= n < m && AcceptedAt(b, kind, rng, next, n, res);
    assert AcceptedAt(b, kind, rng, pos, n + 1, res);
  }

  /** The retry loop for one ship, from try number `tries` on: draw a row,
      a column and an orientation, build a new ship and place it if
      canPlace allows. Gives up after MAX_TRIES tries. */
  function TryFrom(b: Board, kind: ShipType, rng: Rng, pos: nat, tries: nat): (res: (Option<Board>, nat))
    requires Shaped(b) && tries <= MAX_TRIES
    ensures res.0.None? <==> AllTriesRefused(b, kind, rng, pos, MAX_TRIES - tries)
    ensures res.0.None? ==> res.1 == pos + 3 * (MAX_TRIES - tries)
    ensures res.0.Some? ==> Shaped(res.0.value) && OneMore(b, kind, res.0.value) && FlagsAdded(b, res.0.value)
    ensures res.0.Some? && Consistent(b) ==> Consistent(res.0.value)
    ensures pos <= res.1 <= pos + 3 * (MAX_TRIES - tries)
    decreases MAX_TRIES - tries
  {
    if tries == MAX_TRIES then (None, pos)
    else
      var r := NextInt(rng, pos, SIZE);
      var c := NextInt(rng, pos + 1, SIZE);
      var horizontal := NextBoolean(rng, pos + 2);
      var ship := NewShip(kind);
      if CanPlace(b, r, c, Size(kind), horizontal) == Ok(true) then
        // placeShip repeats the check that just passed, so the
        // PlacementException the loop catches cannot occur here.
        var b' := PlaceShip(b, ship, r, c, horizontal).value;
        assert b'.ships[..|b.ships|] == b.ships;
        PlaceShipKeepsConsistent(b, ship, r, c, horizontal);
        PlaceShipFlagsAdded(b, ship, r, c, horizontal);
        (Some(b'), pos + 3)
      else TryFrom(b, kind, rng, pos + 3, tries + 1)
  }

  /** A ship that TryFrom places lands at the row, column and orientation
      drawn by the first try canPlace accepts, every earlier try having
      been refused, and the draws stop right after that try. */
  lemma {:induction false} TryFromFirstAccepted(b: Board, kind: ShipType, rng: Rng, pos: nat, tries: nat)
    requires Shaped(b) && tries <= MAX_TRIES
    requires TryFrom(b, kind, rng, pos, tries).0.Some?
    ensures exists n | 0 <= n < MAX_TRIES - tries :: AcceptedAt(b, kind, rng, pos, n, TryFrom(b, kind, rng, pos, tries))
    decreases MAX_TRIES - tries
  {
    var res := TryFrom(b, kind, rng, pos, tries);
    if TryRefused(b, kind, rng, pos) {
      assert res == TryFrom(b, kind, rng, pos + 3, tries + 1);
      TryFromFirstAccepted(b, kind, rng, pos + 3, tries + 1);
      AcceptedShift(b, kind, rng, pos, pos + 3, MAX_TRIES - tries - 1, res);
    } else {
      assert AcceptedAt(b, kind, rng, pos, 0, res);
    }
  }

  /** b' is b with one more ship per kind, in order, each placed at full
      size and afloat. */
  ghost predicate Grown(b: Board, kinds: seq<ShipType>, b': Board) {
    && Kinds(b'.ships) == Kinds(b.ships) + kinds
    && b'.ships[..|b.ships|] == b.ships
    && forall j | |b.ships| <= j < |b'.ships| :: |b'.ships[j].coords| == Size(b'.ships[j].kind) && !b'.ships[j].sunk
  }

  /** One more ship followed by the rest is growth by all the kinds. */
  lemma GrownStep(b: Board, kind: ShipType, b1: Board, kinds: seq<ShipType>, b2: Board)
    requires OneMore(b, kind, b1) && Grown(b1, kinds, b2)
    ensures Grown(b, [kind] + kinds, b2)
  {
    assert Kinds(b1.ships) == Kinds(b.ships) + [kind];
    assert b2.ships[..|b.ships|] == b2.ships[..|b1.ships|][..|b.ships|];
  }

  /** One placed ship followed by the rest is growth by all the kinds,
      flagging the coordinates of all the added ships, within the draws of
      all their tries. */
  lemma PlaceAllStep(b: Board, kinds: seq<ShipType>, b1: Board, pos: nat, pos1: nat, b2: Board, pos2: nat)
    requires Shaped(b) && Shaped(b1) && Shaped(b2) && kinds != []
    requires OneMore(b, kinds[0], b1) && FlagsAdded(b, b1) && pos <= pos1 <= pos + 3 * MAX_TRIES
    requires Grown(b1, kinds[1..], b2) && FlagsAdded(b1, b2) && pos1 <= pos2 <= pos1 + 3 * MAX_TRIES * |kinds[1..]|
    ensures Grown(b, kinds, b2) && FlagsAdded(b, b2)
    ensures pos <= pos2 <= pos + 3 * MAX_TRIES * |kinds|
  {
    GrownStep(b, kinds[0], b1, kinds[1..], b2);
    assert [kinds[0]] + kinds[1..] == kinds;
    assert 3 * MAX_TRIES * |kinds| == 3 * MAX_TRIES * |kinds[1..]| + 3 * MAX_TRIES;
    var n, n1 := |b.ships|, |b1.ships|;
    assert b2.ships[n..] == b1.ships[n..] + b2.ships[n1..];
    AllCoordsAppend(b1.ships[n..], b2.ships[n1..]);
  }

  /** The loops of randomPlaceAllShips over the kinds still to place: a
      RuntimeException as soon as one ship cannot be placed. */
  function PlaceAll(b: Board, kinds: seq<ShipType>, rng: Rng, pos: nat): (res: Result<(Board, nat)>)
    requires Shaped(b)
    ensures res.Err? ==> res.error == Runtime
    ensures res.Ok? ==> Shaped(res.value.0) && Grown(b, kinds, res.value.0) && FlagsAdded(b, res.value.0)
    ensures res.Ok? ==> pos <= res.value.1 <= pos + 3 * MAX_TRIES * |kinds|
    ensures res.Ok? && Consistent(b) ==> Consistent(res.value.0)
    decreases |kinds|
  {
    if kinds == [] then
      assert b.ships[..|b.ships|] == b.ships;
      assert b.ships[|b.ships|..] == [];
      Ok((b, pos))
    else
      var (placed, pos1) := TryFrom(b, kinds[0], rng, pos, 0);
      match placed
      case None => Err(Runtime)
      case Some(b1) =>
        var res := PlaceAll(b1, kinds[1..], rng, pos1);
        if res.Ok? then
          PlaceAllStep(b, kinds, b1, pos, pos1, res.value.0, res.value.1);
          res
        else res
  }

  /** The k-th ship of the list gives up: the ships before it were all
      placed, and on the board they left every one of its MAX_TRIES tries
      is refused. */
  ghost predicate KindGivesUpAt(b: Board, kinds: seq<ShipType>, rng: Rng, pos: nat, k: nat)
    requires Shaped(b) && k < |kinds|
  {
    var before := PlaceAll(b, kinds[..k], rng, pos);
    before.Ok? && AllTriesRefused(before.value.0, kinds[k], rng, before.value.1, MAX_TRIES)
  }

  /** Some ship of the list gives up. */
  ghost predicate SomeKindGivesUp(b: Board, kinds: seq<ShipType>, rng: Rng, pos: nat)
    requires Shaped(b)
  {
    exists k | 0 <= k < |kinds| :: KindGivesUpAt(b, kinds, rng, pos, k)
  }

  /** Placing the first ship and then the rest gives up at a later ship
      exactly when the rest gives up one position earlier. */
  lemma GivesUpLater(b: Board, kinds: seq<ShipType>, rng: Rng, pos: nat, b1: Board, pos1: nat, k: nat)
    requires Shaped(b) && Shaped(b1) && 0 < k < |kinds|
    requires TryFrom(b, kinds[0], rng, pos, 0) == (Some(b1), pos1)
    ensures KindGivesUpAt(b, kinds, rng, pos, k) <==> KindGivesUpAt(b1, kinds[1..], rng, pos1, k - 1)
  {
    assert kinds[..k][1..] == kinds[1..][..k - 1];
    assert kinds[1..][k - 1] == kinds[k];
  }

  /** randomPlaceAllShips throws exactly when some ship, on the board the
      ships before it left, has every one of its tries refused. */
  lemma {:induction false} PlaceAllFailsExactly(b: Board, kinds: seq<ShipType>, rng: Rng, pos: nat)
    requires Shaped(b)
    ensures PlaceAll(b, kinds, rng, pos).Err? <==> SomeKindGivesUp(b, kinds, rng, pos)
    decreases |kinds|
  {
    if kinds != [] {
      assert kinds[..0] == [];
      assert KindGivesUpAt(b, kinds, rng, pos, 0) <==> TryFrom(b, kinds[0], rng, pos, 0).0.None?;
      var (placed, pos1) := TryFrom(b, kinds[0], rng, pos, 0);
      if placed.Some? {
        var b1 := placed.value;
        PlaceAllFailsExactly(b1, kinds[1..], rng, pos1);
        forall k | 0 < k < |kinds|
          ensures KindGivesUpAt(b, kinds, rng, pos, k) <==> KindGivesUpAt(b1, kinds[1..], rng, pos1, k - 1)
        {
          GivesUpLater(b, kinds, rng, pos, b1, pos1, k);
        }
        if SomeKindGivesUp(b1, kinds[1..], rng, pos1) {
          var k :| 0 <= k < |kinds| - 1 && KindGivesUpAt(b1, kinds[1..], rng, pos1, k);
          assert KindGivesUpAt(b, kinds, rng, pos, k + 1);
        }
      }
    }
  }

  /** Board.randomPlaceAllShips: one carrier, two submarines, three
      destroyers and four frigates, in that order, added to whatever is
      already on the board (nothing is cleared), each at a random free
      spot found within MAX_TRIES tries; a RuntimeException otherwise. No
      two ships ever share a cell. */
  function RandomPlaceAllShips(b: Board, rng: Rng, pos: nat): (res: Result<(Board, nat)>)
    requires Shaped(b)
    ensures res.Err? ==> res.error == Runtime
    ensures res.Err? <==> SomeKindGivesUp(b, Expand(Types, Counts), rng, pos)
    ensures res.Ok? ==> Shaped(res.value.0) && Grown(b, Expand(Types, Counts), res.value.0) && FlagsAdded(b, res.value.0)
    ensures res.Ok? ==> pos <= res.value.1 <= pos + 3 * MAX_TRIES * 10
    ensures res.Ok? && Consistent(b) ==> Consistent(res.value.0)
  {
    PlaceAllFailsExactly(b, Expand(Types, Counts), rng, pos);
    PlaceAll(b, Expand(Types, Counts), rng, pos)
  }
}
