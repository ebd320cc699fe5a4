/** The current engine's fleet building and random placement (the machine's
    side of class Board): the standard catalog of ten ships, the shuffle of
    the new ships, up to 100 random attempts per ship, and the reset of the
    whole board when one ship cannot be placed. */
module NavalFleet {
  import opened Base
  import opened Geometry
  import opened NavalShipType
  import opened NavalCell
  import opened NavalShip
  import opened NavalBoard
  import opened NavalRules

  /** The standard fleet, in the order the board creates it. */
  const Catalog: seq<ShipType> := [Carrier, Submarine, Submarine, Destroyer, Destroyer, Destroyer, Frigate, Frigate, Frigate, Frigate]

  /** Random positions tried for one ship before giving up. */
  const MAX_ATTEMPTS: nat := 100

  /** Random draws one attempt consumes: row, column, orientation. */
  const DRAWS_PER_ATTEMPT: nat := 3

  /** The catalog holds one carrier, two submarines, three destroyers and
      four frigates: twenty ship cells in all. */
  lemma CatalogCounts()
    ensures multiset(Catalog)[Carrier] == 1 && multiset(Catalog)[Submarine] == 2
    ensures multiset(Catalog)[Destroyer] == 3 && multiset(Catalog)[Frigate] == 4
    ensures TotalSize(Catalog) == 20
  {
  }

  /** The number of cells the given ship types occupy together. */
  function TotalSize(kinds: seq<ShipType>): (n: nat)
    ensures |kinds| <= n <= 4 * |kinds|
  {
    if kinds == [] then 0 else Size(kinds[0]) + TotalSize(kinds[1..])
  }

  // ---------------------------------------------------------------------
  // Creating ships
  // ---------------------------------------------------------------------

  /** new Ship(kind): a fresh unplaced ship added to the board's store; the
      fleet and the grid are not touched. */
  function CreateShip(b: Board, kind: ShipType): (res: (Board, ShipId))
    requires WellFormed(b)
    ensures WellFormed(res.0) && res.0.grid == b.grid && res.0.fleet == b.fleet
    ensures res.1 == |b.ships| && res.0.ships == b.ships + [NewShip(kind)]
  {
    var b' := b.(ships := b.ships + [NewShip(kind)]);
    assert forall p: Pos :: At(b', p) == At(b, p);
    (b', |b.ships|)
  }

  /** `made` is the store `before` with one fresh ship per kind appended,
      in order, and `ids` are their ids. */
  ghost predicate Extends(before: seq<Ship>, made: seq<Ship>, kinds: seq<ShipType>, ids: seq<ShipId>) {
    && |made| == |before| + |kinds| && |ids| == |kinds|
    && (forall j | 0 <= j < |before| :: made[j] == before[j])
    && (forall k | 0 <= k < |kinds| :: ids[k] == |before| + k && made[ids[k]] == NewShip(kinds[k]))
  }

  /** The kind of each stored ship, in store order. */
  function Kinds(ships: seq<Ship>): (ks: seq<ShipType>)
    ensures |ks| == |ships| && forall i | 0 <= i < |ships| :: ks[i] == ships[i].kind
  {
    seq(|ships|, i requires 0 <= i < |ships| => ships[i].kind)
  }

  /** One fresh ship per kind, in the order given; the ids returned are the
      next free ones, consecutive. */
  function CreateShips(b: Board, kinds: seq<ShipType>): (res: (Board, seq<ShipId>))
    requires WellFormed(b)
    ensures WellFormed(res.0) && res.0.grid == b.grid && res.0.fleet == b.fleet
    ensures Extends(b.ships, res.0.ships, kinds, res.1)
    decreases |kinds|
  {
    if kinds == [] then (b, [])
    else
      var (b1, id) := CreateShip(b, kinds[0]);
      var (b2, ids) := CreateShips(b1, kinds[1..]);
      (b2, [id] + ids)
  }

  /** The fleet replaced by fresh unplaced ships of the given kinds, in
      order; the grid is not touched. */
  function NewFleet(b: Board, kinds: seq<ShipType>): (b': Board)
    requires WellFormed(b)
    ensures WellFormed(b') && b'.grid == b.grid
    ensures |b'.ships| == |b.ships| + |kinds| && |b'.fleet| == |kinds| && Distinct(b'.fleet)
    ensures forall k | 0 <= k < |kinds| :: b'.fleet[k] == |b.ships| + k && b'.ships[b'.fleet[k]] == NewShip(kinds[k])
    ensures forall j | 0 <= j < |b.ships| :: b'.ships[j] == b.ships[j]
  {
    var (b1, ids) := CreateShips(b, kinds);
    var b' := b1.(fleet := ids);
    assert forall p: Pos :: At(b', p) == At(b1, p);
    b'
  }

  /** Board.createShipsWithoutPlacement: the fleet becomes ten fresh unplaced
      ships of the catalog, in catalog order; the grid is not touched. */
  function CreateShipsWithoutPlacement(b: Board): (b': Board)
    requires WellFormed(b)
    ensures WellFormed(b') && b'.grid == b.grid
    ensures |b'.ships| == |b.ships| + |Catalog| && |b'.fleet| == |Catalog| && Distinct(b'.fleet)
    ensures forall k | 0 <= k < |Catalog| :: b'.fleet[k] == |b.ships| + k && b'.ships[b'.fleet[k]] == NewShip(Catalog[k])
    ensures forall j | 0 <= j < |b.ships| :: b'.ships[j] == b.ships[j]
  {
    NewFleet(b, Catalog)
  }

  /** Ships created but not placed leave the board unfinished and afloat. */
  lemma CreatedFleetUnplaced(b: Board)
    requires WellFormed(b)
    ensures !AllShipsPlaced(CreateShipsWithoutPlacement(b))
    ensures !AllShipsSunk(CreateShipsWithoutPlacement(b))
  {
    assert Catalog != [];
    NewFleetUnplaced(b, Catalog);
  }

  /** A non-empty fleet of new ships has an unplaced, afloat first ship. */
  lemma NewFleetUnplaced(b: Board, kinds: seq<ShipType>)
    requires WellFormed(b) && kinds != []
    ensures !AllShipsPlaced(NewFleet(b, kinds)) && !AllShipsSunk(NewFleet(b, kinds))
  {
    var b' := NewFleet(b, kinds);
    assert b'.ships[b'.fleet[0]] == NewShip(kinds[0]);
  }

  // ---------------------------------------------------------------------
  // Collections.shuffle
  // ---------------------------------------------------------------------

  /** Exchanges two entries of a list. */
  function Swap<T>(s: seq<T>, i: nat, j: nat): (r: seq<T>)
    requires i < |s| && j < |s|
    ensures |r| == |s| && r[i] == s[j] && r[j] == s[i]
    ensures forall k | 0 <= k < |s| && k != i && k != j :: r[k] == s[k]
  {
    s[i := s[j]][j := s[i]]
  }

  /** Swapping keeps the entries and their multiplicities, and so keeps a
      list without repetitions free of them. */
  lemma SwapPermutes<T>(s: seq<T>, i: nat, j: nat)
    requires i < |s| && j < |s|
    ensures multiset(Swap(s, i, j)) == multiset(s)
    ensures Distinct(s) ==> Distinct(Swap(s, i, j))
  {
  }

  /** The shuffle's loop from the top index i down to 2: each step swaps
      entry i - 1 with a uniformly drawn entry below i. */
  function ShuffleDown(list: seq<ShipId>, i: nat, rng: Rng, pos: nat): (res: (seq<ShipId>, nat))
    requires i <= |list|
    ensures multiset(res.0) == multiset(list) && |res.0| == |list|
    ensures Distinct(list) ==> Distinct(res.0)
    ensures res.1 == pos + (if i > 1 then i - 1 else 0)
    decreases i
  {
    if i <= 1 then (list, pos)
    else
      var j := NextInt(rng, pos, i);
      SwapPermutes(list, i - 1, j);
      ShuffleDown(Swap(list, i - 1, j), i - 1, rng, pos + 1)
  }

  /** Collections.shuffle(list, random): a permutation of the list that
      consumes one draw per entry beyond the first. */
  function Shuffle(list: seq<ShipId>, rng: Rng, pos: nat): (res: (seq<ShipId>, nat))
    ensures multiset(res.0) == multiset(list) && |res.0| == |list|
    ensures Distinct(list) ==> Distinct(res.0)
    ensures res.1 == pos + (if |list| > 1 then |list| - 1 else 0)
  {
    ShuffleDown(list, |list|, rng, pos)
  }

  // ---------------------------------------------------------------------
  // Random placement
  // ---------------------------------------------------------------------

  /** The row, column and orientation one attempt draws, in that order. */
  function DrawRow(rng: Rng, pos: nat): (r: int)
    ensures 0 <= r < SIZE
  {
    NextInt(rng, pos, SIZE)
  }

  function DrawCol(rng: Rng, pos: nat): (c: int)
    ensures 0 <= c < SIZE
  {
    NextInt(rng, pos + 1, SIZE)
  }

  function DrawHorizontal(rng: Rng, pos: nat): bool {
    NextBoolean(rng, pos + 2)
  }

  /** The attempt whose draws start at pos finds no room for the ship. */
  predicate AttemptFails(b: Board, id: ShipId, rng: Rng, pos: nat)
    requires WellFormed(b) && id < |b.ships|
  {
    !CanPlaceShip(b, id, DrawRow(rng, pos), DrawCol(rng, pos), DrawHorizontal(rng, pos))
  }

  /** Each of the n consecutive attempts whose draws start at pos finds no
      room for the ship. */
  predicate AllAttemptsFail(b: Board, id: ShipId, rng: Rng, pos: nat, n: nat)
    requires WellFormed(b) && id < |b.ships|
    decreases n
  {
    n == 0 || (AttemptFails(b, id, rng, pos) && AllAttemptsFail(b, id, rng, pos + DRAWS_PER_ATTEMPT, n - 1))
  }

  /** b' is b after placeAt put ship id at some position where it fits. */
  ghost predicate PlacedSomewhere(b: Board, id: ShipId, b': Board)
    requires WellFormed(b) && id < |b.ships|
  {
    exists row: int, col: int, horizontal: bool ::
      CanPlaceShip(b, id, row, col, horizontal) && b' == PlaceAt(b, id, row, col, horizontal).0
  }

  /** One attempt: the ship is placed at the position drawn from pos when it
      fits there, and the board is left alone otherwise. */
  function TryAttempt(b: Board, id: ShipId, rng: Rng, pos: nat): (res: (Board, bool))
    requires WellFormed(b) && id < |b.ships|
    ensures WellFormed(res.0) && res.0.fleet == b.fleet && |res.0.ships| == |b.ships|
    ensures res.1 <==> !AttemptFails(b, id, rng, pos)
    ensures !res.1 ==> res.0 == b
  {
    var row := DrawRow(rng, pos);
    var col := DrawCol(rng, pos);
    var horizontal := DrawHorizontal(rng, pos);
    if CanPlaceShip(b, id, row, col, horizontal) then (PlaceAt(b, id, row, col, horizontal).0, true)
    else (b, false)
  }

  /** Placement leaves the shot state of every cell alone. */
  ghost predicate SameShots(b: Board, b': Board)
    requires Shaped(b) && Shaped(b')
  {
    forall q: Pos :: At(b', q).hit == At(b, q).hit && At(b', q).miss == At(b, q).miss && At(b', q).sunkPart == At(b, q).sunkPart
  }

  /** What placeAt does to the ships when the ship fits: the placed ship
      now holds as many cells as its size, and no other ship changes. */
  lemma PlaceAtShips(b: Board, id: ShipId, row: int, col: int, horizontal: bool)
    requires WellFormed(b) && id < |b.ships| && CanPlaceShip(b, id, row, col, horizontal)
    ensures var b' := PlaceAt(b, id, row, col, horizontal).0;
      && WellFormed(b') && b'.fleet == b.fleet && |b'.ships| == |b.ships|
      && (forall j | 0 <= j < |b.ships| && j != id :: b'.ships[j] == b.ships[j])
      && b'.ships[id].kind == b.ships[id].kind && b'.ships[id].sunk == b.ships[id].sunk
      && |b'.ships[id].cells| == GetSize(b.ships[id])
  {
  }

  /** What placeAt does to the grid when the ship fits: no shot changes,
      and a cell's back-reference either stays or points at the placed ship. */
  lemma PlaceAtCells(b: Board, id: ShipId, row: int, col: int, horizontal: bool)
    requires WellFormed(b) && id < |b.ships| && CanPlaceShip(b, id, row, col, horizontal)
    ensures var b' := PlaceAt(b, id, row, col, horizontal).0;
      && WellFormed(b') && SameShots(b, b')
      && (forall q: Pos :: At(b', q).owner == At(b, q).owner || At(b', q).owner == Some(id))
  {
  }

  /** The ship effects for a placement at a position known only to fit. */
  lemma PlacedShips(b: Board, id: ShipId, b': Board)
    requires WellFormed(b) && id < |b.ships| && PlacedSomewhere(b, id, b')
    ensures WellFormed(b') && b'.fleet == b.fleet && |b'.ships| == |b.ships|
    ensures forall j | 0 <= j < |b.ships| && j != id :: b'.ships[j] == b.ships[j]
    ensures b'.ships[id].kind == b.ships[id].kind && b'.ships[id].sunk == b.ships[id].sunk
    ensures |b'.ships[id].cells| == GetSize(b.ships[id])
  {
    var row: int, col: int, horizontal: bool :|
      CanPlaceShip(b, id, row, col, horizontal) && b' == PlaceAt(b, id, row, col, horizontal).0;
    PlaceAtShips(b, id, row, col, horizontal);
  }

  /** The grid effects for a placement at a position known only to fit. */
  lemma PlacedCells(b: Board, id: ShipId, b': Board)
    requires WellFormed(b) && id < |b.ships| && PlacedSomewhere(b, id, b')
    ensures WellFormed(b') && SameShots(b, b')
    ensures forall q: Pos :: At(b', q).owner == At(b, q).owner || At(b', q).owner == Some(id)
  {
    var row: int, col: int, horizontal: bool :|
      CanPlaceShip(b, id, row, col, horizontal) && b' == PlaceAt(b, id, row, col, horizontal).0;
    PlaceAtCells(b, id, row, col, horizontal);
  }

  /** A successful placement keeps ships apart, and keeps the board
      coherent when the placed ship was fresh. */
  lemma PlacedKeepsInvariants(b: Board, id: ShipId, b': Board)
    requires WellFormed(b) && id < |b.ships| && PlacedSomewhere(b, id, b')
    ensures NoTouching(b) ==> NoTouching(b')
    ensures Coherent(b) && b.ships[id].cells == [] && !b.ships[id].sunk ==> Coherent(b')
  {
    var row: int, col: int, horizontal: bool :|
      CanPlaceShip(b, id, row, col, horizontal) && b' == PlaceAt(b, id, row, col, horizontal).0;
    if NoTouching(b) {
      PlaceAtKeepsNoTouching(b, id, row, col, horizontal);
    }
    if Coherent(b) && b.ships[id].cells == [] && !b.ships[id].sunk {
      PlaceFreshKeepsCoherent(b, id, row, col, horizontal);
    }
  }

  /** Everything the rest of the placement loop relies on about a board
      b' obtained by placing ship id on b. */
  ghost predicate Placed(b: Board, id: ShipId, b': Board)
    requires WellFormed(b) && id < |b.ships|
  {
    && WellFormed(b') && b'.fleet == b.fleet && |b'.ships| == |b.ships|
    && (forall j | 0 <= j < |b.ships| && j != id :: b'.ships[j] == b.ships[j])
    && b'.ships[id].kind == b.ships[id].kind && b'.ships[id].sunk == b.ships[id].sunk
    && |b'.ships[id].cells| == GetSize(b.ships[id])
    && SameShots(b, b')
    && (forall q: Pos :: At(b', q).owner == At(b, q).owner || At(b', q).owner == Some(id))
    && (NoTouching(b) ==> NoTouching(b'))
    && (Coherent(b) && b.ships[id].cells == [] && !b.ships[id].sunk ==> Coherent(b'))
  }

  /** A placement at any position where the ship fits has all those effects. */
  lemma PlacedSomewhereIsPlaced(b: Board, id: ShipId, b': Board)
    requires WellFormed(b) && id < |b.ships| && PlacedSomewhere(b, id, b')
    ensures Placed(b, id, b')
  {
    PlacedShips(b, id, b');
    PlacedCells(b, id, b');
    PlacedKeepsInvariants(b, id, b');
  }

  /** Board.placeShipRandomly from attempt number `attempt` on: each attempt
      draws a row, a column and an orientation; the first that fits places
      the ship; after MAX_ATTEMPTS misses the ship is given up and the board
      is unchanged. Returns the board, whether the ship was placed, and the
      next unused draw. */
  function PlaceShipRandomlyFrom(b: Board, id: ShipId, rng: Rng, pos: nat, attempt: nat): (res: (Board, bool, nat))
    requires WellFormed(b) && id < |b.ships| && attempt <= MAX_ATTEMPTS
    ensures WellFormed(res.0) && res.0.fleet == b.fleet && |res.0.ships| == |b.ships|
    ensures pos <= res.2 <= pos + DRAWS_PER_ATTEMPT * (MAX_ATTEMPTS - attempt)
    ensures !res.1 <==> AllAttemptsFail(b, id, rng, pos, MAX_ATTEMPTS - attempt)
    ensures !res.1 ==> res.0 == b
    decreases MAX_ATTEMPTS - attempt
  {
    if attempt == MAX_ATTEMPTS then (b, false, pos)
    else
      var (b1, placed) := TryAttempt(b, id, rng, pos);
      if placed then (b1, true, pos + DRAWS_PER_ATTEMPT)
      else PlaceShipRandomlyFrom(b, id, rng, pos + DRAWS_PER_ATTEMPT, attempt + 1)
  }

  /** Attempt number a of a run whose draws start at pos is the first one
      that fits, and res is what placing the ship at its draws gives. */
  ghost predicate FirstFitAt(b: Board, id: ShipId, rng: Rng, pos: nat, a: nat, res: (Board, bool, nat))
    requires WellFormed(b) && id < |b.ships|
    decreases a
  {
    if a == 0 then !AttemptFails(b, id, rng, pos) && res == (TryAttempt(b, id, rng, pos).0, true, pos + DRAWS_PER_ATTEMPT)
    else AttemptFails(b, id, rng, pos) && FirstFitAt(b, id, rng, pos + DRAWS_PER_ATTEMPT, a - 1, res)
  }

  /** The ship lands exactly where the first fitting attempt put it, after
      every earlier attempt failed, and the draws stop right after it. */
  lemma {:induction false} PlaceShipRandomlyFirstFit(b: Board, id: ShipId, rng: Rng, pos: nat, attempt: nat)
    requires WellFormed(b) && id < |b.ships| && attempt <= MAX_ATTEMPTS
    requires PlaceShipRandomlyFrom(b, id, rng, pos, attempt).1
    ensures exists a | 0 <= a < MAX_ATTEMPTS - attempt ::
      FirstFitAt(b, id, rng, pos, a, PlaceShipRandomlyFrom(b, id, rng, pos, attempt))
    decreases MAX_ATTEMPTS - attempt
  {
    var res := PlaceShipRandomlyFrom(b, id, rng, pos, attempt);
    if AttemptFails(b, id, rng, pos) {
      var next := pos + DRAWS_PER_ATTEMPT;
      SkipFailedAttempt(b, id, rng, pos, attempt);
      PlaceShipRandomlyFirstFit(b, id, rng, next, attempt + 1);
      var a' :| 0 <= a' < MAX_ATTEMPTS - attempt - 1 && FirstFitAt(b, id, rng, next, a', res);
      assert FirstFitAt(b, id, rng, pos, a' + 1, res);
    } else {
      assert FirstFitAt(b, id, rng, pos, 0, res);
    }
  }

  /** A failed attempt only moves on to the next draws. */
  lemma SkipFailedAttempt(b: Board, id: ShipId, rng: Rng, pos: nat, attempt: nat)
    requires WellFormed(b) && id < |b.ships| && attempt < MAX_ATTEMPTS && AttemptFails(b, id, rng, pos)
    ensures PlaceShipRandomlyFrom(b, id, rng, pos, attempt) == PlaceShipRandomlyFrom(b, id, rng, pos + DRAWS_PER_ATTEMPT, attempt + 1)
  {
  }

  /** The first fitting attempt places the ship at a position where it fits. */
  lemma {:induction false} FirstFitPlaced(b: Board, id: ShipId, rng: Rng, pos: nat, a: nat, res: (Board, bool, nat))
    requires WellFormed(b) && id < |b.ships| && FirstFitAt(b, id, rng, pos, a, res)
    ensures PlacedSomewhere(b, id, res.0)
    decreases a
  {
    if a == 0 {
      var row, col, horizontal := DrawRow(rng, pos), DrawCol(rng, pos), DrawHorizontal(rng, pos);
      assert CanPlaceShip(b, id, row, col, horizontal) && res.0 == PlaceAt(b, id, row, col, horizontal).0;
    } else {
      FirstFitPlaced(b, id, rng, pos + DRAWS_PER_ATTEMPT, a - 1, res);
    }
  }

  /** Board.placeShipRandomly: up to MAX_ATTEMPTS random positions. */
  function PlaceShipRandomly(b: Board, id: ShipId, rng: Rng, pos: nat): (res: (Board, bool, nat))
    requires WellFormed(b) && id < |b.ships|
    ensures WellFormed(res.0) && res.0.fleet == b.fleet && |res.0.ships| == |b.ships|
    ensures pos <= res.2 <= pos + DRAWS_PER_ATTEMPT * MAX_ATTEMPTS
    ensures !res.1 <==> AllAttemptsFail(b, id, rng, pos, MAX_ATTEMPTS)
    ensures !res.1 ==> res.0 == b
    ensures res.1 ==> Placed(b, id, res.0)
  {
    var res := PlaceShipRandomlyFrom(b, id, rng, pos, 0);
    assert res.1 ==> Placed(b, id, res.0) by {
      if res.1 {
        PlaceShipRandomlyFirstFit(b, id, rng, pos, 0);
        var a :| 0 <= a < MAX_ATTEMPTS && FirstFitAt(b, id, rng, pos, a, res);
        FirstFitPlaced(b, id, rng, pos, a, res);
        PlacedSomewhereIsPlaced(b, id, res.0);
      }
    }
    res
  }

  /** The grid side of the state the placement loop keeps: the board is
      coherent, no two ships touch, no shot has been fired, and every ship
      cell belongs to a ship of the fleet. */
  ghost predicate GridReady(b: Board) {
    && Coherent(b) && NoTouching(b)
    && (forall q: Pos :: !At(b, q).IsTried() && !At(b, q).sunkPart)
    && (forall q: Pos :: At(b, q).owner.Some? ==> At(b, q).owner.value in b.fleet)
  }

  /** The fleet side: the placed fleet holds distinct afloat ships at full
      size; the ships still to place are distinct from them and from each
      other, unplaced and afloat. */
  ghost predicate FleetReady(b: Board, todo: seq<ShipId>) {
    && Distinct(b.fleet + todo)
    && (forall f | f in b.fleet :: f < |b.ships| && |b.ships[f].cells| == GetSize(b.ships[f]) && !b.ships[f].sunk)
    && (forall t | t in todo :: t < |b.ships| && b.ships[t].cells == [] && !b.ships[t].sunk)
  }

  /** The state the placement loop keeps. */
  ghost predicate Ready(b: Board, todo: seq<ShipId>) {
    GridReady(b) && FleetReady(b, todo)
  }

  /** Appending a stored ship to the fleet leaves the grid and the ship
      store as they were, so no invariant of the grid changes. */
  lemma JoinFleetKeepsInvariants(b: Board, id: ShipId)
    requires WellFormed(b) && id < |b.ships|
    ensures var b' := b.(fleet := b.fleet + [id]);
      && WellFormed(b') && (forall q: Pos :: At(b', q) == At(b, q))
      && (Coherent(b) ==> Coherent(b')) && (NoTouching(b) ==> NoTouching(b'))
  {
    JoinFleet(b, id);
  }

  /** Placing a fresh ship and adding it to the fleet keeps the grid side. */
  lemma GridStep(b: Board, id: ShipId, b1: Board)
    requires GridReady(b) && id < |b.ships| && b.ships[id].cells == [] && !b.ships[id].sunk
    requires Placed(b, id, b1)
    ensures WellFormed(b1) && GridReady(b1.(fleet := b1.fleet + [id]))
  {
    JoinFleetKeepsInvariants(b1, id);
  }

  /** Moving the next ship from the list to the fleet once placed keeps the
      fleet side. */
  lemma FleetStep(b: Board, todo: seq<ShipId>, b1: Board)
    requires WellFormed(b) && FleetReady(b, todo) && todo != [] && todo[0] < |b.ships|
    requires Placed(b, todo[0], b1)
    ensures WellFormed(b1) && FleetReady(b1.(fleet := b1.fleet + [todo[0]]), todo[1..])
  {
    var id := todo[0];
    var b2 := b1.(fleet := b1.fleet + [id]);
    DistinctMove(b.fleet, todo);
    forall f | f in b2.fleet
      ensures f < |b2.ships| && |b2.ships[f].cells| == GetSize(b2.ships[f]) && !b2.ships[f].sunk
    {
      if f != id {
        assert f in b.fleet;
      }
    }
    forall t | t in todo[1..]
      ensures t < |b2.ships| && b2.ships[t].cells == [] && !b2.ships[t].sunk
    {
      assert t in todo;
    }
  }

  /** One loop step keeps Ready: placing the next ship of the list and
      appending it to the fleet. */
  lemma ReadyStep(b: Board, todo: seq<ShipId>, b1: Board)
    requires Ready(b, todo) && todo != [] && todo[0] < |b.ships|
    requires Placed(b, todo[0], b1)
    ensures WellFormed(b1) && Ready(b1.(fleet := b1.fleet + [todo[0]]), todo[1..])
  {
    assert todo[0] in todo;
    GridStep(b, todo[0], b1);
    FleetStep(b, todo, b1);
  }

  /** Moving the head of the second list to the end of the first keeps the
      concatenation and every later entry of the second list. */
  lemma MoveHead<T>(s: seq<T>, t: seq<T>)
    requires t != []
    ensures (s + [t[0]]) + t[1..] == s + t
    ensures forall x | x in t[1..] :: x in t
  {
    assert (s + [t[0]]) + t[1..] == s + t;
  }

  /** Moving the head of the second list to the end of the first keeps the
      concatenation, and the moved entry occurs nowhere else. */
  lemma DistinctMove<T>(s: seq<T>, t: seq<T>)
    requires Distinct(s + t) && t != []
    ensures (s + [t[0]]) + t[1..] == s + t
    ensures t[0] !in s && forall x | x in t[1..] :: x != t[0]
  {
    assert (s + [t[0]]) + t[1..] == s + t;
    forall i | 0 <= i < |s|
      ensures s[i] != t[0]
    {
      assert (s + t)[i] == s[i] && (s + t)[|s|] == t[0];
    }
    forall x | x in t[1..]
      ensures x != t[0]
    {
      var k :| 0 <= k < |t[1..]| && t[1..][k] == x;
      assert (s + t)[|s| + 1 + k] == x && (s + t)[|s|] == t[0];
    }
  }

  /** The for-each loop of randomPlaceAllShips over the ships still to
      place: each placed ship joins the fleet; the first ship that finds no
      room clears the whole board and stops the loop. */
  function PlaceEach(b: Board, todo: seq<ShipId>, rng: Rng, pos: nat): (res: (Board, bool, nat))
    requires WellFormed(b) && forall t | t in todo :: t < |b.ships|
    ensures WellFormed(res.0) && |res.0.ships| == |b.ships|
    ensures pos <= res.2 <= pos + DRAWS_PER_ATTEMPT * MAX_ATTEMPTS * |todo|
    ensures res.1 ==> res.0.fleet == b.fleet + todo
    ensures !res.1 ==> res.0.fleet == [] && Empty(res.0)
    decreases |todo|
  {
    if todo == [] then (b, true, pos)
    else
      var id := todo[0];
      assert id in todo;
      var (b1, placed, pos1) := PlaceShipRandomly(b, id, rng, pos);
      if !placed then (NavalBoard.Clear(b1), false, pos1)
      else
        var b2 := b1.(fleet := b1.fleet + [id]);
        JoinFleet(b1, id);
        MoveHead(b.fleet, todo);
        PlaceEach(b2, todo[1..], rng, pos1)
  }

  /** The placement loop never changes the kind of a ship. */
  lemma {:induction false} PlaceEachKeepsKinds(b: Board, todo: seq<ShipId>, rng: Rng, pos: nat)
    requires WellFormed(b) && forall t | t in todo :: t < |b.ships|
    ensures Kinds(PlaceEach(b, todo, rng, pos).0.ships) == Kinds(b.ships)
    decreases |todo|
  {
    if todo != [] {
      var id := todo[0];
      assert id in todo;
      var (b1, placed, pos1) := PlaceShipRandomly(b, id, rng, pos);
      if placed {
        var b2 := b1.(fleet := b1.fleet + [id]);
        JoinFleet(b1, id);
        assert forall t | t in todo[1..] :: t in todo;
        assert Kinds(b1.ships) == Kinds(b.ships);
        PlaceEachKeepsKinds(b2, todo[1..], rng, pos1);
      }
    }
  }

  /** When the loop finishes, the ready state it started from has become a
      board whose whole list is placed: ships apart, back-references listed,
      every fleet ship at full size and afloat, nothing shot. */
  lemma {:induction false} PlaceEachKeepsReady(b: Board, todo: seq<ShipId>, rng: Rng, pos: nat)
    requires WellFormed(b) && forall t | t in todo :: t < |b.ships|
    requires Ready(b, todo) && PlaceEach(b, todo, rng, pos).1
    ensures Ready(PlaceEach(b, todo, rng, pos).0, [])
    decreases |todo|
  {
    if todo != [] {
      var id := todo[0];
      assert id in todo;
      var (b1, placed, pos1) := PlaceShipRandomly(b, id, rng, pos);
      var b2 := b1.(fleet := b1.fleet + [id]);
      ReadyStep(b, todo, b1);
      assert forall t | t in todo[1..] :: t in todo;
      PlaceEachKeepsReady(b2, todo[1..], rng, pos1);
    }
  }

  /** The k-th ship of the list gives up: the loop placed every ship before
      it, and on the board they left all MAX_ATTEMPTS of its attempts
      fail. */
  ghost predicate ShipGivesUpAt(b: Board, todo: seq<ShipId>, rng: Rng, pos: nat, k: nat)
    requires WellFormed(b) && (forall t | t in todo :: t < |b.ships|) && k < |todo|
  {
    assert forall t | t in todo[..k] :: t in todo;
    assert todo[k] in todo;
    var before := PlaceEach(b, todo[..k], rng, pos);
    before.1 && AllAttemptsFail(before.0, todo[k], rng, before.2, MAX_ATTEMPTS)
  }

  /** Some ship of the list gives up. */
  ghost predicate SomeShipGivesUp(b: Board, todo: seq<ShipId>, rng: Rng, pos: nat)
    requires WellFormed(b) && forall t | t in todo :: t < |b.ships|
  {
    exists k | 0 <= k < |todo| :: ShipGivesUpAt(b, todo, rng, pos, k)
  }

  /** Placing the head of the list and then the rest gives up at a later
      ship exactly when the rest gives up one position earlier. */
  lemma GivesUpLater(b: Board, todo: seq<ShipId>, rng: Rng, pos: nat, b2: Board, pos1: nat, k: nat)
    requires WellFormed(b) && (forall t | t in todo :: t < |b.ships|) && 0 < k < |todo| && todo[0] < |b.ships|
    requires var (b1, placed, p) := PlaceShipRandomly(b, todo[0], rng, pos);
      placed && p == pos1 && b2 == b1.(fleet := b1.fleet + [todo[0]])
    requires WellFormed(b2) && |b2.ships| == |b.ships|
    ensures forall t | t in todo[1..] :: t < |b2.ships|
    ensures ShipGivesUpAt(b, todo, rng, pos, k) <==> ShipGivesUpAt(b2, todo[1..], rng, pos1, k - 1)
  {
    assert forall t | t in todo[1..] :: t in todo;
    assert todo[..k][1..] == todo[1..][..k - 1];
    assert todo[1..][k - 1] == todo[k];
    assert todo[..k][0] == todo[0];
  }

  /** The placement loop fails exactly when some ship, on the board the
      ships before it left, finds all its attempts failing. */
  lemma {:induction false} PlaceEachFailsExactly(b: Board, todo: seq<ShipId>, rng: Rng, pos: nat)
    requires WellFormed(b) && forall t | t in todo :: t < |b.ships|
    ensures !PlaceEach(b, todo, rng, pos).1 <==> SomeShipGivesUp(b, todo, rng, pos)
    decreases |todo|
  {
    if todo != [] {
      var id := todo[0];
      assert id in todo;
      assert todo[..0] == [];
      assert ShipGivesUpAt(b, todo, rng, pos, 0) <==> !PlaceShipRandomly(b, id, rng, pos).1;
      var (b1, placed, pos1) := PlaceShipRandomly(b, id, rng, pos);
      if placed {
        var b2 := b1.(fleet := b1.fleet + [id]);
        JoinFleet(b1, id);
        assert forall t | t in todo[1..] :: t in todo;
        PlaceEachFailsExactly(b2, todo[1..], rng, pos1);
        GivesUpAfterHead(b, todo, rng, pos, b2, pos1);
      }
    }
  }

  /** Once the head of the list is placed, some ship gives up exactly when
      some ship of the rest does. */
  lemma GivesUpAfterHead(b: Board, todo: seq<ShipId>, rng: Rng, pos: nat, b2: Board, pos1: nat)
    requires WellFormed(b) && (forall t | t in todo :: t < |b.ships|) && todo != [] && todo[0] < |b.ships|
    requires var (b1, placed, p) := PlaceShipRandomly(b, todo[0], rng, pos);
      placed && p == pos1 && b2 == b1.(fleet := b1.fleet + [todo[0]])
    requires WellFormed(b2) && |b2.ships| == |b.ships| && forall t | t in todo[1..] :: t < |b2.ships|
    requires !ShipGivesUpAt(b, todo, rng, pos, 0)
    ensures SomeShipGivesUp(b, todo, rng, pos) <==> SomeShipGivesUp(b2, todo[1..], rng, pos1)
  {
    forall k | 0 < k < |todo|
      ensures ShipGivesUpAt(b, todo, rng, pos, k) <==> ShipGivesUpAt(b2, todo[1..], rng, pos1, k - 1)
    {
      GivesUpLater(b, todo, rng, pos, b2, pos1, k);
    }
    if SomeShipGivesUp(b2, todo[1..], rng, pos1) {
      var k :| 0 <= k < |todo| - 1 && ShipGivesUpAt(b2, todo[1..], rng, pos1, k);
      assert ShipGivesUpAt(b, todo, rng, pos, k + 1);
    }
  }

  /** The ids n consecutive new ships receive after the first `start`. */
  function FreshIds(start: nat, n: nat): (ids: seq<ShipId>)
    ensures |ids| == n && Distinct(ids)
    ensures forall k | 0 <= k < n :: ids[k] == start + k
  {
    seq(n, k => start + k)
  }

  /** A cleared board is ready for placement: nothing on it at all. */
  lemma ClearedGridReady(b: Board)
    requires WellFormed(b)
    ensures GridReady(NavalBoard.Clear(b))
  {
  }

  /** Creating ships leaves the grid, hence the grid side of readiness. */
  lemma CreatedKeepsGridReady(b: Board, kinds: seq<ShipType>)
    requires WellFormed(b) && GridReady(b)
    ensures GridReady(CreateShips(b, kinds).0)
  {
    var b1 := CreateShips(b, kinds).0;
    assert forall q: Pos :: At(b1, q) == At(b, q);
    assert forall q: Pos :: At(b1, q).owner.Some? ==> b1.ships[At(b1, q).owner.value] == b.ships[At(b, q).owner.value];
  }

  /** Any order of the freshly created ships is a list ready to place. */
  lemma CreatedFleetReady(b: Board, kinds: seq<ShipType>, order: seq<ShipId>)
    requires WellFormed(b) && b.fleet == []
    requires var ids := CreateShips(b, kinds).1; Distinct(order) && multiset(order) == multiset(ids)
    ensures FleetReady(CreateShips(b, kinds).0, order)
  {
    var (b1, ids) := CreateShips(b, kinds);
    assert b1.fleet + order == order;
    forall t | t in order
      ensures t < |b1.ships| && b1.ships[t].cells == [] && !b1.ships[t].sunk
    {
      assert t in multiset(order);
      var k :| 0 <= k < |ids| && ids[k] == t;
    }
  }

  /** The board after clearing it and creating the shuffled new ships is
      ready for the placement loop. */
  lemma CreatedReady(b: Board, kinds: seq<ShipType>, rng: Rng, pos: nat)
    requires WellFormed(b)
    ensures var created := CreateShips(NavalBoard.Clear(b), kinds);
      Ready(created.0, Shuffle(created.1, rng, pos).0)
  {
    var b0 := NavalBoard.Clear(b);
    var ids := CreateShips(b0, kinds).1;
    assert Distinct(ids) by {
      assert forall i, j | 0 <= i < j < |ids| :: ids[i] < ids[j];
    }
    ClearedGridReady(b);
    CreatedKeepsGridReady(b0, kinds);
    CreatedFleetReady(b0, kinds, Shuffle(ids, rng, pos).0);
  }

  /** The ids CreateShips hands out are the next free ones, in order. */
  lemma CreatedIds(b: Board, kinds: seq<ShipType>)
    requires WellFormed(b)
    ensures CreateShips(b, kinds).1 == FreshIds(|b.ships|, |kinds|)
  {
  }

  /** A reordering of ids below n holds only ids below n. */
  lemma PermutedIdsBelow(n: nat, ids: seq<ShipId>, order: seq<ShipId>)
    requires multiset(order) == multiset(ids) && forall k | 0 <= k < |ids| :: ids[k] < n
    ensures forall t | t in order :: t < n
  {
    forall t | t in order
      ensures t < n
    {
      assert t in multiset(order);
      var k :| 0 <= k < |ids| && ids[k] == t;
    }
  }

  /** Placement of the given kinds gives up: after clearing the board,
      creating the new ships and shuffling them, some ship of the shuffled
      order finds all its attempts failing on the board the ships before
      it left. */
  ghost predicate PlacementGivesUp(b: Board, kinds: seq<ShipType>, rng: Rng, pos: nat)
    requires WellFormed(b)
  {
    var created := CreateShips(NavalBoard.Clear(b), kinds);
    var shuffled := Shuffle(created.1, rng, pos);
    && (forall t | t in shuffled.0 :: t < |created.0.ships|)
    && SomeShipGivesUp(created.0, shuffled.0, rng, shuffled.1)
  }

  /** randomPlaceAllShips for an arbitrary list of ship kinds: clear the
      board, create one new ship per kind, shuffle them (|kinds| - 1 draws)
      and run the placement loop over the shuffled list. */
  function PlaceFleet(b: Board, kinds: seq<ShipType>, rng: Rng, pos: nat): (res: (Board, bool, nat))
    requires WellFormed(b)
    ensures WellFormed(res.0) && |res.0.ships| == |b.ships| + |kinds|
    ensures var drawn := if |kinds| > 1 then |kinds| - 1 else 0;
      pos + drawn <= res.2 <= pos + drawn + DRAWS_PER_ATTEMPT * MAX_ATTEMPTS * |kinds|
    ensures res.1 ==> multiset(res.0.fleet) == multiset(FreshIds(|b.ships|, |kinds|))
    ensures !res.1 ==> res.0.fleet == [] && Empty(res.0)
    ensures !res.1 <==> PlacementGivesUp(b, kinds, rng, pos)
  {
    var b0 := NavalBoard.Clear(b);
    var created := CreateShips(b0, kinds);
    var b1, ids := created.0, created.1;
    var shuffled := Shuffle(ids, rng, pos);
    var order, pos1 := shuffled.0, shuffled.1;
    CreatedIds(b0, kinds);
    PermutedIdsBelow(|b1.ships|, ids, order);
    PlaceEachFailsExactly(b1, order, rng, pos1);
    PlaceEach(b1, order, rng, pos1)
  }

  /** PlaceFleet keeps the kinds of the ships stored before and adds one
      new ship per kind asked for, in order. */
  lemma PlaceFleetKinds(b: Board, kinds: seq<ShipType>, rng: Rng, pos: nat)
    requires WellFormed(b)
    ensures Kinds(PlaceFleet(b, kinds, rng, pos).0.ships) == Kinds(b.ships) + kinds
  {
    var created := CreateShips(NavalBoard.Clear(b), kinds);
    PlaceFleetKeepsKinds(b, kinds, rng, pos);
    CreatedKinds(b.ships, created.0.ships, kinds, created.1);
  }

  /** PlaceFleet keeps the kind of every ship it creates. */
  lemma PlaceFleetKeepsKinds(b: Board, kinds: seq<ShipType>, rng: Rng, pos: nat)
    requires WellFormed(b)
    ensures Kinds(PlaceFleet(b, kinds, rng, pos).0.ships) == Kinds(CreateShips(NavalBoard.Clear(b), kinds).0.ships)
  {
    var created := CreateShips(NavalBoard.Clear(b), kinds);
    var shuffled := Shuffle(created.1, rng, pos);
    PlaceFleetUnfold(b, kinds, rng, pos);
    PlaceEachKeepsKinds(created.0, shuffled.0, rng, shuffled.1);
  }

  /** PlaceFleet is the placement loop over the shuffled new ships. */
  lemma PlaceFleetUnfold(b: Board, kinds: seq<ShipType>, rng: Rng, pos: nat)
    requires WellFormed(b)
    ensures var created := CreateShips(NavalBoard.Clear(b), kinds);
      var shuffled := Shuffle(created.1, rng, pos);
      && (forall t | t in shuffled.0 :: t < |created.0.ships|)
      && PlaceFleet(b, kinds, rng, pos) == PlaceEach(created.0, shuffled.0, rng, shuffled.1)
  {
    var created := CreateShips(NavalBoard.Clear(b), kinds);
    PermutedIdsBelow(|created.0.ships|, created.1, Shuffle(created.1, rng, pos).0);
  }

  /** A store extended with new ships has the old kinds followed by the
      kinds asked for. */
  lemma CreatedKinds(before: seq<Ship>, made: seq<Ship>, kinds: seq<ShipType>, ids: seq<ShipId>)
    requires Extends(before, made, kinds, ids)
    ensures Kinds(made) == Kinds(before) + kinds
  {
    forall j | |before| <= j < |made|
      ensures made[j].kind == kinds[j - |before|]
    {
      assert ids[j - |before|] == j;
    }
  }

  /** A successful PlaceFleet leaves a board whose fleet is placed, apart,
      coherent, afloat and unshot. */
  lemma PlaceFleetReady(b: Board, kinds: seq<ShipType>, rng: Rng, pos: nat)
    requires WellFormed(b) && PlaceFleet(b, kinds, rng, pos).1
    ensures |PlaceFleet(b, kinds, rng, pos).0.fleet| == |kinds|
    ensures Ready(PlaceFleet(b, kinds, rng, pos).0, [])
  {
    var created := CreateShips(NavalBoard.Clear(b), kinds);
    var shuffled := Shuffle(created.1, rng, pos);
    PlaceFleetUnfold(b, kinds, rng, pos);
    CreatedReady(b, kinds, rng, pos);
    PlaceEachKeepsReady(created.0, shuffled.0, rng, shuffled.1);
  }

  /** A finished placement: the ten ships are all on the board at full
      size, none sunk, and nothing has been shot. */
  lemma ReadyFleetPlaced(b: Board)
    requires Ready(b, []) && |b.fleet| == 10
    ensures AllShipsPlaced(b) && !AllShipsSunk(b)
    ensures forall q: Pos :: !At(b, q).IsTried()
  {
    assert b.fleet[0] in b.fleet;
    forall i | 0 <= i < |b.fleet|
      ensures |b.ships[b.fleet[i]].cells| == GetSize(b.ships[b.fleet[i]])
    {
      assert b.fleet[i] in b.fleet;
    }
  }

  /** Board.randomPlaceAllShips: clear the board, create the ten catalog
      ships, shuffle them (nine draws) and place them one by one at random,
      at most a hundred attempts of three draws each per ship. On failure
      the board is cleared and its fleet is empty. */
  function RandomPlaceAllShips(b: Board, rng: Rng, pos: nat): (res: (Board, bool, nat))
    requires WellFormed(b)
    ensures WellFormed(res.0) && |res.0.ships| == |b.ships| + 10
    ensures pos + 9 <= res.2 <= pos + 9 + DRAWS_PER_ATTEMPT * MAX_ATTEMPTS * 10
    ensures res.1 ==> multiset(res.0.fleet) == multiset(FreshIds(|b.ships|, 10))
    ensures !res.1 ==> res.0.fleet == [] && Empty(res.0)
    ensures !res.1 <==> PlacementGivesUp(b, Catalog, rng, pos)
  {
    assert |Catalog| == 10;
    PlaceFleet(b, Catalog, rng, pos)
  }

  /** A successful randomPlaceAllShips puts every catalog ship on the board
      at full size: no two ships touch, every ship cell points at a listed
      cell of its ship, nothing has been shot and no ship is sunk. */
  lemma RandomPlacementSound(b: Board, rng: Rng, pos: nat)
    requires WellFormed(b)
    ensures var res := RandomPlaceAllShips(b, rng, pos);
      && Kinds(res.0.ships) == Kinds(b.ships) + Catalog
      && (res.1 ==> AllShipsPlaced(res.0) && !AllShipsSunk(res.0))
      && (res.1 ==> Coherent(res.0) && NoTouching(res.0))
      && (res.1 ==> forall q: Pos :: !At(res.0, q).IsTried())
  {
    var res := RandomPlaceAllShips(b, rng, pos);
    assert |Catalog| == 10;
    assert res == PlaceFleet(b, Catalog, rng, pos);
    PlaceFleetKinds(b, Catalog, rng, pos);
    if res.1 {
      PlaceFleetReady(b, Catalog, rng, pos);
      ReadyFleetPlaced(res.0);
    }
  }
}
