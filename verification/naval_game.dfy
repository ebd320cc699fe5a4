/** GameState.newGame of the current engine: the boards a new game starts
    with. The rest of GameState is shared with the draft (GameStates). */
module NavalGame {
  import opened Base
  import opened Geometry
  import opened NavalShipType
  import opened NavalCell
  import opened NavalShip
  import opened NavalBoard
  import opened NavalRules
  import opened NavalFleet
  import opened Players
  import opened GameStates

  /** A full valid fleet: ten catalog ships at full size, none touching
      another, none sunk, nothing shot yet. */
  ghost predicate Deployed(b: Board)
    requires WellFormed(b)
  {
    && Kinds(b.ships) == Catalog
    && AllShipsPlaced(b) && !AllShipsSunk(b)
    && Coherent(b) && NoTouching(b)
    && forall q: Pos :: !At(b, q).IsTried()
  }

  /** The catalog ships waiting, in order and unplaced, on an untouched
      grid. */
  ghost predicate AwaitingPlacement(b: Board)
    requires WellFormed(b)
  {
    && Kinds(b.ships) == Catalog
    && |b.fleet| == |Catalog|
    && (forall k | 0 <= k < |Catalog| :: b.ships[b.fleet[k]] == NewShip(Catalog[k]))
    && Empty(b)
  }

  /** The player's board in newGame: createShipsWithoutPlacement on the
      board of a new player. */
  function PlayerStartBoard(b: Board): (b': Board)
    requires WellFormed(b) && b.ships == [] && Empty(b)
    ensures WellFormed(b') && AwaitingPlacement(b')
  {
    var b' := CreateShipsWithoutPlacement(b);
    SameGridEmpty(b, b');
    NewFleetKinds(b, Catalog);
    b'
  }

  /** Ships created on a board with no ships have exactly the kinds asked
      for. */
  lemma NewFleetKinds(b: Board, kinds: seq<ShipType>)
    requires WellFormed(b) && b.ships == []
    ensures Kinds(NewFleet(b, kinds).ships) == kinds
  {
    var b' := NewFleet(b, kinds);
    forall k | 0 <= k < |kinds|
      ensures b'.ships[k] == NewShip(kinds[k])
    {
      assert b'.fleet[k] == k;
    }
    FreshKinds(b'.ships, kinds);
  }

  /** Boards sharing a grid are empty together. */
  lemma SameGridEmpty(b: Board, b': Board)
    requires Shaped(b) && b'.grid == b.grid && Empty(b)
    ensures Shaped(b') && Empty(b')
  {
    assert forall q: Pos :: At(b', q) == At(b, q);
  }

  /** A store of fresh ships made from the given kinds, in order, has
      exactly those kinds. */
  lemma FreshKinds(ships: seq<Ship>, kinds: seq<ShipType>)
    requires |ships| == |kinds| && forall k | 0 <= k < |kinds| :: ships[k] == NewShip(kinds[k])
    ensures Kinds(ships) == kinds
  {
  }

  /** The machine's board in newGame: randomPlaceAllShips on a new board,
      whose outcome is ignored. It is a full valid fleet unless random
      placement gave up, and then it is empty water with no fleet. */
  function MachineStartBoard(rng: Rng, pos: nat): (b: Board)
    ensures WellFormed(b)
    ensures Deployed(b) || (b.fleet == [] && Empty(b))
    ensures Deployed(b) <==> !PlacementGivesUp(NewBoard(), Catalog, rng, pos)
  {
    MachinePlacementOutcome(rng, pos);
    RandomPlaceAllShips(NewBoard(), rng, pos).0
  }

  /** Random placement on a new board ends in one of two states. */
  lemma MachinePlacementOutcome(rng: Rng, pos: nat)
    ensures var res := RandomPlaceAllShips(NewBoard(), rng, pos);
      res.1 ==> Deployed(res.0)
    ensures var res := RandomPlaceAllShips(NewBoard(), rng, pos);
      !res.1 ==> res.0.fleet == [] && Empty(res.0)
  {
    var blank := NewBoard();
    var res := RandomPlaceAllShips(blank, rng, pos);
    RandomPlacementSound(blank, rng, pos);
    assert Kinds(blank.ships) == [];
  }

  /** GameState.newGame(nickname): a new player whose board holds the ten
      catalog ships unplaced, and a machine board on which random placement
      ran with the random stream `rng`. */
  function NewGame(nickname: string, rng: Rng, pos: nat): (g: GameState<Player<Board>, Board>)
    ensures g.player.name == nickname && g.player.sunkCount == 0
    ensures WellFormed(g.player.board) && AwaitingPlacement(g.player.board)
    ensures WellFormed(g.machineBoard)
    ensures Deployed(g.machineBoard) || (g.machineBoard.fleet == [] && Empty(g.machineBoard))
    ensures Deployed(g.machineBoard) <==> !PlacementGivesUp(NewBoard(), Catalog, rng, pos)
    ensures !g.gameOver && g.machineSunkCount == Some(0)
  {
    var p := NewPlayer(nickname, NewBoard());
    NewGameState(p.(board := PlayerStartBoard(p.board)), MachineStartBoard(rng, pos))
  }
}
