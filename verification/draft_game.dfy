/** GameState.newGame of the earlier draft: both boards are placed at
    random, each by its own java.util.Random, and a failed placement
    escapes from newGame as a RuntimeException. The rest of GameState is
    shared with the current engine (GameStates). */
module DraftGame {
  import opened Base
  import opened Geometry
  import opened DraftShipType
  import opened DraftCell
  import opened DraftShip
  import opened DraftBoard
  import opened Players
  import opened GameStates

  /** The draft's full fleet on a board no one has shot at: one ship per
      entry of the placement order, each at full size and afloat, no two
      sharing a cell, no other ship cell, and no cell tried or sunk. */
  ghost predicate Deployed(b: Board) {
    && Consistent(b)
    && Kinds(b.ships) == Expand(Types, Counts)
    && (forall j | 0 <= j < |b.ships| :: |b.ships[j].coords| == Size(b.ships[j].kind) && !b.ships[j].sunk)
    && forall q: Pos :: !At(b, q).IsTried() && !At(b, q).sunkPart
  }

  /** randomPlaceAllShips on a new board: a full fleet, or the exception
      exactly when some ship of the placement order finds no room. A
      placed board is not won before the first shot. */
  function PlacedBoard(rng: Rng, pos: nat): (res: Result<Board>)
    ensures res.Err? ==> res.error == Runtime
    ensures res.Err? <==> SomeKindGivesUp(NewBoard(), Expand(Types, Counts), rng, pos)
    ensures res.Ok? ==> Deployed(res.value)
    ensures res.Ok? ==> AllShipsSunk(res.value) == Ok(false)
  {
    var blank := NewBoard();
    NewBoardConsistent();
    match RandomPlaceAllShips(blank, rng, pos)
    case Err(e) => Err(e)
    case Ok((b, _)) =>
      GrownFromNothing(blank, Expand(Types, Counts), b);
      FlaggedNewBoardUntouched(blank, b);
      DeployedNotWon(b);
      Ok(b)
  }

  /** A new board with ship flags added has no cell tried or sunk. */
  lemma FlaggedNewBoardUntouched(blank: Board, b: Board)
    requires blank == NewBoard() && Shaped(b) && |blank.ships| <= |b.ships| && FlagsAdded(blank, b)
    ensures forall q: Pos :: !At(b, q).IsTried() && !At(b, q).sunkPart
  {
    forall q: Pos
      ensures !At(b, q).IsTried() && !At(b, q).sunkPart
    {
      assert At(blank, q) == NewCell();
    }
  }

  /** A deployed board is not won: allShipsSunk answers false, since the
      carrier's first coordinate is on the grid and not hit. */
  lemma DeployedNotWon(b: Board)
    requires Deployed(b)
    ensures AllShipsSunk(b) == Ok(false)
  {
    ExpandedOrder();
    assert |b.ships| == 10;
    var first := b.ships[0];
    SizesDistinctPositive(first.kind, first.kind);
    InAllCoords(b.ships, 0, 0);
    var q := first.coords[0];
    assert ShipAt(b, q);
    assert !FullyHit(b, first);
    ConsistentOnGrid(b);
  }

  /** Growth from a board without ships lists exactly the kinds placed. */
  lemma GrownFromNothing(b: Board, kinds: seq<ShipType>, b': Board)
    requires b.ships == [] && Grown(b, kinds, b')
    ensures Kinds(b'.ships) == kinds
    ensures forall j | 0 <= j < |b'.ships| :: |b'.ships[j].coords| == Size(b'.ships[j].kind) && !b'.ships[j].sunk
  {
    assert Kinds(b.ships) == [];
  }

  /** GameState.newGame(nickname): the player's board is placed with the
      stream `playerRng`, then the machine's with `machineRng`; either
      failure becomes the RuntimeException newGame throws, and nothing
      else does. */
  function NewGame(nickname: string, playerRng: Rng, playerPos: nat, machineRng: Rng, machinePos: nat)
    : (res: Result<GameState<Player<Board>, Board>>)
    ensures res.Err? ==> res.error == Runtime
    ensures res.Err? <==>
      || SomeKindGivesUp(NewBoard(), Expand(Types, Counts), playerRng, playerPos)
      || SomeKindGivesUp(NewBoard(), Expand(Types, Counts), machineRng, machinePos)
    ensures res.Ok? ==> var g := res.value;
      && g.player.name == nickname && g.player.sunkCount == 0
      && Deployed(g.player.board) && Deployed(g.machineBoard)
      && AllShipsSunk(g.player.board) == Ok(false) && AllShipsSunk(g.machineBoard) == Ok(false)
      && !g.gameOver && g.machineSunkCount == Some(0)
  {
    var p := NewPlayer(nickname, NewBoard());
    match PlacedBoard(playerRng, playerPos)
    case Err(e) => Err(e)
    case Ok(pb) =>
      match PlacedBoard(machineRng, machinePos)
      case Err(e) => Err(e)
      case Ok(mb) => Ok(NewGameState(p.(board := pb), mb))
  }
}
