# Battleship rules engine in Dafny

This project models the rules engine of a 10x10 Battleship game ("Batalla
naval"). The game is written in Java and comes in two generations: the
current engine (package `batalla_naval_re`) and an earlier draft (package
`batallanaval`). Each generation is its own family of modules. Only the
pool AI and the player and game-state records are shared, because they are
the same in both.

## How the Java objects become values

- **Board of the current engine** (`NavalBoard.Board`):
  - `grid`: the 10x10 matrix of cells.
  - `fleet`: the board's `ships` list, as ship ids.
  - `ships`: a store of every `Ship` object used with the board, indexed by id.
  - A cell's `ship` flag and its `shipObject` back-reference are always written together, so they become one optional owner id.
- **Hit notification.** `Cell.setHit` and `Ship.notifyHit` call each other. They are modelled as two mutually recursive functions that keep the Java call order exactly: `setHit` sets `hit` before it notifies, and `notifyHit` returns at once on a cell that is already hit.
- **Board of the draft** (`DraftBoard.Board`): a grid of five-flag cells and the list of placed ships. A draft ship holds its coordinates, and a cell does not know its ship.
- **Randomness.** `java.util.Random` is a stream `rng: nat -> nat` read at a position `pos`:
  - `nextInt(n)` returns `rng(pos) % n`;
  - `nextBoolean()` returns `rng(pos) % 2 == 1`.
  - Every function that draws returns the next unused position.
  - Every outcome Java could produce is some stream, so a property proved for all streams holds whatever `Random` returns.
  - The model follows the order in which the code draws: `Collections.shuffle` draws once per entry beyond the first, and each placement attempt draws a row, then a column, then an orientation.
- **Shared records.** `Players` and `GameStates` are generic in the board type. The draft's `Player` (src/main/java/org/example/batallanaval/model/Player.java) and `GameState` (src/main/java/org/example/batallanaval/model/GameState.java) have the same fields, the same `incrementSunkCount` and the same lazily re-created machine counter, so these two modules serve both generations. The draft has no `setSunkCount`.
- **Exceptions.** Java exceptions become `Base.Result` errors (`Err(IndexOutOfBounds)`, `Err(Placement)`, …). Java `int` counters are `Base.int32` and wrap around explicitly.

## What the proofs show about the code as written

- **A shot never sinks a ship in the current engine.**
  - `Cell.setHit` marks the cell hit and only then calls `Ship.notifyHit`, which returns early because the cell is already hit.
  - So `Cell.shoot` answers SUNK only when the owning ship was already sunk before the shot (`NavalBoard.CellShoot`).
  - On a coherent board that never happens (`NavalRules.CoherentShotNeverSunk`), and no sequence of shots changes `allShipsSunk` (`NavalRules.VolleyNeverSinks`).
  - A submarine shot on all three of its cells answers HIT three times and stays afloat (`NavalScenarios.SubmarineShotsAllHit`).
  - Only a direct call of `notifyHit`, as in the ship test, sinks a ship (`NavalRules.NotifyLastCellSinks`).
  - `Board.shoot`'s upgrade of HIT to SUNK therefore never fires.
  - The model follows the code here: the third shot at a submarine answers HIT, not SUNK, and a ship's sunk flag is not the same as all its cells being hit.
- **Stale back-references.** Re-placing a placed ship with `addShip` empties its cell list but leaves its old cells pointing at it (`NavalRules.ReplacementLeavesStaleCells`).
- **A ship blocks itself.** A placed ship counts its own cells as occupied (`NavalRules.ShipBlocksItself`).
- **Draft placement.** The draft has no adjacency rule (`DraftScenarios.AdjacentFrigatesPlaced`). A start above or left of the grid is not refused: the scan throws `ArrayIndexOutOfBoundsException` (`DraftScenarios.StartAboveGridThrows`).
- **Draft sinking.** The draft's `allShipsSunk` judges by the hits on the cells, not by the ships' sunk flags.

## Model

Source paths are relative to the repository root.

| member | source | states |
|---|---|---|
| Base.Increment | src/main/java/org/example/batalla_naval_re/model/Player.java:79-81 | Java `x++` on an int: one more below INT_MAX, INT_MIN after INT_MAX |
| Base.NextInt | src/main/java/org/example/batalla_naval_re/model/Board.java:299-300 | every value a bounded draw returns lies in [0, bound) |
| Geometry.SegmentDistinct | src/main/java/org/example/batalla_naval_re/model/Ship.java:163-168 | the cells a ship is laid on are pairwise different |
| Geometry.AllPairsExactlyOnce | src/main/java/org/example/batalla_naval_re/ai/SimpleAI.java:39 | the constructor's row-by-row enumeration holds exactly the grid coordinates, each once |
| NavalShipType.CatalogSizes | src/main/java/org/example/batalla_naval_re/model/ShipType.java:16-25 | carrier 4, submarine 3, destroyer 2, frigate 1 |
| NavalShipType.SizesDistinct | src/main/java/org/example/batalla_naval_re/model/ShipType.java:16-25 | two types with the same size are the same type |
| NavalShipType.FindBySize | src/main/java/org/example/batalla_naval_re/model/ShipType.java:80-85 | the search over the values from position i finds a type of the size exactly when one exists there; otherwise IllegalArgument |
| NavalShipType.FromSize | src/main/java/org/example/batalla_naval_re/model/ShipType.java:79-86 | a type is returned exactly for sizes 1 to 4, and it has that size; any other size throws IllegalArgumentException |
| NavalShipType.FromSizeRoundTrip | src/main/java/org/example/batalla_naval_re/model/ShipType.java:79-86 | looking a type up by its own size gives that type back |
| NavalCell.Clear | src/main/java/org/example/batalla_naval_re/model/Cell.java:215-222 | the cell becomes untried water with no owner and no flags; row and column are kept |
| NavalCell.NewCell | src/main/java/org/example/batalla_naval_re/model/Cell.java:55-59 | a new cell has the given position and is untried water |
| NavalCell.SetShip | src/main/java/org/example/batalla_naval_re/model/Cell.java:125-128 | the cell is a ship cell exactly when given a ship, owned by it; nothing else changes |
| NavalCell.SetHitFlag | src/main/java/org/example/batalla_naval_re/model/Cell.java:138-142 | no change on a hit cell; otherwise `hit` takes the argument and `miss` is cleared |
| NavalCell.SetMiss | src/main/java/org/example/batalla_naval_re/model/Cell.java:152-156 | no change on a missed cell; otherwise `miss` takes the argument and `hit` is cleared |
| NavalCell.SetSunkPart | src/main/java/org/example/batalla_naval_re/model/Cell.java:164-167 | the flag is recorded and a sunk part is always hit |
| NavalCell.SetVisibleToPlayer | src/main/java/org/example/batalla_naval_re/model/Cell.java:169-171 | only the visibility flag changes |
| NavalCell.HitMissExclusive | src/main/java/org/example/batalla_naval_re/model/Cell.java:138-156 | neither setter can leave a cell both hit and missed |
| NavalShip.NewShip | src/main/java/org/example/batalla_naval_re/model/Ship.java:28-33 | a new ship has no cells, is horizontal and is afloat |
| NavalShip.GetSize | src/main/java/org/example/batalla_naval_re/model/Ship.java:104-106 | a ship's size is its type's size, between 1 and 4 |
| NavalShip.SetHorizontal | src/main/java/org/example/batalla_naval_re/model/Ship.java:140-142 | only the orientation changes |
| NavalBoard.GetCell | src/main/java/org/example/batalla_naval_re/model/Board.java:60-74 | the cell is returned exactly for coordinates on the grid; otherwise IndexOutOfBoundsException |
| NavalBoard.MarkAsSunk | src/main/java/org/example/batalla_naval_re/model/Ship.java:74-79 | the ship is sunk, each of its cells is a hit sunk part, and no other cell or ship changes |
| NavalBoard.SetHit | src/main/java/org/example/batalla_naval_re/model/Cell.java:138-146 | with the notification included, setHit changes only that cell's flags: no ship changes and nothing sinks |
| NavalBoard.NotifyHit | src/main/java/org/example/batalla_naval_re/model/Ship.java:61-69 | ignored for a cell the ship does not list or one already hit; otherwise the cell is hit and the ship is sunk exactly when it was or all its cells are now hit, with its cells then sunk parts; no other ship changes |
| NavalBoard.CellShoot | src/main/java/org/example/batalla_naval_re/model/Cell.java:191-206 | ALREADY_TRIED exactly on a tried cell, with no change; water becomes a miss; a ship cell becomes hit and answers SUNK exactly when its ship was sunk before the shot; ships never change |
| NavalBoard.Shoot | src/main/java/org/example/batalla_naval_re/model/Board.java:91-100 | off the grid it throws; on the grid the answer and board are exactly the cell's shot |
| NavalBoard.CellFreeMeaning | src/main/java/org/example/batalla_naval_re/model/Board.java:142-149 | the neighbourhood test holds exactly when no on-grid cell in the 3x3 square is a ship cell |
| NavalBoard.IsCellFreeForShipPlacement | src/main/java/org/example/batalla_naval_re/model/Board.java:142-149 | the nested loops answer true exactly when the 3x3 neighbourhood holds no ship cell |
| NavalBoard.CanPlaceMeaning | src/main/java/org/example/batalla_naval_re/model/Board.java:164-176 | canPlaceShip holds exactly when every segment is on the grid with no ship cell in its 3x3 neighbourhood |
| NavalBoard.CanPlaceAtMeaning | src/main/java/org/example/batalla_naval_re/model/Ship.java:185-195 | canPlaceAt holds exactly when each segment of the ship's size is on the grid, is not a ship cell and has no owned cell around it, the ship's own cells included |
| NavalBoard.AddCell | src/main/java/org/example/batalla_naval_re/model/Ship.java:44-49 | a cell the ship lists already changes nothing; a new one is appended and pointed back at the ship |
| NavalBoard.AddCellsAppends | src/main/java/org/example/batalla_naval_re/model/Ship.java:163-168 | adding distinct unlisted cells appends them to the ship's list in order |
| NavalBoard.AddCellsMarks | src/main/java/org/example/batalla_naval_re/model/Ship.java:163-168 | adding distinct unlisted cells points exactly those cells at the ship |
| NavalBoard.PlaceAt | src/main/java/org/example/batalla_naval_re/model/Ship.java:157-170 | refused with no change unless the placement is legal; otherwise the ship holds exactly its size in consecutive cells from the start, with the orientation recorded, and only those cells change owner |
| NavalBoard.AddShip | src/main/java/org/example/batalla_naval_re/model/Board.java:119-127 | succeeds exactly when canPlaceShip holds; on failure nothing changes; on success the ship is placed and joins the fleet only if not already in it |
| NavalBoard.FleetOracles | src/main/java/org/example/batalla_naval_re/model/Board.java:187-199 | an empty fleet is all sunk but not all placed; all sunk exactly when every fleet id is the id of a sunk ship; all placed exactly when the fleet has ten ships, each holding as many cells as its type's size |
| NavalBoard.Clear | src/main/java/org/example/batalla_naval_re/model/Board.java:213-220 | every cell cleared and the fleet emptied; ship objects untouched |
| NavalBoard.NewBoard | src/main/java/org/example/batalla_naval_re/model/Board.java:34-50 | a grid of new cells at their own positions, no fleet |
| NavalRules.MarkClearCellsKeepsNoTouching | src/main/java/org/example/batalla_naval_re/model/Board.java:164-176 | giving one ship cells that have no ship cell around them keeps different ships out of each other's neighbourhoods |
| NavalRules.PlaceAtKeepsNoTouching | src/main/java/org/example/batalla_naval_re/model/Ship.java:157-170 | placeAt keeps the no-touching rule |
| NavalRules.AddShipKeepsNoTouching | src/main/java/org/example/batalla_naval_re/model/Board.java:119-127 | addShip keeps the no-touching rule |
| NavalRules.PlaceFreshKeepsCoherent | src/main/java/org/example/batalla_naval_re/model/Ship.java:157-170 | placing a fresh afloat ship keeps every back-reference listed and every sunk ship fully hit |
| NavalRules.CellShootKeepsSane | src/main/java/org/example/batalla_naval_re/model/Cell.java:191-206 | a shot keeps hit and miss exclusive and sunk parts hit |
| NavalRules.CellShootKeepsCoherent | src/main/java/org/example/batalla_naval_re/model/Cell.java:191-206 | a shot keeps back-references listed and sunk ships fully hit |
| NavalRules.CoherentShotNeverSunk | src/main/java/org/example/batalla_naval_re/model/Cell.java:196-201 | on a coherent board a shot never answers SUNK |
| NavalRules.VolleyNeverSinks | src/main/java/org/example/batalla_naval_re/model/Board.java:91-100 | any sequence of shots leaves ships and fleet unchanged, so allShipsSunk keeps its value |
| NavalRules.NotifyLastCellSinks | src/main/java/org/example/batalla_naval_re/model/Ship.java:61-79 | notifying the last unhit cell of a ship sinks it and makes every one of its cells a sunk part |
| NavalRules.NotifyKeepsSunk | src/main/java/org/example/batalla_naval_re/model/Ship.java:61-79 | notifyHit never refloats a sunk ship |
| NavalRules.ShipBlocksItself | src/main/java/org/example/batalla_naval_re/model/Board.java:164-176 | repeating a successful addShip fails, because the ship's own cells block it |
| NavalRules.ReplacementLeavesStaleCells | src/main/java/org/example/batalla_naval_re/model/Ship.java:157-170 | after re-placement, an old cell outside the new position still points at the ship, which no longer lists it |
| NavalFleet.CatalogCounts | src/main/java/org/example/batalla_naval_re/model/Board.java:272-285 | one carrier, two submarines, three destroyers, four frigates: twenty cells |
| NavalFleet.TotalSize | src/main/java/org/example/batalla_naval_re/model/ShipType.java:16-25 | the cells of n ships number between n and 4n |
| NavalFleet.CreateShipsWithoutPlacement | src/main/java/org/example/batalla_naval_re/model/Board.java:230-242 | the fleet becomes ten new, distinct, unplaced ships of the catalog in catalog order; the grid is untouched |
| NavalFleet.CreatedFleetUnplaced | src/main/java/org/example/batalla_naval_re/model/Board.java:187-199 | right after that, the fleet is neither all placed nor all sunk |
| NavalFleet.SwapPermutes | src/main/java/org/example/batalla_naval_re/model/Board.java:255 | a swap keeps the entries and a list without repeats free of them |
| NavalFleet.Shuffle | src/main/java/org/example/batalla_naval_re/model/Board.java:255 | the shuffle is a permutation and draws once per entry beyond the first |
| NavalFleet.TryAttempt | src/main/java/org/example/batalla_naval_re/model/Board.java:299-306 | an attempt succeeds exactly when the drawn position fits, and leaves the board alone otherwise |
| NavalFleet.PlaceShipRandomlyFrom | src/main/java/org/example/batalla_naval_re/model/Board.java:297-308 | failure exactly when every remaining attempt fails, with no change; three draws per attempt at most |
| NavalFleet.PlaceShipRandomlyFirstFit | src/main/java/org/example/batalla_naval_re/model/Board.java:297-306 | on success the ship lands at the first attempt that fits, all earlier ones having failed |
| NavalFleet.PlacedKeepsInvariants | src/main/java/org/example/batalla_naval_re/model/Board.java:303-305 | a placement where the ship fits keeps ships apart, and keeps the board coherent for a fresh ship |
| NavalFleet.PlaceShipRandomly | src/main/java/org/example/batalla_naval_re/model/Board.java:294-309 | at most 100 attempts; failure exactly when all fail, with no change; success places the ship at full size with the invariants kept |
| NavalFleet.PlaceEach | src/main/java/org/example/batalla_naval_re/model/Board.java:258-264 | on success the fleet is extended by the list in order; on failure the board is cleared with an empty fleet |
| NavalFleet.PlaceEachFailsExactly | src/main/java/org/example/batalla_naval_re/model/Board.java:258-264 | the loop fails exactly when some ship of the list, on the board the ships before it left, has all 100 attempts fail |
| NavalFleet.PlaceEachKeepsReady | src/main/java/org/example/batalla_naval_re/model/Board.java:258-264 | the loop ends with every listed ship placed at full size, afloat, apart and coherent, nothing shot |
| NavalFleet.PlaceFleet | src/main/java/org/example/batalla_naval_re/model/Board.java:253-266 | success yields a fleet that is a permutation of the new ships; failure leaves an empty board and fleet, and happens exactly when some ship of the shuffled order has all its attempts fail on the board the earlier ships left |
| NavalFleet.PlaceFleetReady | src/main/java/org/example/batalla_naval_re/model/Board.java:253-266 | a successful run leaves all the new ships placed, apart, coherent, afloat and unshot |
| NavalFleet.ReadyFleetPlaced | src/main/java/org/example/batalla_naval_re/model/Board.java:187-199 | ten ready ships make allShipsPlaced true and allShipsSunk false |
| NavalFleet.RandomPlaceAllShips | src/main/java/org/example/batalla_naval_re/model/Board.java:253-266 | ten new ships; false exactly when some ship of the shuffled catalog has all 100 attempts fail on the board the ships before it left; true gives a fleet that is a permutation of the new ships; false gives empty water and an empty fleet |
| NavalFleet.RandomPlacementSound | src/main/java/org/example/batalla_naval_re/model/Board.java:253-309 | after success the catalog is placed in full, no two ships touch, back-references are consistent, nothing is shot or sunk |
| NavalGame.PlayerStartBoard | src/main/java/org/example/batalla_naval_re/model/GameState.java:67-69 | the new player's board holds the ten catalog ships unplaced on untouched water |
| NavalGame.MachinePlacementOutcome | src/main/java/org/example/batalla_naval_re/model/GameState.java:71-73 | random placement on a new board gives a full valid fleet or empty water with no fleet |
| NavalGame.MachineStartBoard | src/main/java/org/example/batalla_naval_re/model/GameState.java:71-73 | the machine's board is a full valid fleet exactly when random placement did not give up, and empty water with no fleet otherwise |
| NavalGame.NewGame | src/main/java/org/example/batalla_naval_re/model/GameState.java:66-76 | the game starts with the named player at zero sinkings, the player's ships awaiting placement, the machine's board a full valid fleet exactly when placement did not give up and empty otherwise, not over, counter at zero |
| Players.NewPlayer | src/main/java/org/example/batalla_naval_re/model/Player.java:38-42 | a new player has the name, the board and no ship sunk |
| Players.IncrementSunkCount | src/main/java/org/example/batalla_naval_re/model/Player.java:79-81 | the counter goes up by one, wrapping at INT_MAX; name and board stay |
| Players.SetSunkCount | src/main/java/org/example/batalla_naval_re/model/Player.java:89-91 | the counter takes the value; name and board stay |
| Players.IncrementsCount | src/main/java/org/example/batalla_naval_re/model/Player.java:79-81 | n increments add exactly n while the sum stays in int range |
| Players.NewPlayerCounts | src/main/java/org/example/batalla_naval_re/model/Player.java:38-81 | a new player who sinks n ships reports n |
| GameStates.NewGameState | src/main/java/org/example/batalla_naval_re/model/GameState.java:32-50 | a new state holds the player and board, is not over, and its machine counter is 0 |
| GameStates.SetGameOver | src/main/java/org/example/batalla_naval_re/model/GameState.java:108-110 | only the flag changes |
| GameStates.GetMachine | src/main/java/org/example/batalla_naval_re/model/GameState.java:118-120 | the machine is never a player |
| GameStates.GetMachineSunkCount | src/main/java/org/example/batalla_naval_re/model/GameState.java:130-133 | an absent counter is re-created at 0; a present one is returned unchanged |
| GameStates.GetMachineSunkCountStable | src/main/java/org/example/batalla_naval_re/model/GameState.java:130-133 | a second read returns the same and changes nothing more |
| PoolAI.NewAI | src/main/java/org/example/batalla_naval_re/ai/SimpleAI.java:37-40 | the pool holds every grid coordinate exactly once |
| PoolAI.RemoveAt | src/main/java/org/example/batalla_naval_re/ai/SimpleAI.java:56 | removal takes exactly the one entry out |
| PoolAI.NextShot | src/main/java/org/example/batalla_naval_re/ai/SimpleAI.java:53-61 | (0,0) with nothing drawn on an empty pool; otherwise the pool strictly shrinks to a sub-multiset, and exactly one draw is used per entry taken out |
| PoolAI.NextShotOutcome | src/main/java/org/example/batalla_naval_re/ai/SimpleAI.java:53-61 | the shot is an untried entry taken from the pool, or (0,0) with the pool used up; every other entry taken was tried |
| PoolAI.NextShotOnNavalBoard | src/main/java/org/example/batalla_naval_re/ai/SimpleAI.java:53-61 | against the current board the shot is an untried cell from the pool or the exhausted fallback |
| PoolAI.NextShotOnDraftBoard | src/main/java/org/example/batallanaval/ai/SimpleAI.java:20-28 | the same against the draft's board |
| PoolAI.ReportResult | src/main/java/org/example/batalla_naval_re/ai/SimpleAI.java:73-75 | the AI ignores the outcome |
| PoolAI.FirstShotFresh | src/main/java/org/example/batalla_naval_re/ai/SimpleAI.java:53-61 | with nothing in the pool tried, one call takes exactly one entry, untried, and the rest stays untried and repeat-free |
| PoolAI.SalvoDrawsFromPool | src/main/java/org/example/batalla_naval_re/ai/SimpleAI.java:53-61 | n shots shrink the pool by n, and every starting entry is still pooled or was fired |
| PoolAI.SalvoShotsFromPool | src/main/java/org/example/batalla_naval_re/ai/SimpleAI.java:53-61 | every shot of a salvo comes from the starting pool |
| PoolAI.SalvoFresh | src/main/java/org/example/batalla_naval_re/ai/SimpleAI.java:53-61 | no shot of a salvo hits a cell tried before it |
| PoolAI.SalvoDistinct | src/main/java/org/example/batalla_naval_re/ai/SimpleAI.java:53-61 | no cell is fired at twice |
| PoolAI.SalvoExhaustsPool | src/main/java/org/example/batalla_naval_re/ai/SimpleAI.java:53-61 | as many shots as pool entries fire at each entry exactly once and empty the pool |
| PoolAI.NewAIFiresEverywhere | src/main/java/org/example/batalla_naval_re/ai/SimpleAI.java:37-61 | a hundred shots from a new AI at an untouched board hit every cell exactly once |
| NavalScenarios.NewBoardEmpty | src/main/java/org/example/batalla_naval_re/model/Board.java:34-50 | a new board is untouched water |
| NavalScenarios.EmptyBoardPlaceable | src/main/java/org/example/batalla_naval_re/model/Board.java:164-176 | on an empty board a ship fits exactly when all its segments are on the grid |
| NavalScenarios.CarrierOffTheEdgeRefused | src/test/java/BoardTest.java:34-40 | a carrier at (9, 9) horizontal is refused and nothing changes |
| NavalScenarios.DestroyerAtOriginPlaced | src/test/java/BoardTest.java:21-28 | a destroyer at (0, 0) is accepted and owns (0, 0) and (0, 1) |
| NavalScenarios.DestroyerPlacedByShip | src/test/java/ShipTest.java:9-17 | placeAt of a destroyer at (2, 2) succeeds with two cells |
| NavalScenarios.WaterShotMissesOnce | src/test/java/BoardTest.java:47-51 | a shot at water answers MISS, and a second one ALREADY_TRIED with no change |
| NavalScenarios.FrigateSinksOnItsHit | src/test/java/ShipTest.java:20-31 | notifying a placed frigate's only cell sinks it and makes the cell a sunk part |
| NavalScenarios.SecondShipOnSameSpotRefused | src/test/java/ShipTest.java:33-43 | a second ship placed where one already is gets refused with no change |
| NavalScenarios.AdjacentFrigateRefused | src/main/java/org/example/batalla_naval_re/model/Board.java:164-176 | a frigate right next to a placed ship is refused |
| NavalScenarios.FrigateNearDestroyer | src/main/java/org/example/batalla_naval_re/model/Board.java:142-176 | after a destroyer at (0, 0), a frigate at (1, 1) is refused and one at (3, 3) is placed |
| NavalScenarios.SubmarineShotsAllHit | src/main/java/org/example/batalla_naval_re/model/Cell.java:138-146 | three shots along a placed submarine answer HIT each time and leave it fully hit but afloat |
| NavalScenarios.ShotAtAfloatShip | src/main/java/org/example/batalla_naval_re/model/Cell.java:191-201 | a shot at an untried cell of an afloat ship answers HIT and changes only that cell |
| DraftShipType.SizesDistinctPositive | src/main/java/org/example/batallanaval/model/ShipType.java:4-7 | sizes are positive and a size identifies its type |
| DraftCell.NewCell | src/main/java/org/example/batallanaval/model/Cell.java:7-13 | a new cell has every flag false |
| DraftCell.SetShip | src/main/java/org/example/batallanaval/model/Cell.java:16 | only the ship flag changes |
| DraftCell.SetHit | src/main/java/org/example/batallanaval/model/Cell.java:18 | only the hit flag changes |
| DraftCell.SetMiss | src/main/java/org/example/batallanaval/model/Cell.java:20 | only the miss flag changes |
| DraftCell.SetSunkPart | src/main/java/org/example/batallanaval/model/Cell.java:22 | only the sunk-part flag changes |
| DraftCell.SetVisibleToPlayer | src/main/java/org/example/batallanaval/model/Cell.java:25 | only the visibility flag changes |
| DraftCell.HitAndMissTogether | src/main/java/org/example/batallanaval/model/Cell.java:18-23 | nothing stops a draft cell from being hit and missed at once |
| DraftCell.VisibilityIndependent | src/main/java/org/example/batallanaval/model/Cell.java:15-25 | no shot-state setter touches visibility |
| DraftShip.NewShip | src/main/java/org/example/batallanaval/model/Ship.java:13 | a new ship has no coordinates and is afloat |
| DraftShip.AddCoord | src/main/java/org/example/batallanaval/model/Ship.java:17 | one coordinate appended; type and flag kept |
| DraftShip.AnyMatch | src/main/java/org/example/batallanaval/model/Ship.java:18-20 | the stream search finds a match exactly when one exists from index i |
| DraftShip.Occupies | src/main/java/org/example/batallanaval/model/Ship.java:18-20 | occupies holds exactly for the ship's coordinates |
| DraftShip.SetSunk | src/main/java/org/example/batallanaval/model/Ship.java:22 | the flag takes the value; coordinates and type kept |
| DraftShip.AddCoordOccupies | src/main/java/org/example/batallanaval/model/Ship.java:17-20 | after addCoord the ship occupies the new coordinate and exactly the old ones besides |
| DraftBoard.NewBoard | src/main/java/org/example/batallanaval/model/Board.java:17-19 | a new board has fresh cells and no ships |
| DraftBoard.GetCell | src/main/java/org/example/batallanaval/model/Board.java:21-23 | the cell on the grid; ArrayIndexOutOfBoundsException off it |
| DraftBoard.ScanFree | src/main/java/org/example/batallanaval/model/Board.java:28-31 | true exactly when every remaining segment is on the grid and free; false only at a ship cell; an exception only at a segment off the grid |
| DraftBoard.CanPlace | src/main/java/org/example/batallanaval/model/Board.java:25-34 | true exactly when the far end fits and every segment is free water; past the far edge false; a start on the grid never throws |
| DraftBoard.PlaceFrom | src/main/java/org/example/batallanaval/model/Board.java:39-44 | the loop flags exactly the given cells as ship cells and appends them to the ship's coordinates |
| DraftBoard.PlaceShip | src/main/java/org/example/batallanaval/model/Board.java:36-46 | PlacementException with no change when refused, canPlace's exception when it throws; otherwise the ship's cells are flagged and it joins the list with their coordinates |
| DraftBoard.Shoot | src/main/java/org/example/batallanaval/model/Board.java:48-58 | true exactly on an untried ship cell; a tried cell changes nothing; one cell changes at most; throws off the grid |
| DraftBoard.ShootKeepsConsistent | src/main/java/org/example/batallanaval/model/Board.java:48-58 | a shot keeps the ship cells exactly the distinct ship coordinates; a fully hit ship stays fully hit, so allShipsSunk stays true once true |
| DraftBoard.AllHit | src/main/java/org/example/batallanaval/model/Board.java:62 | true exactly when every coordinate from i is on the grid and hit; on-grid coordinates never throw |
| DraftBoard.AllShipsSunkFrom | src/main/java/org/example/batallanaval/model/Board.java:61-65 | true exactly when every ship from i is fully hit |
| DraftBoard.AllShipsSunk | src/main/java/org/example/batallanaval/model/Board.java:60-66 | true exactly when every ship is fully hit, regardless of the sunk flags; true with no ships |
| DraftBoard.MarkSunkParts | src/main/java/org/example/batallanaval/model/Board.java:74 | exactly the listed cells become sunk parts |
| DraftBoard.CheckAndMarkSunkFrom | src/main/java/org/example/batallanaval/model/Board.java:69-79 | true exactly when a ship from i occupies the cell and is fully hit; the first such ship in list order is then flagged and marked; nothing changes on false |
| DraftBoard.CheckAndMarkSunkAt | src/main/java/org/example/batallanaval/model/Board.java:68-80 | true exactly when some ship at the cell is fully hit; the first such ship in list order is then flagged sunk with its cells marked; nothing changes on false |
| DraftBoard.CheckAndMarkSunkAtKeepsConsistent | src/main/java/org/example/batallanaval/model/Board.java:68-80 | marking a ship sunk keeps the ship cells exactly the distinct ship coordinates |
| DraftBoard.CheckAndMarkSunkAtAgain | src/main/java/org/example/batallanaval/model/Board.java:68-80 | asking again about a sunk ship's cell answers true again |
| DraftBoard.MarkedStaysSunk | src/main/java/org/example/batallanaval/model/Board.java:71-74 | marking a ship sunk keeps it fully hit at the same cell |
| DraftBoard.ConsistentOnGrid | src/main/java/org/example/batallanaval/model/Board.java:36-46 | on a consistent board all ship coordinates are on the grid |
| DraftBoard.NewBoardConsistent | src/main/java/org/example/batallanaval/model/Board.java:17-19 | a new board is consistent |
| DraftBoard.PlaceShipKeepsConsistent | src/main/java/org/example/batallanaval/model/Board.java:36-46 | placing a ship with no coordinates keeps the ship cells exactly the ship coordinates, none claimed twice |
| DraftBoard.PlaceShipConsistent | src/main/java/org/example/batallanaval/model/Board.java:38-45 | the same, on a board known to be consistent |
| DraftBoard.AddedConsistent | src/main/java/org/example/batallanaval/model/Board.java:39-45 | a ship added on distinct free cells, which become flagged while every other cell stays, keeps the board consistent |
| DraftBoard.ExpandedOrder | src/main/java/org/example/batallanaval/model/Board.java:83-88 | the nested loops place carrier, two submarines, three destroyers, four frigates, in that order |
| DraftBoard.TryFrom | src/main/java/org/example/batallanaval/model/Board.java:89-101 | gives up exactly when every remaining three-draw try is refused by canPlace, having used all their draws; on success exactly one afloat ship of the kind is added at full size, keeping consistency |
| DraftBoard.TryFromFirstAccepted | src/main/java/org/example/batallanaval/model/Board.java:91-98 | a placed ship is the new ship placeShip puts at the row, column and orientation of the first try canPlace accepts, every earlier try refused, with the draws stopping right after it |
| DraftBoard.PlaceAll | src/main/java/org/example/batallanaval/model/Board.java:87-103 | only RuntimeException is thrown; otherwise one full-size afloat ship per kind appended in order, only the added ships' coordinates gaining the ship flag and every other cell as before, keeping consistency, with at most 2000 three-draw tries per ship |
| DraftBoard.PlaceAllFailsExactly | src/main/java/org/example/batallanaval/model/Board.java:87-103 | the RuntimeException is thrown exactly when some ship, on the board the ships before it left, has all 2000 tries refused |
| DraftBoard.RandomPlaceAllShips | src/main/java/org/example/batallanaval/model/Board.java:82-104 | RuntimeException exactly when some ship of the order has all 2000 tries refused on the board the ships before it left; otherwise nothing is cleared: the ten ships of the order are appended at full size without sharing a cell, only their coordinates gain the ship flag and every other cell is as before, within 2000 tries each |
| DraftGame.PlacedBoard | src/main/java/org/example/batallanaval/model/GameState.java:23-24 | a new board randomly placed is a full draft fleet with no other ship cell and no cell tried or sunk, so allShipsSunk is false; or the exception, exactly when some ship finds no room |
| DraftGame.DeployedNotWon | src/main/java/org/example/batallanaval/model/Board.java:60-66 | on a freshly deployed board allShipsSunk answers false |
| DraftGame.NewGame | src/main/java/org/example/batallanaval/model/GameState.java:19-26 | RuntimeException exactly when the player's or the machine's placement has a ship find no room; otherwise both boards are full draft fleets, untouched and not won, the player is fresh and the game not over |
| DraftScenarios.AdjacentFrigatesPlaced | src/main/java/org/example/batallanaval/model/Board.java:25-34 | two frigates side by side are both placed |
| DraftScenarios.StrayFlagInconsistent | src/main/java/org/example/batallanaval/model/Board.java:36-46 | a ship cell claimed by no ship makes a board inconsistent, so the invariant placeShip keeps rules out stray ship flags |
| DraftScenarios.StartAboveGridThrows | src/main/java/org/example/batallanaval/model/Board.java:25-34 | a start in row -1 throws ArrayIndexOutOfBoundsException instead of being refused |

## Left out

- Controllers, views, renderers, shapes, persistence, the application class and the interfaces: they are not part of this model. They drive the engine but hold none of its rules.
- The game loop: taking turns, the machine firing again after a hit, counting sunk ships and setting the game-over flag. This lives in the controllers.
- Getters, `toString`, `ShipType.getDisplayName`/`getImagePath` and the draft's `getDisplay`. The names and image paths are written down as constants without contracts.
- java.util.Random: only the fact that every call returns some value, in a known order, is modelled. Its distribution is left out, so nothing is claimed about how likely a placement is to succeed.
- The serialisation of boards and game states. Only its effect on the transient machine counter (absent after loading) is modelled.
- `AtomicInteger`: the machine counter is a plain `int32`. Its atomicity matters only for threads, which the engine does not use.
- Java object identity:
  - Ships are store ids, and `ships.contains(ship)` compares ids.
  - Cells are positions, and `cells.contains(cell)` compares positions, which is exact because one board creates one cell per position.
  - A ship placed on two different boards is not modelled.
- Coordinates are mathematical integers. Java's wrap-around of `startRow + i` (current engine) or `c + length` (draft) for a start within 4 of `Integer.MAX_VALUE` is not modelled.
- The draft's `placeShip` takes the ship object and keeps a reference to it. The model appends a copy, so a later change to that ship object through another reference is not reflected. The draft's own callers always pass a new ship.
- In the draft's random placement, the caught `PlacementException` cannot occur, because `placeShip` repeats the check that just passed. The model does not carry that branch.
- PoolAI.Salvo and the lemmas about it describe an opponent board on which only the AI shoots, as in a game where the AI's shots are the only ones at the human's board. Other interleavings are covered call by call by PoolAI.NextShotOutcome.
- PoolAI.NextShot states how the pool and stream position change. PoolAI.NextShotOutcome states which entry is returned, in terms of the board's tried cells; neither names it as the entry at the drawn index.
