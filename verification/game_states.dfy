/** The state of one game (class GameState in both generations): the human
    player, the machine's board, the game-over flag and the machine's sunk
    counter, which is transient and so absent after deserialisation. The
    player and board types are parameters, since the two generations have
    different ones. */
module GameStates {
  import opened Base

  datatype GameState<P, B> = GameState(player: P, machineBoard: B, gameOver: bool,
                                       machineSunkCount: Option<int32>)

  /** new GameState(player, machineBoard): not over, machine counter at 0. */
  function NewGameState<P, B>(player: P, machineBoard: B): (g: GameState<P, B>)
    ensures g.player == player && g.machineBoard == machineBoard
    ensures !g.gameOver && g.machineSunkCount == Some(0)
  {
    GameState(player, machineBoard, false, Some(0))
  }

  /** GameState.setGameOver: only the flag changes. */
  function SetGameOver<P, B>(g: GameState<P, B>, v: bool): (g': GameState<P, B>)
    ensures g'.gameOver == v && g'.(gameOver := g.gameOver) == g
  {
    g.(gameOver := v)
  }

  /** GameState.getMachine: the machine is never a Player. */
  function GetMachine<P, B>(g: GameState<P, B>): (r: Option<P>)
    ensures r.None?
  {
    None
  }

  /** GameState.getMachineSunkCount: the counter, re-created at 0 when it
      is absent; nothing else changes. */
  function GetMachineSunkCount<P, B>(g: GameState<P, B>): (res: (GameState<P, B>, int32))
    ensures res.0.machineSunkCount == Some(res.1)
    ensures g.machineSunkCount.Some? ==> res.1 == g.machineSunkCount.value
    ensures g.machineSunkCount.None? ==> res.1 == 0
    ensures res.0.(machineSunkCount := g.machineSunkCount) == g
  {
    match g.machineSunkCount
    case None => (g.(machineSunkCount := Some(0)), 0)
    case Some(c) => (g, c)
  }

  /** A second read of the machine counter sees the same value and changes
      nothing more. */
  lemma GetMachineSunkCountStable<P, B>(g: GameState<P, B>)
    ensures GetMachineSunkCount(GetMachineSunkCount(g).0) == GetMachineSunkCount(g)
  {
  }
}
