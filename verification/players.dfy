/** A player (class Player in both generations): a name fixed at
    construction, a board created with the player and never replaced, and
    a counter of the opponent's ships sunk. The board type is a parameter,
    since the two generations have different boards. */
module Players {
  import opened Base

  datatype Player<B> = Player(name: string, board: B, sunkCount: int32)

  /** new Player(name): the given board and no ship sunk yet. The Java
      constructor creates `new Board()` itself; since the board type differs
      between the generations it is passed in here, and both NewGame
      functions (NavalGame.NewGame, DraftGame.NewGame) pass the new board of
      their generation. */
  function NewPlayer<B>(name: string, board: B): (p: Player<B>)
    ensures p.name == name && p.board == board && p.sunkCount == 0
  {
    Player(name, board, 0)
  }

  /** Player.incrementSunkCount: `sunkCount++` on a Java int. Name and
      board are final and stay as they are. */
  function IncrementSunkCount<B>(p: Player<B>): (p': Player<B>)
    ensures p'.name == p.name && p'.board == p.board
    ensures p.sunkCount < INT_MAX ==> p'.sunkCount == p.sunkCount + 1
    ensures p.sunkCount == INT_MAX ==> p'.sunkCount == INT_MIN
  {
    p.(sunkCount := Increment(p.sunkCount))
  }

  /** Player.setSunkCount (current engine only): the counter takes the
      value given; name and board stay. */
  function SetSunkCount<B>(p: Player<B>, v: int32): (p': Player<B>)
    ensures p'.sunkCount == v && p'.name == p.name && p'.board == p.board
  {
    p.(sunkCount := v)
  }

  /** The player after n calls of incrementSunkCount. */
  function IncrementTimes<B>(p: Player<B>, n: nat): (p': Player<B>)
    decreases n
  {
    if n == 0 then p else IncrementSunkCount(IncrementTimes(p, n - 1))
  }

  /** Increments never touch the name or the board, and starting from a
      count c they count up exactly while c + n stays within int range. */
  lemma {:induction false} IncrementsCount<B>(p: Player<B>, n: nat)
    requires p.sunkCount as int + n <= INT_MAX
    ensures IncrementTimes(p, n).sunkCount == p.sunkCount + n
    ensures IncrementTimes(p, n).name == p.name && IncrementTimes(p, n).board == p.board
  {
    if n > 0 {
      IncrementsCount(p, n - 1);
    }
  }

  /** A new player who sinks n ships (n at most INT_MAX) reports n. */
  lemma NewPlayerCounts<B>(name: string, board: B, n: nat)
    requires n <= INT_MAX
    ensures IncrementTimes(NewPlayer(name, board), n).sunkCount == n
  {
    IncrementsCount(NewPlayer(name, board), n);
  }
}
