/** Value types shared by both generations of the engine: optional values,
    results that carry the Java exception a call would throw, and Java's
    32-bit `int` with its wrap-around. */
module Base {

  /** A nullable reference: `None` plays the role of `null`. */
  datatype Option<+T> = None | Some(value: T)

  /** The exceptions the modelled Java code can throw. */
  datatype Thrown =
    | IndexOutOfBounds       // Board.getCell on a coordinate outside the grid
    | ArrayIndexOutOfBounds  // a raw array access outside the grid (draft board)
    | IllegalArgument        // ShipType.fromSize with an unknown size
    | Placement              // PlacementException (draft board)
    | Runtime                // RuntimeException (draft random placement)

  /** Either a value or the exception the call throws instead. */
  datatype Result<+T> = Ok(value: T) | Err(error: Thrown)

  const INT_MIN: int := -0x8000_0000
  const INT_MAX: int := 0x7fff_ffff

  /** Java's `int`. */
  type int32 = x: int | INT_MIN <= x <= INT_MAX

  /** Java's `x++` on an `int`: adds one, wrapping from INT_MAX to INT_MIN. */
  function Increment(x: int32): (r: int32)
    ensures x < INT_MAX ==> r == x + 1
    ensures x == INT_MAX ==> r == INT_MIN
  {
    if x == INT_MAX then INT_MIN else x + 1
  }

  /** A java.util.Random seen as the stream of values its calls return:
      the call made at position `pos` of the stream sees rng(pos). */
  type Rng = nat -> nat

  /** Random.nextInt(bound): a value in [0, bound). */
  function NextInt(rng: Rng, pos: nat, bound: int): (r: int)
    requires bound > 0
    ensures 0 <= r < bound
  {
    rng(pos) % bound
  }

  /** Random.nextBoolean */
  function NextBoolean(rng: Rng, pos: nat): bool {
    rng(pos) % 2 == 1
  }

  /** No element occurs twice. */
  predicate Distinct<T(==)>(s: seq<T>) {
    forall i, j | 0 <= i < j < |s| :: s[i] != s[j]
  }
}
