/** A ship of the earlier draft (class Ship): a type fixed at construction,
    the list of coordinates it was given and a sunk flag. */
module DraftShip {
  import opened Geometry
  import opened DraftShipType

  /** `coords` lists the {row, col} pairs in the order addCoord received
      them; nothing checks that they lie on the grid. */
  datatype Ship = Ship(kind: ShipType, coords: seq<Coord>, sunk: bool)

  /** new Ship(type): no coordinates and not sunk. */
  function NewShip(kind: ShipType): (s: Ship)
    ensures s.kind == kind && s.coords == [] && !s.sunk
  {
    Ship(kind, [], false)
  }

  /** Ship.addCoord: one pair appended at the end; type and flag kept. */
  function AddCoord(s: Ship, r: int, c: int): (s': Ship)
    ensures s'.coords == s.coords + [(r, c)]
    ensures s'.kind == s.kind && s'.sunk == s.sunk
  {
    s.(coords := s.coords + [(r, c)])
  }

  /** The stream anyMatch of Ship.occupies, over the coordinates from
      index i on. */
  function AnyMatch(coords: seq<Coord>, r: int, c: int, i: nat): (found: bool)
    requires i <= |coords|
    ensures found <==> exists k :: i <= k < |coords| && coords[k] == (r, c)
    decreases |coords| - i
  {
    if i == |coords| then false
    else if coords[i].0 == r && coords[i].1 == c then true
    else AnyMatch(coords, r, c, i + 1)
  }

  /** Ship.occupies: (r, c) is one of the ship's coordinates. */
  function Occupies(s: Ship, r: int, c: int): (found: bool)
    ensures found <==> (r, c) in s.coords
  {
    AnyMatch(s.coords, r, c, 0)
  }

  /** Ship.setSunk: the flag takes exactly the value given. */
  function SetSunk(s: Ship, v: bool): (s': Ship)
    ensures s'.sunk == v && s'.kind == s.kind && s'.coords == s.coords
  {
    s.(sunk := v)
  }

  /** A ship occupies a coordinate once it has been added, and the other
      coordinates it occupied before. */
  lemma AddCoordOccupies(s: Ship, r: int, c: int, r2: int, c2: int)
    ensures Occupies(AddCoord(s, r, c), r, c)
    ensures Occupies(AddCoord(s, r, c), r2, c2) <==> Occupies(s, r2, c2) || (r2, c2) == (r, c)
  {
  }
}
