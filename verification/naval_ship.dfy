/** A ship of the current engine (class Ship), as stored on its board. */
module NavalShip {
  import opened Geometry
  import opened NavalShipType

  /** `cells` lists the grid positions the ship has claimed, in the order
      addCell received them. */
  datatype Ship = Ship(kind: ShipType, cells: seq<Pos>, horizontal: bool, sunk: bool)

  /** new Ship(type): no cells, horizontal, afloat. */
  function NewShip(kind: ShipType): (s: Ship)
    ensures s.kind == kind && s.cells == [] && s.horizontal && !s.sunk
  {
    Ship(kind, [], true, false)
  }

  /** Ship.getSize: the size of the ship's type, between 1 and 4. */
  function GetSize(s: Ship): (n: int)
    ensures n == Size(s.kind)
    ensures 1 <= n <= 4
  {
    Size(s.kind)
  }

  /** Ship.setHorizontal */
  function SetHorizontal(s: Ship, horizontal: bool): (r: Ship)
    ensures r.horizontal == horizontal && r.(horizontal := s.horizontal) == s
  {
    s.(horizontal := horizontal)
  }
}
