/** The ship catalog of the earlier draft (enum ShipType): a size and a
    display name per type, with no lookup by size. */
module DraftShipType {

  datatype ShipType = Carrier | Submarine | Destroyer | Frigate

  /** ShipType.getSize */
  function Size(t: ShipType): int {
    match t
    case Carrier => 4
    case Submarine => 3
    case Destroyer => 2
    case Frigate => 1
  }

  /** ShipType.getDisplay */
  function Display(t: ShipType): string {
    match t
    case Carrier => "Portaaviones"
    case Submarine => "Submarino"
    case Destroyer => "Destructor"
    case Frigate => "Fragata"
  }

  /** The four sizes are positive and pairwise different, so a size
      identifies its type. */
  lemma SizesDistinctPositive(s: ShipType, t: ShipType)
    ensures Size(s) > 0
    ensures Size(s) == Size(t) <==> s == t
  {
  }
}
