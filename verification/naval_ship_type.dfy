/** The ship catalog of the current engine (enum ShipType). */
module NavalShipType {
  import opened Base

  datatype ShipType = Carrier | Submarine | Destroyer | Frigate

  /** ShipType.values(), in declaration order. */
  const Values: seq<ShipType> := [Carrier, Submarine, Destroyer, Frigate]

  /** Number of cells a ship of this type occupies. */
  function Size(t: ShipType): int {
    match t
    case Carrier => 4
    case Submarine => 3
    case Destroyer => 2
    case Frigate => 1
  }

  function DisplayName(t: ShipType): string {
    match t
    case Carrier => "Portaaviones"
    case Submarine => "Submarino"
    case Destroyer => "Destructor"
    case Frigate => "Fragata"
  }

  function ImagePath(t: ShipType): string {
    match t
    case Carrier => "/portaaviones.jpg"
    case Submarine => "/submarino2.jpg"
    case Destroyer => "/destructor1.jpg"
    case Frigate => "/fragata1.jpg"
  }

  /** The catalog: carrier 4, submarine 3, destroyer 2, frigate 1. */
  lemma CatalogSizes()
    ensures Size(Carrier) == 4 && Size(Submarine) == 3 && Size(Destroyer) == 2 && Size(Frigate) == 1
  {
  }

  /** Different types have different sizes, so a size names at most one type. */
  lemma SizesDistinct(s: ShipType, t: ShipType)
    ensures Size(s) == Size(t) ==> s == t
  {
  }

  /** The search loop of fromSize, from position i of the values onwards. */
  function FindBySize(n: int, i: nat): (r: Result<ShipType>)
    requires i <= |Values|
    ensures r.Ok? <==> exists k :: i <= k < |Values| && Size(Values[k]) == n
    ensures r.Ok? ==> Size(r.value) == n
    ensures r.Err? ==> r.error == IllegalArgument
    decreases |Values| - i
  {
    if i == |Values| then Err(IllegalArgument)
    else if Size(Values[i]) == n then Ok(Values[i])
    else FindBySize(n, i + 1)
  }

  /** ShipType.fromSize: the type of the given size, or IllegalArgumentException. */
  function FromSize(n: int): (r: Result<ShipType>)
    ensures r.Ok? <==> 1 <= n <= 4
    ensures r.Ok? ==> Size(r.value) == n
    ensures r.Err? ==> r.error == IllegalArgument
  {
    assert 1 <= n <= 4 ==> Size(Values[4 - n]) == n;
    FindBySize(n, 0)
  }

  /** Round trip: looking a type up by its own size gives that type back. */
  lemma FromSizeRoundTrip(t: ShipType)
    ensures FromSize(Size(t)) == Ok(t)
  {
    var r := FromSize(Size(t));
    SizesDistinct(r.value, t);
  }
}
