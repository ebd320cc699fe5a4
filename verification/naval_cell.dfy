/** One square of the current engine's grid (class Cell), with the
    cell-local halves of its setters. The part of setHit that notifies the
    owning ship needs the board and lives in NavalBoard. */
module NavalCell {
  import opened Base

  /** A ship is named by its index in the board's ship store. */
  type ShipId = nat

  /** The `ship` flag and the `shipObject` reference are always written
      together (setShip, clear), so one optional owner stands for both. */
  datatype Cell = Cell(row: int, col: int, hit: bool, miss: bool, sunkPart: bool,
                       visibleToPlayer: bool, owner: Option<ShipId>)
  {
    /** isShip */
    predicate IsShip() {
      owner.Some?
    }

    /** isTried: the cell has been shot, successfully or not. */
    predicate IsTried() {
      hit || miss
    }
  }

  /** Cell.ShotResult */
  datatype ShotResult = Hit | Miss | Sunk | AlreadyTried

  /** `hit` and `miss` exclusive, and a sunk part is a hit part. */
  predicate Sane(c: Cell) {
    !(c.hit && c.miss) && (c.sunkPart ==> c.hit)
  }

  /** Cell.clear: back to untouched water; the position is kept. */
  function Clear(c: Cell): (r: Cell)
    ensures !r.IsShip() && !r.IsTried() && !r.sunkPart && !r.visibleToPlayer && Sane(r)
    ensures r.owner == None && r.row == c.row && r.col == c.col
  {
    c.(hit := false, miss := false, sunkPart := false, visibleToPlayer := false, owner := None)
  }

  /** new Cell(row, col): the constructor stores the position and clears. */
  function NewCell(row: int, col: int): (r: Cell)
    ensures r.row == row && r.col == col
    ensures !r.IsShip() && !r.IsTried() && !r.sunkPart && !r.visibleToPlayer
  {
    Clear(Cell(row, col, false, false, false, false, None))
  }

  /** Cell.setShip: the cell is a ship cell exactly when given a ship. */
  function SetShip(c: Cell, ship: Option<ShipId>): (r: Cell)
    ensures r.IsShip() <==> ship.Some?
    ensures r.owner == ship
    ensures r.(owner := c.owner) == c
  {
    c.(owner := ship)
  }

  /** The flag updates of Cell.setHit: nothing happens on a cell that is
      already hit; otherwise `hit` takes the argument and `miss` is cleared. */
  function SetHitFlag(c: Cell, v: bool): (r: Cell)
    ensures c.hit ==> r == c
    ensures !c.hit ==> r.hit == v && !r.miss && r.(hit := c.hit, miss := c.miss) == c
  {
    if c.hit then c else c.(hit := v, miss := false)
  }

  /** Cell.setMiss: nothing happens on a cell that is already a miss;
      otherwise `miss` takes the argument and `hit` is cleared. */
  function SetMiss(c: Cell, v: bool): (r: Cell)
    ensures c.miss ==> r == c
    ensures !c.miss ==> r.miss == v && !r.hit && r.(hit := c.hit, miss := c.miss) == c
  {
    if c.miss then c else c.(miss := v, hit := false)
  }

  /** Cell.setSunkPart: records the flag, and a sunk part is forced to be hit. */
  function SetSunkPart(c: Cell, v: bool): (r: Cell)
    ensures r.sunkPart == v
    ensures v ==> r.hit
    ensures !v ==> r.hit == c.hit
    ensures r.(sunkPart := c.sunkPart, hit := c.hit) == c
  {
    c.(sunkPart := v, hit := if v then true else c.hit)
  }

  function SetVisibleToPlayer(c: Cell, v: bool): (r: Cell)
    ensures r.visibleToPlayer == v && r.(visibleToPlayer := c.visibleToPlayer) == c
  {
    c.(visibleToPlayer := v)
  }

  /** setHit and setMiss keep `hit` and `miss` exclusive. */
  lemma HitMissExclusive(c: Cell, v: bool)
    requires !(c.hit && c.miss)
    ensures !(SetHitFlag(c, v).hit && SetHitFlag(c, v).miss)
    ensures !(SetMiss(c, v).hit && SetMiss(c, v).miss)
  {
  }
}
