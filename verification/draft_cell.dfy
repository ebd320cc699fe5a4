/** One square of the earlier draft's grid (class Cell): five independent
    flags with plain setters. Unlike the current engine, nothing keeps
    `hit` and `miss` exclusive. */
module DraftCell {

  datatype Cell = Cell(ship: bool, hit: bool, miss: bool, sunkPart: bool, visibleToPlayer: bool)
  {
    /** isTried */
    predicate IsTried() {
      hit || miss
    }
  }

  /** new Cell(): every flag false. */
  function NewCell(): (c: Cell)
    ensures !c.ship && !c.hit && !c.miss && !c.sunkPart && !c.visibleToPlayer
  {
    Cell(false, false, false, false, false)
  }

  /** setShip: only the `ship` flag changes. */
  function SetShip(c: Cell, v: bool): (r: Cell)
    ensures r.ship == v && r.(ship := c.ship) == c
  {
    c.(ship := v)
  }

  /** setHit: only the `hit` flag changes. */
  function SetHit(c: Cell, v: bool): (r: Cell)
    ensures r.hit == v && r.(hit := c.hit) == c
  {
    c.(hit := v)
  }

  /** setMiss: only the `miss` flag changes. */
  function SetMiss(c: Cell, v: bool): (r: Cell)
    ensures r.miss == v && r.(miss := c.miss) == c
  {
    c.(miss := v)
  }

  /** setSunkPart: only the `sunkPart` flag changes. */
  function SetSunkPart(c: Cell, v: bool): (r: Cell)
    ensures r.sunkPart == v && r.(sunkPart := c.sunkPart) == c
  {
    c.(sunkPart := v)
  }

  /** setVisibleToPlayer: only the `visibleToPlayer` flag changes. */
  function SetVisibleToPlayer(c: Cell, v: bool): (r: Cell)
    ensures r.visibleToPlayer == v && r.(visibleToPlayer := c.visibleToPlayer) == c
  {
    c.(visibleToPlayer := v)
  }

  /** A cell can be both hit and missed: setHit does not clear `miss`. */
  lemma HitAndMissTogether()
    ensures var c := SetMiss(SetHit(NewCell(), true), true);
      c.hit && c.miss && c.IsTried()
  {
  }

  /** No shot-state setter touches the visibility flag. */
  lemma VisibilityIndependent(c: Cell, v: bool)
    ensures SetShip(c, v).visibleToPlayer == c.visibleToPlayer
    ensures SetHit(c, v).visibleToPlayer == c.visibleToPlayer
    ensures SetMiss(c, v).visibleToPlayer == c.visibleToPlayer
    ensures SetSunkPart(c, v).visibleToPlayer == c.visibleToPlayer
  {
  }
}
