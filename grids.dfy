/** Rasters, cells and "constant or raster" arguments, as the raster engine
    presents them to the scoring functions.

    A raster is flattened to a sequence of cells in row-major order. Every
    raster taking part in one cell-by-cell operation shares cell size, extent
    and alignment, so such operations only ask for equal lengths. A cell holds
    a value or NoData. */
module Grids {

  datatype Option<+T> = None | Some(value: T)

  datatype Result<+T, +E> = Ok(value: T) | Err(error: E)

  /** One raster cell: a value, or NoData. */
  type Cell = Option<real>

  /** A raster of real cells. */
  type Grid = seq<Cell>

  /** An argument that may be either a single constant or a full raster. */
  datatype Field = Constant(c: real) | Raster(g: Grid)

  /** The field can be read at every cell of an n-cell raster. */
  predicate FitsGrid(f: Field, n: nat) {
    f.Constant? || |f.g| == n
  }

  /** The value a field contributes at cell i: the constant everywhere, or the raster's cell. */
  function FieldAt(f: Field, i: nat): Cell
    requires f.Raster? ==> i < |f.g|
  {
    match f
    case Constant(c) => Some(c)
    case Raster(g) => g[i]
  }

  /** Raster-algebra multiplication by a constant: NoData stays NoData. */
  function Scale(k: real, c: Cell): Cell {
    match c
    case None => None
    case Some(v) => Some(k * v)
  }

  /** The environment mask of the raster engine: where the mask raster is
      NoData the output is NoData; elsewhere it is left alone. */
  function EnvMaskCell(c: Cell, mask: Option<Grid>, i: nat): Cell
    requires mask.Some? ==> i < |mask.value|
  {
    if mask.Some? && mask.value[i].None? then None else c
  }

  function EnvMask(g: Grid, mask: Option<Grid>): (r: Grid)
    requires mask.Some? ==> |mask.value| == |g|
    ensures |r| == |g|
    ensures forall i :: 0 <= i < |g| ==>
              (r[i] == None <==> g[i] == None || (mask.Some? && mask.value[i].None?))
    ensures forall i :: 0 <= i < |g| && r[i].Some? ==> r[i] == g[i]
  {
    seq(|g|, i requires 0 <= i < |g| => EnvMaskCell(g[i], mask, i))
  }

  /** `Con(mask, x)` without a false value: x where the mask cell is a non-zero
      value, NoData where it is zero or NoData. */
  function ConMaskCell(mask: Cell, x: Cell): Cell {
    if mask.Some? && mask.value != 0.0 then x else None
  }
}
