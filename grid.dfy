/**
 * The square of columns the world is built on, walked row by row (z outer,
 * x inner), and the voxel list obtained by concatenating what each column
 * yields in that order.
 */
module Grid {
  import opened Voxels

  /** The generated square runs from `REGION_MIN` to `REGION_MAX` on both axes. */
  const REGION_MIN: int := -50
  const REGION_MAX: int := 50

  /** The columns x = -50 .. `xHi` - 1 of row z, in order. */
  function Row(z: int, xHi: int, columnAt: Cell -> seq<Voxel>): seq<Voxel>
    requires REGION_MIN <= xHi
    decreases xHi - REGION_MIN
  {
    if xHi == REGION_MIN then [] else Row(z, xHi - 1, columnAt) + columnAt(Cell(xHi - 1, z))
  }

  /** The rows z = -50 .. `zHi` - 1, in order, each holding the columns x = -50 .. `xEnd` - 1. */
  function Rows(zHi: int, xEnd: int, columnAt: Cell -> seq<Voxel>): seq<Voxel>
    requires REGION_MIN <= zHi && REGION_MIN <= xEnd
    decreases zHi - REGION_MIN
  {
    if zHi == REGION_MIN then [] else Rows(zHi - 1, xEnd, columnAt) + Row(zHi - 1, xEnd, columnAt)
  }

  /** Every voxel a column yields stands on that column. */
  ghost predicate StandsOn(columnAt: Cell -> seq<Voxel>)
  {
    forall c, v | v in columnAt(c) :: v.x == c.x && v.z == c.z
  }

  /** A row is exactly the voxels of its columns from -50 up to `xHi` - 1. */
  lemma {:induction false} RowMembership(z: int, xHi: int, columnAt: Cell -> seq<Voxel>, v: Voxel)
    requires REGION_MIN <= xHi && StandsOn(columnAt)
    ensures v in Row(z, xHi, columnAt) <==> REGION_MIN <= v.x < xHi && v.z == z && v in columnAt(Cell(v.x, z))
    decreases xHi - REGION_MIN
  {
    if xHi == REGION_MIN {
      assert Row(z, xHi, columnAt) == [];
    } else {
      assert Row(z, xHi, columnAt) == Row(z, xHi - 1, columnAt) + columnAt(Cell(xHi - 1, z));
      RowMembership(z, xHi - 1, columnAt, v);
      assert v in Row(z, xHi, columnAt) <==> v in Row(z, xHi - 1, columnAt) || v in columnAt(Cell(xHi - 1, z));
    }
  }

  /**
   * The voxels of the rows below `zHi` are exactly the voxels of the columns
   * of those rows: a voxel is generated iff its column lies there and yields it.
   */
  lemma RowsMembership(zHi: int, xEnd: int, columnAt: Cell -> seq<Voxel>, v: Voxel)
    requires REGION_MIN <= zHi && REGION_MIN <= xEnd && StandsOn(columnAt)
    ensures v in Rows(zHi, xEnd, columnAt) <==>
      REGION_MIN <= v.x < xEnd && REGION_MIN <= v.z < zHi && v in columnAt(Cell(v.x, v.z))
  {
    if v in Rows(zHi, xEnd, columnAt) {
      RowsSound(zHi, xEnd, columnAt, v);
    }
    if REGION_MIN <= v.x < xEnd && REGION_MIN <= v.z < zHi && v in columnAt(Cell(v.x, v.z)) {
      RowsComplete(zHi, xEnd, columnAt, v);
    }
  }

  /** Every voxel of the rows below `zHi` comes from a column of those rows. */
  lemma {:induction false} RowsSound(zHi: int, xEnd: int, columnAt: Cell -> seq<Voxel>, v: Voxel)
    requires REGION_MIN <= zHi && REGION_MIN <= xEnd && StandsOn(columnAt)
    requires v in Rows(zHi, xEnd, columnAt)
    ensures REGION_MIN <= v.x < xEnd && REGION_MIN <= v.z < zHi && v in columnAt(Cell(v.x, v.z))
    decreases zHi - REGION_MIN
  {
    var below := Rows(zHi - 1, xEnd, columnAt);
    var row := Row(zHi - 1, xEnd, columnAt);
    assert Rows(zHi, xEnd, columnAt) == below + row;
    if v in below {
      RowsSound(zHi - 1, xEnd, columnAt, v);
    } else {
      assert v in row;
      RowMembership(zHi - 1, xEnd, columnAt, v);
    }
  }

  /** Every voxel of a column of the rows below `zHi` is among the voxels of those rows. */
  lemma {:induction false} RowsComplete(zHi: int, xEnd: int, columnAt: Cell -> seq<Voxel>, v: Voxel)
    requires REGION_MIN <= zHi && REGION_MIN <= xEnd && StandsOn(columnAt)
    requires REGION_MIN <= v.x < xEnd && REGION_MIN <= v.z < zHi && v in columnAt(Cell(v.x, v.z))
    ensures v in Rows(zHi, xEnd, columnAt)
    decreases zHi - REGION_MIN
  {
    var below := Rows(zHi - 1, xEnd, columnAt);
    var row := Row(zHi - 1, xEnd, columnAt);
    assert Rows(zHi, xEnd, columnAt) == below + row;
    if v.z < zHi - 1 {
      RowsComplete(zHi - 1, xEnd, columnAt, v);
      assert v in below;
    } else {
      RowMembership(zHi - 1, xEnd, columnAt, v);
      assert v in row;
    }
  }
}
