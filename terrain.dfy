/**
 * The terrain column generator (`createTerrain`).
 *
 * Every integer column (x, z) of the square [-50, 50] x [-50, 50] is either
 * riverbed, strictly between the two bank edges of row z, or dry land. A
 * riverbed column is a stack of dirt from the foundation up to a top read off
 * a threshold chain on the distance to the nearer bank and to the centre line,
 * capped with three layers of mud. A dry column is a stack of at most three
 * voxels ending at a surface read off a threshold chain on the distance to the
 * river, and optionally a moss voxel at the surface. Dry surfaces above the
 * water level are recorded in a height map.
 *
 * The two `Math.sin` terms depend on the row only and are passed in as
 * functions of z: `bankWave(z)` stands for `floor(sin(0.2 z) * 2)` and
 * `depthVariation(z)` for `floor(sin(0.15 z) * 2)`; both lie in -2..1. The
 * random decisions of a column are passed in as a `ColumnDraw` per column.
 */
module Terrain {
  import opened Voxels
  import opened Grid

  const FOUNDATION_DEPTH: int := -25
  const WATER_LEVEL: int := 0
  const RIVER_HALF_WIDTH: int := 20
  /**
   * The random decisions of one dry column: `bump` is `floor(random * 2) == 1`,
   * `grass` is `random > 0.5` (grass rather than dark grass on top), and
   * `moss` is `random > 0.7` (a moss voxel at the surface).
   */
  datatype ColumnDraw = ColumnDraw(bump: bool, grass: bool, moss: bool)

  function LeftEdge(wave: int): int { -RIVER_HALF_WIDTH + wave }

  function RightEdge(wave: int): int { RIVER_HALF_WIDTH + wave }

  /** A column is riverbed when it lies strictly between the two bank edges. */
  predicate InRiver(x: int, wave: int)
  {
    LeftEdge(wave) < x < RightEdge(wave)
  }

  /** The top of a riverbed column: the threshold chain on bank and centre distance. */
  function RiverbedTop(x: int, wave: int, depthVariation: int): int
  {
    var edgeDist := Min(Abs(x - LeftEdge(wave)), Abs(x - RightEdge(wave)));
    var distCenter := Abs(x);
    if edgeDist <= 2 then -2 + depthVariation
    else if edgeDist <= 4 then -5 + depthVariation
    else if distCenter < 5 then -18 + depthVariation
    else if distCenter < 10 then -14 + depthVariation
    else if distCenter < 15 then -10 + depthVariation
    else -7 + depthVariation
  }

  /** How far a dry column lies outside the river, counted from the nearer edge. */
  function DistFromRiver(x: int, wave: int): (d: nat)
    requires !InRiver(x, wave)
    ensures d == 0 <==> x == LeftEdge(wave) || x == RightEdge(wave)
  {
    if x <= LeftEdge(wave) then LeftEdge(wave) - x else x - RightEdge(wave)
  }

  /** Outside the river, the side-dependent distance is the distance to the nearer of the two edges. */
  lemma DistFromNearerEdge(x: int, wave: int)
    requires !InRiver(x, wave)
    ensures DistFromRiver(x, wave) == Min(Abs(x - LeftEdge(wave)), Abs(x - RightEdge(wave)))
  {
  }

  /**
   * The surface of a dry column at distance `d` from the river. From distance
   * 5 on it rises by one every 2.5 columns, `floor((d - 5) / 2.5)` being
   * `(2 * (d - 5)) / 5` for d >= 5, plus the random bump, and is capped at 10.
   */
  function DrySurface(d: nat, bump: bool): int
  {
    if d == 0 then -2
    else if d == 1 then -1
    else if d == 2 then 0
    else if d < 5 then 1
    else Min(10, (2 * (d - 5)) / 5 + 2 + (if bump then 1 else 0))
  }

  function RiverMaterial(y: int, top: int): Material
  {
    if y >= top - 2 then Mud else Dirt
  }

  function DryMaterial(y: int, surface: int, grass: bool): Material
  {
    if y == surface && surface > WATER_LEVEL then (if grass then Grass else DarkGrass)
    else if y == surface && surface <= WATER_LEVEL then Mud
    else if y < 0 && y > surface - 3 then Mud
    else Dirt
  }

  /** The riverbed voxels of column (x, z) from the foundation up to, but not including, `hi`. */
  function RiverStack(x: int, z: int, top: int, hi: int): seq<Voxel>
    requires FOUNDATION_DEPTH <= hi
  {
    seq(hi - FOUNDATION_DEPTH, i requires 0 <= i < hi - FOUNDATION_DEPTH =>
      Voxel(x, FOUNDATION_DEPTH + i, z, RiverMaterial(FOUNDATION_DEPTH + i, top)))
  }

  /** The lowest voxel of a dry column. */
  function DryStart(surface: int): int
  {
    Max(FOUNDATION_DEPTH, surface - 2)
  }

  /** The dry-land voxels of column (x, z) from its start up to, but not including, `hi`. */
  function DryStack(x: int, z: int, surface: int, grass: bool, hi: int): seq<Voxel>
    requires DryStart(surface) <= hi
  {
    seq(hi - DryStart(surface), i requires 0 <= i < hi - DryStart(surface) =>
      Voxel(x, DryStart(surface) + i, z, DryMaterial(DryStart(surface) + i, surface, grass)))
  }

  /** The moss voxel a dry column may end with. */
  function Moss(x: int, z: int, surface: int, draw: ColumnDraw): seq<Voxel>
  {
    if draw.moss && surface > WATER_LEVEL then [Voxel(x, surface, z, Voxels.Moss)] else []
  }

  /** The voxels column (x, z) contributes, in the order they are pushed. */
  function Column(x: int, z: int, wave: int, depthVariation: int, draw: ColumnDraw): seq<Voxel>
  {
    if InRiver(x, wave) then
      var top := RiverbedTop(x, wave, depthVariation);
      RiverStack(x, z, top, Max(FOUNDATION_DEPTH, top + 1))
    else
      var surface := DrySurface(DistFromRiver(x, wave), draw.bump);
      DryStack(x, z, surface, draw.grass, surface + 1) + Moss(x, z, surface, draw)
  }

  /** The voxels of each column of the terrain. */
  function Columns(bankWave: int -> int, depthVariation: int -> int, draw: Cell -> ColumnDraw): Cell -> seq<Voxel>
  {
    (c: Cell) => Column(c.x, c.z, bankWave(c.z), depthVariation(c.z), draw(c))
  }

  /** The whole terrain: the full rows of the square. */
  function Terrain(bankWave: int -> int, depthVariation: int -> int, draw: Cell -> ColumnDraw): seq<Voxel>
  {
    Rows(REGION_MAX + 1, REGION_MAX + 1, Columns(bankWave, depthVariation, draw))
  }

  /** Column (x, z) gets a height-map entry: it is dry land with its surface above the water. */
  predicate HasHeight(c: Cell, bankWave: int -> int, draw: Cell -> ColumnDraw)
  {
    && !InRiver(c.x, bankWave(c.z))
    && DrySurface(DistFromRiver(c.x, bankWave(c.z)), draw(c).bump) > WATER_LEVEL
  }

  function Surface(c: Cell, bankWave: int -> int, draw: Cell -> ColumnDraw): int
    requires !InRiver(c.x, bankWave(c.z))
  {
    DrySurface(DistFromRiver(c.x, bankWave(c.z)), draw(c).bump)
  }

  /** The columns of the square, as a set. */
  function Region(): set<Cell>
  {
    set x: int, z: int | REGION_MIN <= x <= REGION_MAX && REGION_MIN <= z <= REGION_MAX :: Cell(x, z)
  }

  /** The height map `createTerrain` records: the surface of each dry column of the square above the water. */
  function HeightMap(bankWave: int -> int, draw: Cell -> ColumnDraw): map<Cell, int>
  {
    map c | c in Region() && HasHeight(c, bankWave, draw) :: Surface(c, bankWave, draw)
  }

  lemma RegionCells()
    ensures forall c: Cell :: c in Region() <==> REGION_MIN <= c.x <= REGION_MAX && REGION_MIN <= c.z <= REGION_MAX
  {
    forall c: Cell | REGION_MIN <= c.x <= REGION_MAX && REGION_MIN <= c.z <= REGION_MAX
      ensures c in Region()
    {
      assert c == Cell(c.x, c.z);
    }
  }

  /** A map with an entry for exactly the dry columns above the water, each holding its surface, is the height map. */
  lemma HeightMapExact(heightMap: map<Cell, int>, bankWave: int -> int, draw: Cell -> ColumnDraw)
    requires forall c :: c in heightMap <==>
      REGION_MIN <= c.x <= REGION_MAX && REGION_MIN <= c.z <= REGION_MAX && HasHeight(c, bankWave, draw)
    requires forall c | c in heightMap :: !InRiver(c.x, bankWave(c.z)) && heightMap[c] == Surface(c, bankWave, draw)
    ensures heightMap == HeightMap(bankWave, draw)
  {
    RegionCells();
    assert heightMap.Keys == HeightMap(bankWave, draw).Keys;
  }

  /** Column c lies in one of the full rows below `z`. */
  predicate InRowsBelow(c: Cell, z: int)
  {
    REGION_MIN <= c.x <= REGION_MAX && REGION_MIN <= c.z < z
  }

  /**
   * `createTerrain`: every column of the square, row by row, each column
   * from the bottom up; a height-map entry for exactly the dry columns whose
   * surface is above the water, holding that surface.
   */
  method CreateTerrain(bankWave: int -> int, depthVariation: int -> int, draw: Cell -> ColumnDraw)
    returns (voxels: seq<Voxel>, heightMap: map<Cell, int>)
    ensures voxels == Terrain(bankWave, depthVariation, draw)
    ensures forall c :: c in heightMap <==>
      REGION_MIN <= c.x <= REGION_MAX && REGION_MIN <= c.z <= REGION_MAX && HasHeight(c, bankWave, draw)
    ensures forall c | c in heightMap :: !InRiver(c.x, bankWave(c.z)) && heightMap[c] == Surface(c, bankWave, draw)
    ensures heightMap == HeightMap(bankWave, draw)
  {
    voxels := [];
    heightMap := map[];
    for z := REGION_MIN to REGION_MAX + 1
      invariant voxels == Rows(z, REGION_MAX + 1, Columns(bankWave, depthVariation, draw))
      invariant forall c :: c in heightMap <==> InRowsBelow(c, z) && HasHeight(c, bankWave, draw)
      invariant forall c | c in heightMap :: !InRiver(c.x, bankWave(c.z)) && heightMap[c] == Surface(c, bankWave, draw)
    {
      var row, heights := CreateRow(z, bankWave, depthVariation, draw);
      voxels := voxels + row;
      heightMap := heightMap + heights;
    }
    HeightMapExact(heightMap, bankWave, draw);
  }

  /** One row of `createTerrain`: the columns x = -50 .. 50 of row z. */
  method CreateRow(z: int, bankWave: int -> int, depthVariation: int -> int, draw: Cell -> ColumnDraw)
    returns (row: seq<Voxel>, heights: map<Cell, int>)
    ensures row == Row(z, REGION_MAX + 1, Columns(bankWave, depthVariation, draw))
    ensures forall c :: c in heights <==> c.z == z && REGION_MIN <= c.x <= REGION_MAX && HasHeight(c, bankWave, draw)
    ensures forall c | c in heights :: !InRiver(c.x, bankWave(c.z)) && heights[c] == Surface(c, bankWave, draw)
  {
    row := [];
    heights := map[];
    var wave := bankWave(z);
    for x := REGION_MIN to REGION_MAX + 1
      invariant row == Row(z, x, Columns(bankWave, depthVariation, draw))
      invariant forall c :: c in heights <==> c.z == z && REGION_MIN <= c.x < x && HasHeight(c, bankWave, draw)
      invariant forall c | c in heights :: !InRiver(c.x, bankWave(c.z)) && heights[c] == Surface(c, bankWave, draw)
    {
      var column := ColumnVoxels(x, z, wave, depthVariation(z), draw(Cell(x, z)));
      ghost var prev := heights;
      if !InRiver(x, wave) {
        var surface := DrySurface(DistFromRiver(x, wave), draw(Cell(x, z)).bump);
        if surface > WATER_LEVEL {
          heights := heights[Cell(x, z) := surface];
        }
      }
      assert Cell(x, z) in heights <==> HasHeight(Cell(x, z), bankWave, draw);
      assert forall c :: c in heights <==> c in prev || (c == Cell(x, z) && HasHeight(c, bankWave, draw));
      assert Columns(bankWave, depthVariation, draw)(Cell(x, z)) == column;
      assert Row(z, x + 1, Columns(bankWave, depthVariation, draw)) == row + column;
      row := row + column;
    }
  }

  /** The voxels of one column, pushed one layer at a time. */
  method ColumnVoxels(x: int, z: int, wave: int, depthVariation: int, draw: ColumnDraw) returns (column: seq<Voxel>)
    ensures column == Column(x, z, wave, depthVariation, draw)
  {
    column := [];
    if InRiver(x, wave) {
      var top := RiverbedTop(x, wave, depthVariation);
      var y := FOUNDATION_DEPTH;
      while y <= top
        invariant FOUNDATION_DEPTH <= y <= Max(FOUNDATION_DEPTH, top + 1)
        invariant column == RiverStack(x, z, top, y)
      {
        column := column + [Voxel(x, y, z, RiverMaterial(y, top))];
        y := y + 1;
      }
    } else {
      var surface := DrySurface(DistFromRiver(x, wave), draw.bump);
      var y := DryStart(surface);
      while y <= surface
        invariant DryStart(surface) <= y <= surface + 1
        invariant column == DryStack(x, z, surface, draw.grass, y)
      {
        column := column + [Voxel(x, y, z, DryMaterial(y, surface, draw.grass))];
        y := y + 1;
      }
      if draw.moss && surface > WATER_LEVEL {
        column := column + [Voxel(x, surface, z, Voxels.Moss)];
      }
    }
  }

  // ---------------------------------------------------------------------
  // The riverbed profile

  /** With a depth variation in -2..1 a riverbed top lies in -20..-1: never empty, always under water. */
  lemma RiverbedTopBounds(x: int, wave: int, depthVariation: int)
    requires -2 <= depthVariation <= 1
    ensures -20 <= RiverbedTop(x, wave, depthVariation) <= -1
    ensures FOUNDATION_DEPTH < RiverbedTop(x, wave, depthVariation) < WATER_LEVEL
  {
  }

  /**
   * A riverbed column holds one voxel per layer from the foundation up to
   * its top, bottom up; the top three layers are mud and the rest dirt.
   */
  lemma RiverbedColumn(x: int, z: int, wave: int, depthVariation: int, draw: ColumnDraw, top: int)
    requires InRiver(x, wave) && top == RiverbedTop(x, wave, depthVariation)
    ensures forall v :: v in Column(x, z, wave, depthVariation, draw) <==>
      && v.x == x && v.z == z && FOUNDATION_DEPTH <= v.y <= top
      && v.material == (if v.y >= top - 2 then Mud else Dirt)
    ensures |Column(x, z, wave, depthVariation, draw)| == Max(0, top - FOUNDATION_DEPTH + 1)
    ensures forall i, j | 0 <= i < j < |Column(x, z, wave, depthVariation, draw)| ::
      Column(x, z, wave, depthVariation, draw)[i].y < Column(x, z, wave, depthVariation, draw)[j].y
  {
    var column := Column(x, z, wave, depthVariation, draw);
    assert column == RiverStack(x, z, top, Max(FOUNDATION_DEPTH, top + 1));
    forall v: Voxel | v.x == x && v.z == z && FOUNDATION_DEPTH <= v.y <= top && v.material == (if v.y >= top - 2 then Mud else Dirt)
      ensures v in column
    {
      assert v == Voxel(x, v.y, z, v.material);
      var i := v.y - FOUNDATION_DEPTH;
      assert column[i] == Voxel(x, FOUNDATION_DEPTH + i, z, RiverMaterial(FOUNDATION_DEPTH + i, top));
    }
    forall v | v in column
      ensures v.x == x && v.z == z && FOUNDATION_DEPTH <= v.y <= top && v.material == (if v.y >= top - 2 then Mud else Dirt)
    {
      var i :| 0 <= i < |column| && column[i] == v;
      assert column[i] == Voxel(x, FOUNDATION_DEPTH + i, z, RiverMaterial(FOUNDATION_DEPTH + i, top));
    }
  }

  /** The column at the centre of row 0, where both waves vanish: dirt from -25 to -21, mud from -20 to -18. */
  lemma RiverbedAtOrigin(draw: ColumnDraw)
    ensures Column(0, 0, 0, 0, draw) == [
      Voxel(0, -25, 0, Dirt), Voxel(0, -24, 0, Dirt), Voxel(0, -23, 0, Dirt), Voxel(0, -22, 0, Dirt),
      Voxel(0, -21, 0, Dirt), Voxel(0, -20, 0, Mud), Voxel(0, -19, 0, Mud), Voxel(0, -18, 0, Mud)]
  {
    var column := Column(0, 0, 0, 0, draw);
    var expected := [
      Voxel(0, -25, 0, Dirt), Voxel(0, -24, 0, Dirt), Voxel(0, -23, 0, Dirt), Voxel(0, -22, 0, Dirt),
      Voxel(0, -21, 0, Dirt), Voxel(0, -20, 0, Mud), Voxel(0, -19, 0, Mud), Voxel(0, -18, 0, Mud)];
    assert RiverbedTop(0, 0, 0) == -18;
    assert column == RiverStack(0, 0, -18, -17);
    forall i | 0 <= i < 8
      ensures column[i] == expected[i]
    {
      assert column[i] == Voxel(0, FOUNDATION_DEPTH + i, 0, RiverMaterial(FOUNDATION_DEPTH + i, -18));
    }
  }

  // ---------------------------------------------------------------------
  // The dry-land profile

  /**
   * The surface steps -2, -1, 0 at distances 0, 1, 2, is 1 at distances 3
   * and 4, is never above 10, reaches 10 from distance 25 on, and is above
   * the water exactly from distance 3 on.
   */
  lemma DrySurfaceProfile(d: nat, bump: bool)
    ensures d == 0 ==> DrySurface(d, bump) == -2
    ensures d == 1 ==> DrySurface(d, bump) == -1
    ensures d == 2 ==> DrySurface(d, bump) == 0
    ensures 3 <= d < 5 ==> DrySurface(d, bump) == 1
    ensures -2 <= DrySurface(d, bump) <= 10
    ensures d >= 25 ==> DrySurface(d, bump) == 10
    ensures DrySurface(d, bump) > WATER_LEVEL <==> d >= 3
  {
  }

  /** The surface never falls as the distance from the river grows, and the bump adds at most one. */
  lemma DrySurfaceMonotone(d1: nat, d2: nat, bump: bool)
    requires d1 <= d2
    ensures DrySurface(d1, bump) <= DrySurface(d2, bump)
    ensures DrySurface(d1, false) <= DrySurface(d1, true) <= DrySurface(d1, false) + 1
  {
    if d1 >= 5 {
      assert (2 * (d1 - 5)) / 5 <= (2 * (d2 - 5)) / 5;
    }
  }

  /**
   * The layers of a dry column: the surface is grass or dark grass when it
   * is above the water and mud otherwise; below the surface a layer is mud
   * under the water and dirt above it.
   */
  lemma DryLayers(y: int, surface: int, grass: bool)
    requires surface - 2 <= y <= surface
    ensures y == surface && surface > WATER_LEVEL ==> DryMaterial(y, surface, grass) == (if grass then Grass else DarkGrass)
    ensures y == surface && surface <= WATER_LEVEL ==> DryMaterial(y, surface, grass) == Mud
    ensures y < surface ==> DryMaterial(y, surface, grass) == (if y < WATER_LEVEL then Mud else Dirt)
  {
  }

  /**
   * A dry column holds the three layers up to its surface, bottom up, and a
   * moss voxel at the surface only when the moss draw fires and the surface
   * is above the water.
   */
  lemma DryColumn(x: int, z: int, wave: int, depthVariation: int, draw: ColumnDraw, surface: int)
    requires !InRiver(x, wave) && surface == DrySurface(DistFromRiver(x, wave), draw.bump)
    ensures forall v :: v in Column(x, z, wave, depthVariation, draw) <==>
      && v.x == x && v.z == z
      && ((surface - 2 <= v.y <= surface && v.material == DryMaterial(v.y, surface, draw.grass))
        || (v.y == surface && v.material == Voxels.Moss && draw.moss && surface > WATER_LEVEL))
    ensures |Column(x, z, wave, depthVariation, draw)| == 3 + (if draw.moss && surface > WATER_LEVEL then 1 else 0)
  {
    DrySurfaceProfile(DistFromRiver(x, wave), draw.bump);
    var column := Column(x, z, wave, depthVariation, draw);
    var stack := DryStack(x, z, surface, draw.grass, surface + 1);
    assert DryStart(surface) == surface - 2;
    assert column == stack + Moss(x, z, surface, draw);
    forall v: Voxel | v.x == x && v.z == z && surface - 2 <= v.y <= surface && v.material == DryMaterial(v.y, surface, draw.grass)
      ensures v in column
    {
      assert v == Voxel(x, v.y, z, v.material);
      var i := v.y - surface + 2;
      assert stack[i] == Voxel(x, surface - 2 + i, z, DryMaterial(surface - 2 + i, surface, draw.grass));
    }
    DryStackHolds(x, z, surface, draw.grass);
  }

  /** Every voxel of a dry stack lies in the column, within the three layers, with its layer's material. */
  lemma DryStackHolds(x: int, z: int, surface: int, grass: bool)
    requires DryStart(surface) == surface - 2
    ensures forall v | v in DryStack(x, z, surface, grass, surface + 1) ::
      v.x == x && v.z == z && surface - 2 <= v.y <= surface && v.material == DryMaterial(v.y, surface, grass)
  {
    var stack := DryStack(x, z, surface, grass, surface + 1);
    forall v | v in stack
      ensures v.x == x && v.z == z && surface - 2 <= v.y <= surface && v.material == DryMaterial(v.y, surface, grass)
    {
      var i :| 0 <= i < |stack| && stack[i] == v;
      assert stack[i] == Voxel(x, surface - 2 + i, z, DryMaterial(surface - 2 + i, surface, grass));
    }
  }

  /** Moss grows only on dry land above the water, and only at the surface. */
  lemma MossOnlyAboveWater(x: int, z: int, wave: int, depthVariation: int, draw: ColumnDraw, v: Voxel)
    requires v in Column(x, z, wave, depthVariation, draw) && v.material == Voxels.Moss
    ensures !InRiver(x, wave)
    ensures v.y == DrySurface(DistFromRiver(x, wave), draw.bump) > WATER_LEVEL
  {
    if InRiver(x, wave) {
      RiverbedColumn(x, z, wave, depthVariation, draw, RiverbedTop(x, wave, depthVariation));
    } else {
      var surface := DrySurface(DistFromRiver(x, wave), draw.bump);
      DryColumn(x, z, wave, depthVariation, draw, surface);
      DryLayers(v.y, surface, draw.grass);
    }
  }

  // ---------------------------------------------------------------------
  // The whole terrain

  /** Every voxel of column (x, z) stands on that column. */
  lemma ColumnStandsOn(x: int, z: int, wave: int, depthVariation: int, draw: ColumnDraw, v: Voxel)
    requires v in Column(x, z, wave, depthVariation, draw)
    ensures v.x == x && v.z == z
  {
    if InRiver(x, wave) {
      RiverbedColumn(x, z, wave, depthVariation, draw, RiverbedTop(x, wave, depthVariation));
    } else {
      DryColumn(x, z, wave, depthVariation, draw, DrySurface(DistFromRiver(x, wave), draw.bump));
    }
  }

  /** The terrain's columns stand where they are keyed. */
  lemma ColumnsStandOn(bankWave: int -> int, depthVariation: int -> int, draw: Cell -> ColumnDraw)
    ensures StandsOn(Columns(bankWave, depthVariation, draw))
  {
    forall c, v | v in Columns(bankWave, depthVariation, draw)(c)
      ensures v.x == c.x && v.z == c.z
    {
      ColumnStandsOn(c.x, c.z, bankWave(c.z), depthVariation(c.z), draw(c), v);
    }
  }

  /** The terrain is exactly the voxels the columns of the square yield. */
  lemma TerrainMembership(bankWave: int -> int, depthVariation: int -> int, draw: Cell -> ColumnDraw, v: Voxel)
    ensures v in Terrain(bankWave, depthVariation, draw) <==>
      && REGION_MIN <= v.x <= REGION_MAX && REGION_MIN <= v.z <= REGION_MAX
      && v in Column(v.x, v.z, bankWave(v.z), depthVariation(v.z), draw(Cell(v.x, v.z)))
  {
    ColumnsStandOn(bankWave, depthVariation, draw);
    RowsMembership(REGION_MAX + 1, REGION_MAX + 1, Columns(bankWave, depthVariation, draw), v);
  }

  /** With depth variations in -2..1 every voxel lies between the foundation and height 10. */
  lemma TerrainBounds(bankWave: int -> int, depthVariation: int -> int, draw: Cell -> ColumnDraw, v: Voxel)
    requires forall z :: -2 <= depthVariation(z) <= 1
    requires v in Terrain(bankWave, depthVariation, draw)
    ensures REGION_MIN <= v.x <= REGION_MAX && REGION_MIN <= v.z <= REGION_MAX
    ensures FOUNDATION_DEPTH <= v.y <= 10
  {
    TerrainMembership(bankWave, depthVariation, draw, v);
    var wave := bankWave(v.z);
    var dv := depthVariation(v.z);
    var d := draw(Cell(v.x, v.z));
    if InRiver(v.x, wave) {
      RiverbedTopBounds(v.x, wave, dv);
      RiverbedColumn(v.x, v.z, wave, dv, d, RiverbedTop(v.x, wave, dv));
    } else {
      DrySurfaceProfile(DistFromRiver(v.x, wave), d.bump);
      DryColumn(v.x, v.z, wave, dv, d, DrySurface(DistFromRiver(v.x, wave), d.bump));
    }
  }

  /**
   * The height map marks the grass: a column of the square has a height-map
   * entry iff the terrain holds a grass or dark grass voxel on it, and that
   * voxel sits at the recorded surface.
   */
  lemma GrassMarksHeights(bankWave: int -> int, depthVariation: int -> int, draw: Cell -> ColumnDraw, v: Voxel)
    ensures v in Terrain(bankWave, depthVariation, draw) && (v.material == Grass || v.material == DarkGrass) ==>
      && REGION_MIN <= v.x <= REGION_MAX && REGION_MIN <= v.z <= REGION_MAX
      && HasHeight(Cell(v.x, v.z), bankWave, draw)
      && v.y == Surface(Cell(v.x, v.z), bankWave, draw)
    ensures
      && REGION_MIN <= v.x <= REGION_MAX && REGION_MIN <= v.z <= REGION_MAX
      && HasHeight(Cell(v.x, v.z), bankWave, draw)
      && v.y == Surface(Cell(v.x, v.z), bankWave, draw)
      && v.material == (if draw(Cell(v.x, v.z)).grass then Grass else DarkGrass)
      ==> v in Terrain(bankWave, depthVariation, draw)
  {
    TerrainMembership(bankWave, depthVariation, draw, v);
    var wave := bankWave(v.z);
    var dv := depthVariation(v.z);
    var d := draw(Cell(v.x, v.z));
    if InRiver(v.x, wave) {
      RiverbedColumn(v.x, v.z, wave, dv, d, RiverbedTop(v.x, wave, dv));
    } else {
      var surface := DrySurface(DistFromRiver(v.x, wave), d.bump);
      DryColumn(v.x, v.z, wave, dv, d, surface);
      if surface - 2 <= v.y <= surface {
        DryLayers(v.y, surface, d.grass);
      }
    }
  }
}
