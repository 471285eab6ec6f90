/**
 * `buildWorld`: the generation pipeline. The dictionary of instanced meshes
 * is reset, the terrain is generated, the forest is planted on the terrain's
 * height map, and the voxels of both, terrain first, are collapsed by
 * coordinate and placed into the meshes.
 */
module World {
  import opened Voxels
  import opened Dedup
  import opened Batches
  import opened Terrain
  import opened Trees
  import opened Forest

  /** The view of the dictionary right after `initializeInstancedMeshes`: one empty buffer per material. */
  const Fresh: map<Material, Buffers> := map m | m in Palette :: [[]]

  /** Every voxel `buildWorld` hands to `addVoxelsToScene`: the terrain's, then the forest's. */
  function WorldVoxels(bankWave: int -> int, depthVariation: int -> int, draw: Cell -> ColumnDraw,
                       draws: Cell -> TreeDraw, extras: Cell -> TreeExtras): seq<Voxel>
  {
    Terrain.Terrain(bankWave, depthVariation, draw) + Populated(HeightMap(bankWave, draw), draws, extras).voxels
  }

  /** What the meshes hold once the world is built. */
  function Built(bankWave: int -> int, depthVariation: int -> int, draw: Cell -> ColumnDraw,
                 draws: Cell -> TreeDraw, extras: Cell -> TreeExtras): map<Material, Buffers>
  {
    PlaceAll(Fresh, Deduplicate(WorldVoxels(bankWave, depthVariation, draw, draws, extras)))
  }

  /** A dictionary whose every material shows one empty buffer is `Fresh`. */
  lemma IsFresh(c: map<Material, Buffers>)
    requires forall m: Material :: m in c && c[m] == [[]]
    ensures c == Fresh
  {
    forall m: Material ensures m in Fresh {
      PaletteIsEnumeration(m);
    }
    assert c.Keys == Fresh.Keys;
  }

  /** Lists of materials whose buckets are all empty hold no position. */
  lemma {:induction false} EmptyTotalOver(c: map<Material, Buffers>, ms: seq<Material>)
    requires forall i :: 0 <= i < |ms| ==> ms[i] in c && c[ms[i]] == [[]]
    ensures TotalOver(c, ms) == 0
  {
    if ms != [] {
      var n := |ms| - 1;
      EmptyTotalOver(c, ms[..n]);
      assert Total([[]]) == Total([]) + 0;
    }
  }

  /** Each material starts with one empty, packed buffer, and no position is placed yet. */
  lemma FreshIsEmpty()
    ensures forall m: Material :: m in Fresh && Packed(Fresh[m]) && Flatten(Fresh[m]) == []
    ensures TotalOver(Fresh, Palette) == 0
  {
    forall m: Material ensures m in Fresh && Packed(Fresh[m]) && Flatten(Fresh[m]) == [] {
      PaletteIsEnumeration(m);
      assert Flatten([[]]) == Flatten([]) + [];
    }
    EmptyTotalOver(Fresh, Palette);
  }

  /**
   * `buildWorld` up to the voxel placement: reset the meshes, generate the
   * terrain, plant the forest on its height map and add both voxel lists,
   * terrain first.
   */
  method BuildWorld(meshes: InstancedMeshes, bankWave: int -> int, depthVariation: int -> int,
                    draw: Cell -> ColumnDraw, draws: Cell -> TreeDraw, extras: Cell -> TreeExtras)
    requires meshes.Valid()
    modifies meshes
    ensures meshes.Valid()
    ensures meshes.Contents() == Built(bankWave, depthVariation, draw, draws, extras)
  {
    meshes.InitializeInstancedMeshes();
    IsFresh(meshes.Contents());
    var terrain, heightMap := CreateTerrain(bankWave, depthVariation, draw);
    var forest := PopulateForest(heightMap, draws, extras);
    meshes.AddVoxelsToScene(terrain + forest);
  }

  /**
   * Filling freshly initialized meshes from a voxel list: every material's
   * bucket stays packed (no buffer over capacity, every buffer but the last
   * full); each bucket holds, in order, the positions the collapsed list gives
   * that material; and there are exactly as many instances as distinct
   * coordinates in the list. `Built` is this with the world's voxels.
   */
  lemma FillFromFresh(vs: seq<Voxel>)
    ensures forall m: Material :: m in PlaceAll(Fresh, Deduplicate(vs))
    ensures forall m: Material :: Packed(PlaceAll(Fresh, Deduplicate(vs))[m])
    ensures forall m: Material :: Flatten(PlaceAll(Fresh, Deduplicate(vs))[m]) == PositionsOf(Deduplicate(vs), m)
    ensures TotalOver(PlaceAll(Fresh, Deduplicate(vs)), Palette) == |Keys(vs)|
  {
    FreshIsEmpty();
    PlaceAllKeepsPacked(Fresh, Deduplicate(vs));
    AddedInstancesCount(Fresh, vs);
    forall m: Material
      ensures Flatten(PlaceAll(Fresh, Deduplicate(vs))[m]) == PositionsOf(Deduplicate(vs), m)
    {
      PlaceAllAppends(Fresh, Deduplicate(vs), m);
    }
  }
}
