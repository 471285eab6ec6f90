# Voxel world builder — a verified model of its generation core

The program builds a voxel landscape in three.js. A river valley of integer
voxels is generated column by column. A forest is then planted on the dry
land with a greedy spacing rule. Finally, every voxel is placed into
per-material instanced meshes. Each mesh has a fixed capacity, and the voxel
list is first collapsed by coordinate so that the last write at a position
wins.

This project models that core in Dafny and proves what it promises:

- `voxels.dfy` (module `Voxels`): the thirteen-material palette, positions,
  columns and voxels (`createVoxel`).
- `dedup.dfy` (module `Dedup`): the coordinate-keyed `Map` of
  `addVoxelsToScene`. Its keys come in first-insertion order, and `set` on an
  existing key replaces the value.
- `batches.dfy` (module `Batches`): the instanced-mesh dictionary as a class
  `InstancedMeshes`, covering `createInstancedMeshBatch`,
  `initializeInstancedMeshes`, `addVoxelInstance` and `addVoxelsToScene`.
  - Each mesh holds `MAX_INSTANCES` = 50000 slots and a `count`.
  - Each bucket holds its meshes and a running `total`.
  - The abstract view of a bucket is the list of its meshes' filled prefixes.
    The function `Place` says what one placement does to that view.
- `grid.dfy` (module `Grid`): the row-by-row, column-by-column order in which
  `createTerrain` walks the square [-50, 50]², and membership in the
  resulting list.
- `terrain.dfy` (module `Terrain`): `createTerrain`, with its riverbed and
  dry-land threshold chains, layer materials, moss, and the height map.
- `trees.dfy` (module `Trees`): the recipe table of `populateForest`, the
  straight trunk (`createTreeTrunk`) and `createTree` with its thickness
  rule.
- `forest.dfy` (module `Forest`): `populateForest` with `tooClose` and
  `mark`. Every state-changing loop is proved against a fold (`Populated`).
  Lemmas about that fold state the spacing and greedy properties.
- `world.dfy` (module `World`): `buildWorld` up to the voxel placement. It
  chains the steps terrain → forest → collapse → placement.

Two facts about the code that the model makes explicit:

- **Dry surface at the bank.** The surface is -2, -1 and 0 at distances 0,
  1 and 2 from the bank (main.js:213-215).
- **Spacing.** The marked squares of any two committed trees are disjoint,
  so two anchors lie farther apart than the sum of their spacings in the
  Chebyshev distance (`Forest.PopulatedIsConsistent`).

## Model

| member | source | states |
|---|---|---|
| Voxels.PaletteIsEnumeration | main.js:59-73 | every material is a key of the palette and the thirteen keys are pairwise distinct |
| Dedup.Collapse | main.js:134-138 | the map's key list and its entries hold the same positions, the key list has no repeats, and every entry sits under its own coordinate |
| Dedup.Deduplicate | main.js:139 | the values walked by `map.values()` never share a coordinate |
| Dedup.CollapseKeys | main.js:134-138 | the map's keys are exactly the coordinates occurring in the list |
| Dedup.CollapseLastWins | main.js:134-138 | for every voxel that is the last one at its coordinate, the map holds exactly that voxel under its key |
| Dedup.CollapseHoldsOnlyLast | main.js:134-138 | every entry of the map is a voxel of the list that no later voxel overwrites |
| Dedup.DeduplicateLastWriteWins | main.js:133-141 | the placed list has one voxel per distinct coordinate of the input; it holds every last-written voxel and nothing else |
| Dedup.DeduplicateKeys | main.js:133-141 | the placed coordinates are exactly the input's coordinates |
| Dedup.DeduplicateKeepsLast | main.js:133-141 | every voxel not overwritten later in the input is placed |
| Dedup.DeduplicateOnlyLast | main.js:133-141 | every placed voxel is one that no later voxel of the input overwrites |
| Dedup.DeduplicateCount | main.js:133-141 | the number of placed voxels equals the number of distinct coordinates |
| Dedup.DeduplicateIdempotent | main.js:134-139 | a list without repeated coordinates passes through the map unchanged, in order |
| Dedup.CollapseOfDistinct | main.js:134-138 | for a list without repeated coordinates the key order is the list's order and each key holds its voxel |
| Batches.PlaceWithinCapacity | main.js:123-128 | a placement never overfills a buffer; a full last buffer is left as it is and a new buffer holding only the new position is pushed; otherwise the position is appended to the last buffer |
| Batches.PlaceAppends | main.js:123-128 | a placement appends exactly the new position to the bucket's positions, raises its total by one, adds at most one buffer and leaves every written slot unchanged |
| Batches.PlaceKeepsPacked | main.js:123-128 | a bucket with at least one buffer, every buffer but the last full and a non-empty last buffer (unless it is the only one) keeps that shape |
| Batches.PackedBufferCount | main.js:100-128 | in such a bucket the total is (buffers - 1) · MAX_INSTANCES plus the last count, and there are ceil(total / MAX_INSTANCES) buffers (one when empty) |
| Batches.PlaceAllWithinCapacity | main.js:139-141 | placing a voxel list creates no bucket and overfills no buffer |
| Batches.PlaceAllAppends | main.js:139-141 | each bucket receives exactly the positions of its material's voxels, in list order, after what it held |
| Batches.PlaceAllKeepsPacked | main.js:139-141 | placing a voxel list keeps every bucket packed |
| Batches.NewMesh | main.js:102-106 | a new mesh has `MAX_INSTANCES` slots and a count of 0, so it draws nothing |
| Batches.CountSumIsTotal | main.js:126-128 | the sum of a bucket's mesh counts is the number of positions in its view |
| Batches.PushMeshView | main.js:107 | pushing an empty mesh keeps the bucket valid and adds one empty buffer to its view |
| Batches.WriteNextSlot | main.js:125-128 | writing the next slot of the last mesh and raising its count and the bucket's total keeps the bucket valid (total = sum of counts, counts within capacity) and appends the position to the last buffer |
| Batches.ViewAllWithinCapacity | main.js:98-128 | in a valid dictionary no buffer holds more than `MAX_INSTANCES` and each bucket's `total` equals the number of positions it holds |
| Batches.PlaceVoxelTotalOver | main.js:120-129 | one placement adds one instance to its own material and none to any other |
| Batches.PlaceAllTotal | main.js:139-141 | placing a list when every material has a bucket adds one instance per voxel |
| Batches.AddedInstancesCount | main.js:133-141 | `addVoxelsToScene` adds exactly as many instances as the input has distinct coordinates |
| Batches.InstancedMeshes.constructor | main.js:98 | the dictionary starts empty |
| Batches.InstancedMeshes.CreateInstancedMeshBatch | main.js:102-109 | pushes a new empty mesh onto the material's bucket and returns it; the total and every other bucket are unchanged; the view gains one empty buffer |
| Batches.InstancedMeshes.WriteInstance | main.js:125-128 | writes the position into the next slot of the last mesh; that buffer gains the position, the total rises by one, every other bucket is unchanged |
| Batches.InstancedMeshes.AddVoxelInstance | main.js:120-129 | the view becomes `PlaceVoxel` of the old one; the total of the voxel's material rises by one; a material without a bucket changes nothing |
| Batches.InstancedMeshes.InitializeBucket | main.js:113-114 | the material's bucket is replaced by one holding a single new empty mesh and a zero total; the others are unchanged |
| Batches.InstancedMeshes.InitializeInstancedMeshes | main.js:111-116 | every material gets a bucket with one empty mesh and a zero total |
| Batches.InstancedMeshes.AddVoxelsToScene | main.js:133-143 | the view becomes the old one with the collapsed list placed in map iteration order; no bucket is added or removed |
| Grid.RowMembership | main.js:187-233 | a row built by the x loop holds a voxel iff its x is in range, its z is the row's, and it belongs to its column |
| Grid.RowsMembership | main.js:186-234 | the rows built by the z loop hold a voxel iff its (x, z) is in range and it belongs to its column |
| Grid.RowsSound | main.js:186-234 | every voxel of the rows lies in range and belongs to its column |
| Grid.RowsComplete | main.js:186-234 | every voxel of an in-range column is in the rows |
| Terrain.DistFromRiver | main.js:211 | a dry column's distance is never negative and is zero exactly on a bank edge |
| Terrain.DistFromNearerEdge | main.js:211 | the distance, measured from the edge on the column's side, equals the distance to the nearer of the two bank edges |
| Terrain.CreateTerrain | main.js:180-236 | the voxels are every column of the square, row by row; the height map has an entry exactly for the dry columns whose surface is above the water, and that entry is the surface |
| Terrain.CreateRow | main.js:187-233 | one row: the voxels of x = -50..50 in order, and height entries for exactly that row's dry columns above the water |
| Terrain.ColumnVoxels | main.js:193-231 | the voxels pushed for one column, bottom up, are that column's riverbed or dry stack |
| Terrain.HeightMapExact | main.js:221 | a map with an entry for exactly the in-range dry columns above the water, holding their surfaces, is the height map |
| Terrain.RiverbedTopBounds | main.js:198-205 | with the depth variation in -2..1 the riverbed top lies in -20..-1, above the foundation and below the water |
| Terrain.RiverbedColumn | main.js:192-209 | a riverbed column holds exactly y = -25..top at its (x, z), mud for the top three layers and dirt below, bottom up, with top + 26 voxels |
| Terrain.RiverbedAtOrigin | main.js:196-208 | the column at x = 0, z = 0 (with no wave or depth variation) is dirt from -25 to -21 and mud from -20 to -18 |
| Terrain.DrySurfaceProfile | main.js:211-220 | the surface is -2, -1, 0, 1 at distances 0, 1, 2, 3-4; it always lies in -2..10; it is 10 from distance 25 on; it is above the water iff the distance is at least 3 |
| Terrain.DrySurfaceMonotone | main.js:216-220 | the surface never falls as the distance grows, and the random bump raises it by at most one |
| Terrain.DryLayers | main.js:224-228 | the top voxel is grass or dark grass when above the water and mud otherwise; below the top, mud below y = 0 and dirt from y = 0 up |
| Terrain.DryColumn | main.js:222-231 | a dry column holds exactly the layers max(-25, surface - 2)..surface with their materials, plus a moss voxel at the surface when the moss draw fires and the surface is above the water; it has 3 or 4 voxels |
| Terrain.MossOnlyAboveWater | main.js:231 | a moss voxel only appears on dry land, at the surface, above the water |
| Terrain.ColumnStandsOn | main.js:208-229 | every voxel of a column has that column's x and z |
| Terrain.TerrainMembership | main.js:186-234 | a voxel is in the terrain iff its (x, z) is in the square and it belongs to that column |
| Terrain.TerrainBounds | main.js:183-231 | every terrain voxel lies in the square and between the foundation (-25) and height 10 |
| Terrain.GrassMarksHeights | main.js:221-225 | a grass or dark-grass voxel lies exactly on a column with a height-map entry, at that entry's height; conversely every height-map column carries its top grass voxel |
| Trees.Thickness | main.js:348 | the trunk is 1 to 3 voxels thick: 3 exactly for mega trees, 2 exactly for large ones, 1 for the others |
| Trees.PickRange | main.js:375-378 | `floor(random · n) + base` lies in base..base + n - 1 |
| Trees.RecipeRanges | main.js:374-378 | mega: height 18-23, radius 7-8, spacing 8; large: height 13-17, radius 5-6, spacing 6, always roots within 23 of the centre line; normal: height 9-12, radius 3-4, spacing 4, no roots; small: height 10-13, radius 3-4, spacing 4, no roots; only small trees are twisted |
| Trees.CreateTreeTrunk | main.js:254-265 | the voxels are the roots followed by the trunk box, y outermost, then x, then z |
| Trees.StripShape | main.js:259-261 | the innermost loop emits n dark-wood voxels at one (x, y) with z running over z..z + n - 1, at distinct positions |
| Trees.LayerShape | main.js:258-262 | one layer is the dark-wood t × t square at height y, with t·t distinct positions |
| Trees.LayersShape | main.js:257-263 | h layers are h·t² distinct dark-wood voxels filling the box |
| Trees.TrunkShape | main.js:257-263 | a trunk of height h > 0 has exactly h·t² voxels; they are exactly the dark-wood voxels of x..x+t-1, groundY..groundY+h-1, z..z+t-1, at distinct coordinates, so collapsing by coordinate leaves the trunk unchanged |
| Trees.CreateTree | main.js:329-353 | a twisted tree is its twisted voxels; otherwise roots when drawn, the trunk of the kind's thickness, then the foliage |
| Trees.TreeHoldsTrunk | main.js:347-349 | a straight tree holds every voxel of its trunk box, which is 3 wide for mega, 2 for large and 1 for the others |
| Forest.SquareCells | main.js:359-362 | the cells visited by `tooClose` and `mark` are exactly the square of half-side r around (x, z) |
| Forest.TooClose | main.js:358-361 | the answer is true iff some cell of the square is already occupied |
| Forest.Mark | main.js:362 | the occupied set gains exactly the cells of the square |
| Forest.PopulateForest | main.js:355-387 | the voxels are those of the scan fold: x outer, z inner, stride 2, skipping unlisted or non-positive columns and rejected draws, committing only uncrowded trees |
| Forest.StepKeepsConsistent | main.js:365-382 | one column of the scan keeps the scan invariant and only adds occupied cells, voxels and commitments |
| Forest.ScanLineKeepsConsistent | main.js:364-384 | a z line of the scan keeps the scan invariant and only grows the state |
| Forest.ScanLinesKeepConsistent | main.js:363-385 | the x lines keep the scan invariant and only grow the state |
| Forest.PopulatedIsConsistent | main.js:355-387 | after the scan, every cell of every committed square is occupied and only those; no two committed squares overlap; every committed tree stands on a positive height-map column whose draw fired and used its recipe's spacing; the voxels are those trees' voxels in commit order |
| Forest.SettledPersists | main.js:357-362 | once a column is planted or crowded it stays so, since the occupied set and the commitments only grow |
| Forest.ScanLineSettles | main.js:364-384 | after a z line, every column it visited is ineligible, planted, or crowded |
| Forest.ScanLinesSettle | main.js:363-385 | after the x lines, every visited column is ineligible, planted, or crowded |
| Forest.PopulatedIsGreedy | main.js:363-386 | every scanned column with a positive height whose draw fired either carries a tree or has an occupied cell within its spacing square at the end |
| World.FreshIsEmpty | main.js:111-116 | after initialization every material shows one empty packed buffer and no instance is placed |
| World.BuildWorld | main.js:420-424 | the meshes end up holding the collapsed list of the terrain's voxels followed by the forest's, placed into freshly initialized buckets |
| World.FillFromFresh | main.js:420-424 | filling fresh meshes keeps every bucket packed; each bucket holds exactly its material's collapsed positions in order; the instance count equals the number of distinct coordinates |

## Left out

- Rendering and scene setup (main.js:16-55): scene, camera, renderer and lights are three.js plumbing with no generation logic.
- The `scene.add` of the meshes with a positive count and the `needsUpdate` flag (main.js:425): rendering only. The meshes with a positive count are the non-empty buffers of the view.
- The water plane, fog layers and lily pads (main.js:145-178, 389-418), added by `buildWorld` at main.js:427-430: float geometry with fractional positions and opacity arithmetic.
- Skybox loading, the spinner, the render loop, resizing and XR locomotion (main.js:6-14, 75-96, 441-552): asynchronous I/O, input handling and float vector arithmetic.
- i18n.js is not part of this model: it is DOM localisation glue.
- Foliage, roots and twisted trees (`createTreeFoliage`, `createTreeRoots`, `createTwistedBranches` and the twisted cap, main.js:238-252, 267-346): they use square roots, trigonometry and rounding of float drift, and some of their coordinates are not integers (foliage centred at x + 0.5, root heights 1 - j·0.5). They enter the model as voxel lists supplied per column (`TreeExtras`). Nothing is proved about their shape, and the positions that collapse by coordinate assume integer coordinates.
- The acceptance probability of `populateForest` (main.js:367-373), a distance band damped by a trigonometric noise product, is an input: one accept flag per column.
- The `Math.sin` wave terms of `createTerrain` (main.js:188-189, 198) are inputs, as functions of z. `TerrainBounds` and `RiverbedTopBounds` assume the depth variation lies in -2..1, the range of `floor(2·sin)`.
- `Math.random` draws are inputs given per column (`ColumnDraw`, `TreeDraw`). The model does not capture the order in which the shared generator is consumed, nor which draws are skipped by short-circuiting.
- The material-name lookup in `addVoxelsToScene` (main.js:140): every voxel's material is a palette entry, so the lookup always succeeds and the model places the voxel under its material directly. The missing-bucket path of `addVoxelInstance` is still modelled.
- The "x,y,z" and "x,z" string keys are modelled as `Pos` and `Cell` values. This is exact for integer coordinates, the only ones the model produces.
- Instanced meshes are values held in their bucket. The model writes through the bucket rather than through the object `createInstancedMeshBatch` returns, so aliasing of mesh objects is not modelled. Each slot holds only the translation of its matrix, and shadow flags are left out.
- JavaScript numbers are modelled as unbounded integers. All coordinates stay far below 2^53.
- `createTreeTrunk` receives the root voxels as a list instead of calling `createTreeRoots`, for the reason given above for roots.
