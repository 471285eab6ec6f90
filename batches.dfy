/**
 * The instanced batch allocator.
 *
 * Every material owns a bucket: an ordered list of instanced meshes, each a
 * fixed-capacity buffer of `MAX_INSTANCES` placement slots with a live
 * `count`, and a running `total`. A placement goes to the last buffer of its
 * material; when there is no buffer yet, or the last one is full, a fresh
 * empty buffer is pushed first.
 *
 * The abstract view of a bucket is the list of its buffers' filled prefixes,
 * a `seq<seq<Pos>>`; `Place` says what one placement does to that view.
 */
module Batches {
  import opened Voxels
  import opened Dedup

  /** Capacity of one instanced mesh. */
  const MAX_INSTANCES: nat := 50000

  /** The filled prefixes of a bucket's buffers, in order. */
  type Buffers = seq<seq<Pos>>

  /** One placement: append to the last buffer, or open a new one when there is none or it is full. */
  function Place(bufs: Buffers, p: Pos): Buffers
  {
    if |bufs| == 0 || |bufs[|bufs| - 1]| >= MAX_INSTANCES then bufs + [[p]]
    else bufs[..|bufs| - 1] + [bufs[|bufs| - 1] + [p]]
  }

  /** All positions of a bucket, buffer after buffer. */
  function Flatten(bufs: Buffers): seq<Pos>
  {
    if bufs == [] then [] else Flatten(bufs[..|bufs| - 1]) + bufs[|bufs| - 1]
  }

  /** The sum of the buffers' counts. */
  function Total(bufs: Buffers): nat
  {
    if bufs == [] then 0 else Total(bufs[..|bufs| - 1]) + |bufs[|bufs| - 1]|
  }

  /** No buffer holds more than `MAX_INSTANCES` instances. */
  ghost predicate WithinCapacity(bufs: Buffers)
  {
    forall i :: 0 <= i < |bufs| ==> |bufs[i]| <= MAX_INSTANCES
  }

  /**
   * The shape a bucket keeps from its first buffer on: at least one buffer,
   * every buffer but the last full, and the last one empty only when it is
   * the first.
   */
  ghost predicate Packed(bufs: Buffers)
  {
    && |bufs| >= 1
    && WithinCapacity(bufs)
    && (forall i :: 0 <= i < |bufs| - 1 ==> |bufs[i]| == MAX_INSTANCES)
    && (|bufs| > 1 ==> |bufs[|bufs| - 1]| > 0)
  }

  /**
   * Capacity and placement: a placement never overfills a buffer, and a full
   * last buffer is left as it is while a new buffer holding only the new
   * position is pushed after it.
   */
  lemma PlaceWithinCapacity(bufs: Buffers, p: Pos)
    requires WithinCapacity(bufs)
    ensures WithinCapacity(Place(bufs, p))
    ensures |bufs| > 0 && |bufs[|bufs| - 1]| == MAX_INSTANCES ==> Place(bufs, p) == bufs + [[p]]
    ensures |bufs| > 0 && |bufs[|bufs| - 1]| < MAX_INSTANCES ==>
      |Place(bufs, p)| == |bufs| && Place(bufs, p)[|bufs| - 1] == bufs[|bufs| - 1] + [p]
  {
  }

  /** `p` appended to the last buffer. */
  function AppendLast(bufs: Buffers, p: Pos): (r: Buffers)
    requires |bufs| > 0
    ensures |r| == |bufs| && r[|r| - 1] == bufs[|bufs| - 1] + [p]
    ensures forall i :: 0 <= i < |bufs| - 1 ==> r[i] == bufs[i]
  {
    bufs[|bufs| - 1 := bufs[|bufs| - 1] + [p]]
  }

  /**
   * `Place` appends `p` to the last buffer once a fresh buffer has been
   * opened in case there is none or the last one is full.
   */
  lemma PlaceUpdatesLast(bufs: Buffers, grown: Buffers, p: Pos)
    requires grown == (if |bufs| == 0 || |bufs[|bufs| - 1]| >= MAX_INSTANCES then bufs + [[]] else bufs)
    ensures |grown| > 0
    ensures Place(bufs, p) == AppendLast(grown, p)
  {
    var r := AppendLast(grown, p);
    if |bufs| == 0 || |bufs[|bufs| - 1]| >= MAX_INSTANCES {
      assert |r| == |bufs| + 1;
      forall i | 0 <= i < |r| ensures r[i] == (bufs + [[p]])[i] {
      }
    } else {
      assert r == bufs[..|bufs| - 1] + [bufs[|bufs| - 1] + [p]];
    }
  }

  lemma {:induction false} TotalIsFlattenLength(bufs: Buffers)
    ensures Total(bufs) == |Flatten(bufs)|
  {
    if bufs != [] {
      TotalIsFlattenLength(bufs[..|bufs| - 1]);
    }
  }

  /**
   * Bookkeeping: a placement appends exactly its position to the bucket's
   * contents read buffer after buffer, raises the total by one, and leaves
   * every position already written where it was.
   */
  lemma {:induction false} PlaceAppends(bufs: Buffers, p: Pos)
    ensures Flatten(Place(bufs, p)) == Flatten(bufs) + [p]
    ensures Total(Place(bufs, p)) == Total(bufs) + 1
    ensures |bufs| <= |Place(bufs, p)| <= |bufs| + 1
    ensures forall i :: 0 <= i < |bufs| ==> bufs[i] <= Place(bufs, p)[i]
  {
    var r := Place(bufs, p);
    if |bufs| == 0 || |bufs[|bufs| - 1]| >= MAX_INSTANCES {
      assert r[..|r| - 1] == bufs;
    } else {
      var n := |bufs| - 1;
      assert r[..n] == bufs[..n];
      assert Flatten(bufs) == Flatten(bufs[..n]) + bufs[n];
    }
    TotalIsFlattenLength(bufs);
    TotalIsFlattenLength(r);
  }

  /** A placement keeps a bucket packed. */
  lemma PlaceKeepsPacked(bufs: Buffers, p: Pos)
    requires Packed(bufs)
    ensures Packed(Place(bufs, p))
  {
  }

  lemma {:induction false} FullBuffersTotal(bufs: Buffers)
    requires forall i :: 0 <= i < |bufs| ==> |bufs[i]| == MAX_INSTANCES
    ensures Total(bufs) == |bufs| * MAX_INSTANCES
  {
    if bufs != [] {
      FullBuffersTotal(bufs[..|bufs| - 1]);
    }
  }

  /**
   * A packed bucket uses the fewest buffers its total allows: one buffer
   * while it is empty, and the total divided by the capacity, rounded up,
   * afterwards.
   */
  lemma PackedBufferCount(bufs: Buffers)
    requires Packed(bufs)
    ensures Total(bufs) == (|bufs| - 1) * MAX_INSTANCES + |bufs[|bufs| - 1]|
    ensures |bufs| == if Total(bufs) == 0 then 1 else (Total(bufs) + MAX_INSTANCES - 1) / MAX_INSTANCES
  {
    var n := |bufs| - 1;
    FullBuffersTotal(bufs[..n]);
    assert Total(bufs) == n * MAX_INSTANCES + |bufs[n]|;
  }

  /** The view of all buckets after placing one voxel: buckets without a material entry are untouched. */
  function PlaceVoxel(c: map<Material, Buffers>, v: Voxel): map<Material, Buffers>
  {
    if v.material in c then c[v.material := Place(c[v.material], v.Key())] else c
  }

  /** The view of all buckets after placing a list of voxels in order. */
  function PlaceAll(c: map<Material, Buffers>, vs: seq<Voxel>): map<Material, Buffers>
  {
    if vs == [] then c else PlaceVoxel(PlaceAll(c, vs[..|vs| - 1]), vs[|vs| - 1])
  }

  /** The positions of the voxels of one material, in list order. */
  function PositionsOf(vs: seq<Voxel>, m: Material): seq<Pos>
  {
    if vs == [] then []
    else PositionsOf(vs[..|vs| - 1], m) + (if vs[|vs| - 1].material == m then [vs[|vs| - 1].Key()] else [])
  }

  /** Placing a list of voxels keeps the set of buckets and keeps every bucket within capacity. */
  lemma {:induction false} PlaceAllWithinCapacity(c: map<Material, Buffers>, vs: seq<Voxel>)
    requires forall m | m in c :: WithinCapacity(c[m])
    ensures PlaceAll(c, vs).Keys == c.Keys
    ensures forall m | m in c :: WithinCapacity(PlaceAll(c, vs)[m])
  {
    if vs != [] {
      var n := |vs| - 1;
      PlaceAllWithinCapacity(c, vs[..n]);
      var before := PlaceAll(c, vs[..n]);
      if vs[n].material in before {
        PlaceWithinCapacity(before[vs[n].material], vs[n].Key());
      }
    }
  }

  /**
   * Placing a list of voxels appends to each bucket exactly the positions of
   * that material's voxels, in list order.
   */
  lemma {:induction false} PlaceAllAppends(c: map<Material, Buffers>, vs: seq<Voxel>, m: Material)
    requires m in c
    ensures m in PlaceAll(c, vs)
    ensures Flatten(PlaceAll(c, vs)[m]) == Flatten(c[m]) + PositionsOf(vs, m)
  {
    if vs != [] {
      var n := |vs| - 1;
      PlaceAllAppends(c, vs[..n], m);
      var before := PlaceAll(c, vs[..n]);
      var v := vs[n];
      assert PlaceAll(c, vs) == PlaceVoxel(before, v);
      if v.material == m {
        assert PlaceAll(c, vs)[m] == Place(before[m], v.Key());
        PlaceAppends(before[m], v.Key());
        assert PositionsOf(vs, m) == PositionsOf(vs[..n], m) + [v.Key()];
      } else {
        assert PlaceAll(c, vs)[m] == before[m];
        assert PositionsOf(vs, m) == PositionsOf(vs[..n], m) + [];
      }
    }
  }

  /** Placing a list of voxels keeps every bucket packed. */
  lemma {:induction false} PlaceAllKeepsPacked(c: map<Material, Buffers>, vs: seq<Voxel>)
    requires forall m | m in c :: Packed(c[m])
    ensures forall m | m in PlaceAll(c, vs) :: Packed(PlaceAll(c, vs)[m])
  {
    if vs != [] {
      var n := |vs| - 1;
      PlaceAllKeepsPacked(c, vs[..n]);
      var before := PlaceAll(c, vs[..n]);
      if vs[n].material in before {
        PlaceKeepsPacked(before[vs[n].material], vs[n].Key());
      }
    }
  }

  /**
   * An instanced mesh: `MAX_INSTANCES` instance-matrix slots, of which the
   * first `count` are drawn. Only the translation of each matrix matters
   * here, so a slot holds a position.
   */
  datatype Mesh = Mesh(matrices: seq<Pos>, count: nat) {
    ghost predicate Valid()
    {
      |matrices| == MAX_INSTANCES && count <= MAX_INSTANCES
    }

    /** The positions drawn by this mesh, slot by slot. */
    function Placed(): seq<Pos>
      requires Valid()
    {
      matrices[..count]
    }
  }

  /** A mesh as `createInstancedMeshBatch` allocates it: every slot at the origin, count 0. */
  function NewMesh(): (mesh: Mesh)
    ensures mesh.Valid() && mesh.Placed() == []
  {
    Mesh(seq(MAX_INSTANCES, _ => Pos(0, 0, 0)), 0)
  }

  /** A material's bucket `{ meshes, total }`: its meshes in creation order and its running total. */
  datatype Bucket = Bucket(meshes: seq<Mesh>, total: nat)

  ghost predicate MeshesValid(b: Bucket)
  {
    forall i :: 0 <= i < |b.meshes| ==> b.meshes[i].Valid()
  }

  /** The abstract view of a bucket: the filled prefix of each of its meshes. */
  function View(b: Bucket): (bufs: Buffers)
    requires MeshesValid(b)
    ensures |bufs| == |b.meshes|
  {
    seq(|b.meshes|, i requires 0 <= i < |b.meshes| => b.meshes[i].Placed())
  }

  /** The sum of the meshes' counts. */
  function CountSum(meshes: seq<Mesh>): nat
  {
    if meshes == [] then 0 else CountSum(meshes[..|meshes| - 1]) + meshes[|meshes| - 1].count
  }

  /** Every mesh is within its capacity and `total` is the sum of the meshes' counts. */
  ghost predicate BucketValid(b: Bucket)
  {
    MeshesValid(b) && b.total == CountSum(b.meshes)
  }

  /** The sum of the counts is the number of positions in the view. */
  lemma {:induction false} CountSumIsTotal(b: Bucket)
    requires MeshesValid(b)
    ensures CountSum(b.meshes) == Total(View(b))
    decreases |b.meshes|
  {
    if b.meshes != [] {
      var n := |b.meshes| - 1;
      var front := Bucket(b.meshes[..n], b.total);
      CountSumIsTotal(front);
      assert View(b)[..n] == View(front);
    }
  }

  /** Pushing a mesh pushes its filled prefix onto the view and keeps the total. */
  lemma PushMeshView(b: Bucket, mesh: Mesh)
    requires BucketValid(b) && mesh.Valid() && mesh.count == 0
    ensures BucketValid(Bucket(b.meshes + [mesh], b.total))
    ensures View(Bucket(b.meshes + [mesh], b.total)) == View(b) + [[]]
  {
    var v := View(Bucket(b.meshes + [mesh], b.total));
    assert v == View(b) + [[]];
    assert (b.meshes + [mesh])[..|b.meshes|] == b.meshes;
  }

  /**
   * Writing `p` into the next slot of the last mesh and counting it keeps the
   * bucket valid and appends `p` to the last buffer of the view.
   */
  lemma WriteNextSlot(b: Bucket, mesh: Mesh, written: Mesh, placed: Bucket, p: Pos)
    requires BucketValid(b) && |b.meshes| > 0 && mesh == b.meshes[|b.meshes| - 1]
    requires mesh.count < MAX_INSTANCES
    requires written == Mesh(mesh.matrices[mesh.count := p], mesh.count + 1)
    requires placed == Bucket(b.meshes[|b.meshes| - 1 := written], b.total + 1)
    ensures BucketValid(placed) && View(placed) == AppendLast(View(b), p)
  {
    var k := |b.meshes| - 1;
    assert written.Placed() == mesh.Placed() + [p];
    var v := View(b);
    assert View(placed) == v[k := v[k] + [p]];
    assert placed.meshes[..k] == b.meshes[..k];
  }

  lemma UpdateTwice<V>(c: map<Material, V>, m: Material, a: V, b: V)
    ensures c[m := a][m := b] == c[m := b]
  {
  }

  /** Every bucket of the dictionary is valid. */
  ghost predicate AllValid(bs: map<Material, Bucket>)
  {
    forall m | m in bs :: BucketValid(bs[m])
  }

  /** The view of every bucket of the dictionary. */
  function ViewAll(bs: map<Material, Bucket>): (c: map<Material, Buffers>)
    requires AllValid(bs)
    ensures c.Keys == bs.Keys
  {
    map m | m in bs :: View(bs[m])
  }

  /** Replacing one bucket by a valid one replaces its view and nothing else. */
  lemma ReplaceBucket(bs: map<Material, Bucket>, mat: Material, b: Bucket)
    requires AllValid(bs) && BucketValid(b)
    ensures AllValid(bs[mat := b])
    ensures ViewAll(bs[mat := b]) == ViewAll(bs)[mat := View(b)]
  {
    var bs' := bs[mat := b];
    forall m | m in bs' ensures BucketValid(bs'[m]) {
      if m != mat { assert bs'[m] == bs[m]; }
    }
    var c, c' := ViewAll(bs), ViewAll(bs');
    forall m | m in bs' ensures c'[m] == c[mat := View(b)][m] {
      if m != mat { assert bs'[m] == bs[m]; }
    }
  }

  /**
   * Capacity bound and bookkeeping of a valid dictionary: no buffer of any
   * bucket holds more than `MAX_INSTANCES` positions, and every bucket's
   * total is the number of positions in its buffers.
   */
  lemma ViewAllWithinCapacity(bs: map<Material, Bucket>)
    requires AllValid(bs)
    ensures forall m | m in bs :: WithinCapacity(ViewAll(bs)[m]) && Total(ViewAll(bs)[m]) == bs[m].total
  {
    forall m | m in bs ensures WithinCapacity(ViewAll(bs)[m]) && Total(ViewAll(bs)[m]) == bs[m].total {
      CountSumIsTotal(bs[m]);
    }
  }

  /** The number of positions held by the buckets of the listed materials. */
  function TotalOver(c: map<Material, Buffers>, ms: seq<Material>): nat
    requires forall i :: 0 <= i < |ms| ==> ms[i] in c
  {
    if ms == [] then 0 else TotalOver(c, ms[..|ms| - 1]) + Total(c[ms[|ms| - 1]])
  }

  /** One placement adds one position to the bucket of its material and none to any other. */
  lemma {:induction false} PlaceVoxelTotalOver(c: map<Material, Buffers>, v: Voxel, ms: seq<Material>)
    requires forall i :: 0 <= i < |ms| ==> ms[i] in c
    requires forall i, j :: 0 <= i < j < |ms| ==> ms[i] != ms[j]
    ensures forall i :: 0 <= i < |ms| ==> ms[i] in PlaceVoxel(c, v)
    ensures TotalOver(PlaceVoxel(c, v), ms) == TotalOver(c, ms) + if v.material in ms then 1 else 0
  {
    if ms != [] {
      var n := |ms| - 1;
      PlaceVoxelTotalOver(c, v, ms[..n]);
      assert ms == ms[..n] + [ms[n]];
      if ms[n] == v.material {
        PlaceAppends(c[v.material], v.Key());
        assert v.material !in ms[..n];
      }
    }
  }

  /** Placing a list of voxels when every material has a bucket adds one position per voxel. */
  lemma {:induction false} PlaceAllTotal(c: map<Material, Buffers>, vs: seq<Voxel>)
    requires forall m: Material :: m in c
    ensures forall m: Material :: m in PlaceAll(c, vs)
    ensures TotalOver(PlaceAll(c, vs), Palette) == TotalOver(c, Palette) + |vs|
  {
    if vs != [] {
      var n := |vs| - 1;
      PlaceAllTotal(c, vs[..n]);
      PaletteIsEnumeration(vs[n].material);
      PlaceVoxelTotalOver(PlaceAll(c, vs[..n]), vs[n], Palette);
    }
  }

  /**
   * Adding a voxel list to a dictionary with a bucket for every material adds
   * exactly one instance per distinct coordinate of the list.
   */
  lemma AddedInstancesCount(c: map<Material, Buffers>, voxels: seq<Voxel>)
    requires forall m: Material :: m in c
    ensures forall m: Material :: m in PlaceAll(c, Deduplicate(voxels))
    ensures TotalOver(PlaceAll(c, Deduplicate(voxels)), Palette) == TotalOver(c, Palette) + |Keys(voxels)|
  {
    PlaceAllTotal(c, Deduplicate(voxels));
    DeduplicateCount(voxels);
  }

  /** A bucket as `initializeInstancedMeshes` leaves it: one empty mesh and a zero total. */
  ghost predicate Initialized(b: Bucket)
  {
    |b.meshes| == 1 && b.meshes[0].count == 0 && b.total == 0
  }

  /** Giving the `i`-th palette entry a bucket with one empty mesh extends the initialized prefix by one. */
  lemma InitializeStep(prev: map<Material, Bucket>, i: nat, mesh: Mesh)
    requires i < |Palette| && mesh.count == 0
    requires forall j | 0 <= j < i :: Palette[j] in prev && Initialized(prev[Palette[j]])
    ensures forall j | 0 <= j < i + 1 ::
              Palette[j] in prev[Palette[i] := Bucket([mesh], 0)] && Initialized(prev[Palette[i] := Bucket([mesh], 0)][Palette[j]])
  {
  }

  /** Once every material's bucket is initialized, each one shows a single empty buffer. */
  lemma InitializedView(bs: map<Material, Bucket>)
    requires AllValid(bs)
    requires forall j | 0 <= j < |Palette| :: Palette[j] in bs && Initialized(bs[Palette[j]])
    ensures forall m: Material :: m in bs && bs[m].total == 0 && ViewAll(bs)[m] == [[]]
  {
    forall m: Material ensures m in bs && bs[m].total == 0 && ViewAll(bs)[m] == [[]] {
      PaletteIsEnumeration(m);
      assert View(bs[m]) == [[]];
    }
  }

  /** The `instancedMeshes` dictionary: one bucket per material name. */
  class InstancedMeshes {
    var buckets: map<Material, Bucket>

    ghost predicate Valid()
      reads this
    {
      AllValid(buckets)
    }

    /** For every material with a bucket, the filled prefixes of its meshes. */
    ghost function Contents(): map<Material, Buffers>
      reads this
      requires Valid()
    {
      ViewAll(buckets)
    }

    /** The empty dictionary, before any bucket is created. */
    constructor ()
      ensures Valid() && buckets == map[]
    {
      buckets := map[];
    }

    /**
     * Pushes a new empty mesh onto the bucket of `mat` and returns it
     * (`createInstancedMeshBatch`); the bucket's total is unchanged.
     */
    method CreateInstancedMeshBatch(mat: Material) returns (mesh: Mesh)
      requires Valid() && mat in buckets
      modifies this
      ensures Valid() && buckets.Keys == old(buckets.Keys)
      ensures mesh.Valid() && mesh.count == 0
      ensures buckets == old(buckets)[mat := Bucket(old(buckets[mat].meshes) + [mesh], old(buckets[mat].total))]
      ensures Contents() == old(Contents())[mat := old(Contents())[mat] + [[]]]
    {
      mesh := NewMesh();
      var bucket := buckets[mat];
      PushMeshView(bucket, mesh);
      ReplaceBucket(buckets, mat, Bucket(bucket.meshes + [mesh], bucket.total));
      buckets := buckets[mat := Bucket(bucket.meshes + [mesh], bucket.total)];
    }

    /**
     * Writes `p` into the next slot of the last mesh of `mat`
     * (`setMatrixAt(mesh.count, ...)`) and counts it in the mesh and in the
     * bucket's total.
     */
    method WriteInstance(mat: Material, p: Pos)
      requires Valid() && mat in buckets && |buckets[mat].meshes| > 0
      requires buckets[mat].meshes[|buckets[mat].meshes| - 1].count < MAX_INSTANCES
      modifies this
      ensures Valid() && buckets.Keys == old(buckets.Keys)
      ensures Contents() == old(Contents())[mat := AppendLast(old(Contents())[mat], p)]
      ensures buckets[mat].total == old(buckets[mat].total) + 1
      ensures forall m | m in buckets && m != mat :: buckets[m] == old(buckets[m])
    {
      var bucket := buckets[mat];
      var k := |bucket.meshes| - 1;
      var mesh := bucket.meshes[k];
      var written := Mesh(mesh.matrices[mesh.count := p], mesh.count + 1);
      WriteNextSlot(bucket, mesh, written, Bucket(bucket.meshes[k := written], bucket.total + 1), p);
      ReplaceBucket(buckets, mat, Bucket(bucket.meshes[k := written], bucket.total + 1));
      buckets := buckets[mat := Bucket(bucket.meshes[k := written], bucket.total + 1)];
    }

    /**
     * Places one instance of `mat` at (x, y, z) (`addVoxelInstance`). Without
     * a bucket for `mat` nothing changes. Otherwise the position goes into the
     * next slot of the last mesh, or of a new mesh when there is none or the
     * last is full; that mesh's count and the bucket's total each rise by
     * one, and every other bucket is left as it was.
     */
    method AddVoxelInstance(x: int, y: int, z: int, mat: Material)
      requires Valid()
      modifies this
      ensures Valid() && buckets.Keys == old(buckets.Keys)
      ensures Contents() == PlaceVoxel(old(Contents()), Voxel(x, y, z, mat))
      ensures mat in buckets ==> buckets[mat].total == old(buckets[mat].total) + 1
      ensures mat !in buckets ==> buckets == old(buckets)
    {
      if mat !in buckets {
        return;
      }
      ghost var c0 := Contents();
      var bucket := buckets[mat];
      ghost var before := View(bucket);
      assert before == c0[mat];
      if |bucket.meshes| == 0 || bucket.meshes[|bucket.meshes| - 1].count >= MAX_INSTANCES {
        assert |before| == 0 || |before[|before| - 1]| >= MAX_INSTANCES;
        var _ := CreateInstancedMeshBatch(mat);
      } else {
        assert |before[|before| - 1]| == bucket.meshes[|bucket.meshes| - 1].count;
      }
      ghost var mid := Contents();
      ghost var grown := mid[mat];
      assert mid == c0[mat := grown];
      PlaceUpdatesLast(before, grown, Pos(x, y, z));
      WriteInstance(mat, Pos(x, y, z));
      UpdateTwice(c0, mat, grown, AppendLast(grown, Pos(x, y, z)));
    }

    /**
     * Gives `name` a fresh bucket holding only the new empty mesh `mesh`
     * (the body of the `forEach` in `initializeInstancedMeshes`); every other
     * bucket is left as it was.
     */
    method InitializeBucket(name: Material) returns (mesh: Mesh)
      requires Valid()
      modifies this
      ensures Valid() && mesh.count == 0
      ensures buckets == old(buckets)[name := Bucket([mesh], 0)]
    {
      ReplaceBucket(buckets, name, Bucket([], 0));
      buckets := buckets[name := Bucket([], 0)];
      mesh := CreateInstancedMeshBatch(name);
      assert [] + [mesh] == [mesh];
      UpdateTwice(old(buckets), name, Bucket([], 0), Bucket([mesh], 0));
    }

    /**
     * Gives every material of the palette, in key order, a fresh bucket with
     * one empty mesh (`initializeInstancedMeshes`).
     */
    method InitializeInstancedMeshes()
      requires Valid()
      modifies this
      ensures Valid()
      ensures forall m: Material :: m in buckets && buckets[m].total == 0 && Contents()[m] == [[]]
    {
      for i := 0 to |Palette|
        invariant Valid()
        invariant forall j | 0 <= j < i :: Palette[j] in buckets && Initialized(buckets[Palette[j]])
      {
        ghost var prev := buckets;
        var mesh := InitializeBucket(Palette[i]);
        InitializeStep(prev, i, mesh);
      }
      InitializedView(buckets);
    }

    /**
     * Collapses `voxels` by coordinate into a keyed map and places the map's
     * values in iteration order (`addVoxelsToScene`).
     */
    method AddVoxelsToScene(voxels: seq<Voxel>)
      requires Valid()
      modifies this
      ensures Valid() && buckets.Keys == old(buckets.Keys)
      ensures Contents() == PlaceAll(old(Contents()), Deduplicate(voxels))
    {
      // map.set(key, v) for every voxel: keys in first-insertion order, last write wins
      var order: seq<Pos> := [];
      var latest: map<Pos, Voxel> := map[];
      for i := 0 to |voxels|
        invariant Collapsed(order, latest) == Collapse(voxels[..i])
      {
        var v := voxels[i];
        assert voxels[..i + 1][..i] == voxels[..i];
        if v.Key() !in latest {
          order := order + [v.Key()];
        }
        latest := latest[v.Key() := v];
      }
      assert voxels[..|voxels|] == voxels;
      ghost var ds := Deduplicate(voxels);
      // walk the map's values in key order; every material is a palette key, so the lookup of its name succeeds
      for j := 0 to |order|
        invariant Valid() && buckets.Keys == old(buckets.Keys)
        invariant Contents() == PlaceAll(old(Contents()), ds[..j])
      {
        var v := latest[order[j]];
        assert ds[..j + 1][..j] == ds[..j] && ds[j] == v;
        AddVoxelInstance(v.x, v.y, v.z, v.material);
      }
      assert ds[..|order|] == ds;
    }
  }
}
