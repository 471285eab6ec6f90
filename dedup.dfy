/**
 * Collapsing a voxel list by coordinate before it is handed to the batches.
 *
 * `addVoxelsToScene` stores every voxel in a `Map` keyed by its "x,y,z"
 * string and then walks `map.values()`. A JavaScript `Map` iterates its keys
 * in the order they were FIRST inserted, while `set` on an existing key
 * replaces its value: the collapsed list therefore has one voxel per
 * coordinate, ordered by first occurrence, carrying the LAST voxel written
 * at that coordinate.
 */
module Dedup {
  import opened Voxels

  /** The state of the keyed map: its keys in insertion order and its entries. */
  datatype Collapsed = Collapsed(order: seq<Pos>, latest: map<Pos, Voxel>)

  /** The coordinates occurring in a voxel list. */
  function Keys(vs: seq<Voxel>): set<Pos>
  {
    set v | v in vs :: v.Key()
  }

  /** No two voxels of the list share a coordinate. */
  predicate DistinctKeys(vs: seq<Voxel>)
  {
    forall i, j :: 0 <= i < j < |vs| ==> vs[i].Key() != vs[j].Key()
  }

  /** Voxel `i` is the last one of the list at its coordinate. */
  predicate LastAt(vs: seq<Voxel>, i: int)
    requires 0 <= i < |vs|
  {
    forall j :: i < j < |vs| ==> vs[j].Key() != vs[i].Key()
  }

  /**
   * The keyed map after `map.set(key, v)` for every voxel of `vs` in turn.
   * Its keys are exactly the listed ones, listed once each, and every entry
   * sits under its own coordinate.
   */
  function Collapse(vs: seq<Voxel>): (c: Collapsed)
    ensures forall p :: p in c.latest <==> p in c.order
    ensures forall i, j :: 0 <= i < j < |c.order| ==> c.order[i] != c.order[j]
    ensures forall p | p in c.latest :: c.latest[p].Key() == p
  {
    if vs == [] then Collapsed([], map[])
    else
      var c := Collapse(vs[..|vs| - 1]);
      var v := vs[|vs| - 1];
      var order := if v.Key() in c.latest then c.order else c.order + [v.Key()];
      Collapsed(order, c.latest[v.Key() := v])
  }

  /** The values of the keyed map in iteration order: what `addVoxelsToScene` places. */
  function Deduplicate(vs: seq<Voxel>): (ds: seq<Voxel>)
    ensures DistinctKeys(ds)
  {
    var c := Collapse(vs);
    seq(|c.order|, i requires 0 <= i < |c.order| => c.latest[c.order[i]])
  }

  /** The keyed map holds exactly the coordinates of the input. */
  lemma {:induction false} CollapseKeys(vs: seq<Voxel>)
    ensures Collapse(vs).latest.Keys == Keys(vs)
  {
    if vs != [] {
      var n := |vs| - 1;
      assert vs == vs[..n] + [vs[n]];
      KeysSnoc(vs[..n], vs[n]);
      CollapseKeys(vs[..n]);
    }
  }

  /** The voxel written last at a coordinate is the one the keyed map holds there. */
  lemma {:induction false} CollapseLastWins(vs: seq<Voxel>)
    ensures forall i | 0 <= i < |vs| && LastAt(vs, i) ::
      vs[i].Key() in Collapse(vs).latest && Collapse(vs).latest[vs[i].Key()] == vs[i]
  {
    if vs != [] {
      var n := |vs| - 1;
      var front, v := vs[..n], vs[n];
      CollapseLastWins(front);
      var c' := Collapse(vs);
      assert c'.latest == Collapse(front).latest[v.Key() := v];
      forall i | 0 <= i < |vs| && LastAt(vs, i)
        ensures vs[i].Key() in c'.latest && c'.latest[vs[i].Key()] == vs[i]
      {
        if i < n {
          assert vs[i] == front[i];
          assert vs[i].Key() != v.Key();
          assert LastAt(front, i);
        }
      }
    }
  }

  /** A voxel last at its coordinate in a prefix stays last when a voxel at another coordinate follows. */
  lemma LastAtExtends(vs: seq<Voxel>, i: int)
    requires 0 <= i < |vs| - 1 && LastAt(vs[..|vs| - 1], i)
    requires vs[|vs| - 1].Key() != vs[i].Key()
    ensures LastAt(vs, i)
  {
    var front := vs[..|vs| - 1];
    forall j | i < j < |vs| ensures vs[j].Key() != vs[i].Key() {
      if j < |vs| - 1 {
        assert vs[j] == front[j] && vs[i] == front[i];
      }
    }
  }

  /** Every entry of the keyed map is the last voxel written at its coordinate. */
  lemma {:induction false} CollapseHoldsOnlyLast(vs: seq<Voxel>)
    ensures forall p | p in Collapse(vs).latest ::
      exists i :: 0 <= i < |vs| && LastAt(vs, i) && vs[i] == Collapse(vs).latest[p]
  {
    if vs != [] {
      var n := |vs| - 1;
      var front, v := vs[..n], vs[n];
      CollapseHoldsOnlyLast(front);
      var c := Collapse(front);
      var c' := Collapse(vs);
      assert c'.latest == c.latest[v.Key() := v];
      forall p | p in c'.latest
        ensures exists i :: 0 <= i < |vs| && LastAt(vs, i) && vs[i] == c'.latest[p]
      {
        if p == v.Key() {
          assert LastAt(vs, n) && vs[n] == c'.latest[p];
        } else {
          var i :| 0 <= i < |front| && LastAt(front, i) && front[i] == c.latest[p];
          LastAtExtends(vs, i);
          assert LastAt(vs, i) && vs[i] == c'.latest[p];
        }
      }
    }
  }

  lemma KeysSnoc(vs: seq<Voxel>, v: Voxel)
    ensures Keys(vs + [v]) == Keys(vs) + {v.Key()}
  {
    var ws := vs + [v];
    forall p | p in Keys(ws) ensures p in Keys(vs) + {v.Key()} {
      var w :| w in ws && w.Key() == p;
      if w != v { assert w in vs; }
    }
    forall p | p in Keys(vs) ensures p in Keys(ws) {
      var w :| w in vs && w.Key() == p;
      assert w in ws;
    }
  }

  /**
   * After collapsing, every coordinate of the input occurs once, carrying the
   * voxel of its last occurrence, and nothing else occurs.
   */
  lemma DeduplicateLastWriteWins(vs: seq<Voxel>)
    ensures DistinctKeys(Deduplicate(vs))
    ensures Keys(Deduplicate(vs)) == Keys(vs)
    ensures forall i :: 0 <= i < |vs| && LastAt(vs, i) ==> vs[i] in Deduplicate(vs)
    ensures forall d | d in Deduplicate(vs) :: exists i :: 0 <= i < |vs| && LastAt(vs, i) && vs[i] == d
  {
    DeduplicateKeys(vs);
    DeduplicateKeepsLast(vs);
    DeduplicateOnlyLast(vs);
  }

  lemma DeduplicateKeys(vs: seq<Voxel>)
    ensures Keys(Deduplicate(vs)) == Keys(vs)
  {
    CollapseKeys(vs);
    var c := Collapse(vs);
    var ds := Deduplicate(vs);
    forall p | p in Keys(vs) ensures p in Keys(ds) {
      var k :| 0 <= k < |c.order| && c.order[k] == p;
      assert ds[k].Key() == p;
    }
  }

  lemma DeduplicateKeepsLast(vs: seq<Voxel>)
    ensures forall i :: 0 <= i < |vs| && LastAt(vs, i) ==> vs[i] in Deduplicate(vs)
  {
    CollapseKeys(vs);
    CollapseLastWins(vs);
    var c := Collapse(vs);
    var ds := Deduplicate(vs);
    forall i | 0 <= i < |vs| && LastAt(vs, i) ensures vs[i] in ds {
      assert vs[i] in vs;
      assert vs[i].Key() in c.latest;
      var k :| 0 <= k < |c.order| && c.order[k] == vs[i].Key();
      assert ds[k] == vs[i];
    }
  }

  lemma DeduplicateOnlyLast(vs: seq<Voxel>)
    ensures forall d | d in Deduplicate(vs) :: exists i :: 0 <= i < |vs| && LastAt(vs, i) && vs[i] == d
  {
    CollapseHoldsOnlyLast(vs);
    var c := Collapse(vs);
    var ds := Deduplicate(vs);
    forall d | d in ds ensures exists i :: 0 <= i < |vs| && LastAt(vs, i) && vs[i] == d {
      var k :| 0 <= k < |ds| && ds[k] == d;
      assert d == c.latest[c.order[k]];
    }
  }

  /** A list without repeated values has as many distinct values as entries. */
  lemma {:induction false} DistinctCardinality(ps: seq<Pos>)
    requires forall i, j :: 0 <= i < j < |ps| ==> ps[i] != ps[j]
    ensures |set p | p in ps| == |ps|
  {
    if ps != [] {
      var n := |ps| - 1;
      DistinctCardinality(ps[..n]);
      assert (set p | p in ps) == (set p | p in ps[..n]) + {ps[n]};
      assert ps[n] !in (set p | p in ps[..n]);
    }
  }

  /** The number of voxels placed is the number of distinct coordinates of the input. */
  lemma DeduplicateCount(vs: seq<Voxel>)
    ensures |Deduplicate(vs)| == |Keys(vs)|
  {
    CollapseKeys(vs);
    var c := Collapse(vs);
    DistinctCardinality(c.order);
    assert (set p | p in c.order) == c.latest.Keys;
  }

  /** Collapsing a list whose coordinates are already distinct returns it unchanged. */
  lemma {:induction false} DeduplicateIdempotent(vs: seq<Voxel>)
    requires DistinctKeys(vs)
    ensures Deduplicate(vs) == vs
  {
    CollapseOfDistinct(vs);
  }

  lemma {:induction false} CollapseOfDistinct(vs: seq<Voxel>)
    requires DistinctKeys(vs)
    ensures |Collapse(vs).order| == |vs|
    ensures forall i :: 0 <= i < |vs| ==> Collapse(vs).order[i] == vs[i].Key()
    ensures forall i :: 0 <= i < |vs| ==> Collapse(vs).latest[vs[i].Key()] == vs[i]
  {
    if vs != [] {
      var n := |vs| - 1;
      var front, v := vs[..n], vs[n];
      CollapseOfDistinct(front);
      var c := Collapse(front);
      forall k | 0 <= k < |c.order| ensures c.order[k] != v.Key() {
        assert c.order[k] == vs[k].Key();
      }
      var c' := Collapse(vs);
      assert c'.order == c.order + [v.Key()];
      assert c'.latest == c.latest[v.Key() := v];
      forall i | 0 <= i < |vs|
        ensures c'.order[i] == vs[i].Key() && c'.latest[vs[i].Key()] == vs[i]
      {
        if i < n {
          assert vs[i] == front[i];
          assert vs[i].Key() != v.Key();
        }
      }
    }
  }
}
