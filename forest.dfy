/**
 * Forest placement with spacing exclusion (`populateForest` with its
 * `tooClose` and `mark` helpers).
 *
 * The scan visits every even column (x, z) of the square, x outer and z
 * inner. A column is skipped when the height map has no entry for it or a
 * non-positive one. Otherwise, if the acceptance draw fires, the recipe
 * table picks a tree and its spacing s; the tree is committed only when no
 * cell of the (2s + 1) x (2s + 1) square around the column is occupied yet,
 * and committing it occupies that whole square. The acceptance decision (a
 * random draw against a probability band damped by a trigonometric noise
 * term) is an input, as are the recipe draws and the voxels of roots,
 * foliage and twisted trees.
 */
module Forest {
  import opened Voxels
  import opened Trees

  /** The scan visits x, z = -50, -48, .., 50: 51 steps on each axis. */
  const SCAN_MIN: int := -50
  const SCAN_STEPS: nat := 51

  /** Column c lies in the square of half-side r around (x, z). */
  predicate InSquare(c: Cell, x: int, z: int, r: int)
  {
    x - r <= c.x <= x + r && z - r <= c.z <= z + r
  }

  /** The cells of the square of half-side r around (x, z). */
  function Square(x: int, z: int, r: nat): set<Cell>
  {
    set cx: int, cz: int | x - r <= cx <= x + r && z - r <= cz <= z + r :: Cell(cx, cz)
  }

  lemma SquareCells(x: int, z: int, r: nat)
    ensures forall c :: c in Square(x, z, r) <==> InSquare(c, x, z, r)
  {
    forall c | InSquare(c, x, z, r)
      ensures c in Square(x, z, r)
    {
      assert c == Cell(c.x, c.z);
    }
  }

  /** Some cell of the square of half-side r around (x, z) is occupied. */
  predicate Crowded(occupied: set<Cell>, x: int, z: int, r: int)
  {
    exists c :: c in occupied && InSquare(c, x, z, r)
  }

  /** `tooClose`: scans the square row by row and stops at the first occupied cell. */
  method TooClose(occupied: set<Cell>, x: int, z: int, r: nat) returns (close: bool)
    ensures close <==> Crowded(occupied, x, z, r)
  {
    for dx := -(r as int) to r + 1
      invariant forall c | c in occupied :: !(x - r <= c.x < x + dx && z - r <= c.z <= z + r)
    {
      for dz := -(r as int) to r + 1
        invariant forall c | c in occupied :: !(x - r <= c.x < x + dx && z - r <= c.z <= z + r)
        invariant forall c | c in occupied :: !(c.x == x + dx && z - r <= c.z < z + dz)
      {
        if Cell(x + dx, z + dz) in occupied {
          assert InSquare(Cell(x + dx, z + dz), x, z, r);
          return true;
        }
      }
    }
    return false;
  }

  /** `mark`: occupies every cell of the square of half-side r around (x, z). */
  method Mark(occupied: set<Cell>, x: int, z: int, r: nat) returns (marked: set<Cell>)
    ensures marked == occupied + Square(x, z, r)
  {
    marked := occupied;
    for dx := -(r as int) to r + 1
      invariant forall c :: c in marked <==> c in occupied || (x - r <= c.x < x + dx && z - r <= c.z <= z + r)
    {
      for dz := -(r as int) to r + 1
        invariant forall c :: c in marked <==>
          c in occupied || (x - r <= c.x < x + dx && z - r <= c.z <= z + r) || (c.x == x + dx && z - r <= c.z < z + dz)
      {
        marked := marked + {Cell(x + dx, z + dz)};
      }
    }
    SquareCells(x, z, r);
  }

  // ---------------------------------------------------------------------
  // The scan as a fold

  /** The inputs of one column: the acceptance decision and the recipe draws. */
  datatype TreeDraw = TreeDraw(accept: bool, recipe: RecipeDraw)

  /** A committed tree: its column and the spacing it was checked and marked with. */
  datatype Planting = Planting(at: Cell, spacing: nat)

  /**
   * The scan's state: the voxels so far and the occupied cells, which the
   * source keeps, and the trees committed so far, which it does not keep but
   * which the properties below talk about.
   */
  datatype ForestState = ForestState(voxels: seq<Voxel>, occupied: set<Cell>, planted: seq<Planting>)

  /** One column of the scan. */
  function Step(f: ForestState, c: Cell, heightMap: map<Cell, int>, draws: Cell -> TreeDraw, extras: Cell -> TreeExtras): ForestState
  {
    if c !in heightMap || heightMap[c] <= 0 || !draws(c).accept then f
    else
      var recipe := ChooseRecipe(draws(c).recipe, Abs(c.x));
      if Crowded(f.occupied, c.x, c.z, recipe.spacing) then f
      else ForestState(
        f.voxels + Tree(c.x, c.z, heightMap[c], recipe, extras(c)),
        f.occupied + Square(c.x, c.z, recipe.spacing),
        f.planted + [Planting(c, recipe.spacing)])
  }

  function ScanCell(i: int, j: int): Cell
  {
    Cell(SCAN_MIN + 2 * i, SCAN_MIN + 2 * j)
  }

  /** The columns z-steps 0 .. jHi - 1 of x-step i, in order. */
  function ScanLine(f: ForestState, i: int, jHi: nat, heightMap: map<Cell, int>, draws: Cell -> TreeDraw, extras: Cell -> TreeExtras): ForestState
  {
    if jHi == 0 then f
    else Step(ScanLine(f, i, jHi - 1, heightMap, draws, extras), ScanCell(i, jHi - 1), heightMap, draws, extras)
  }

  /** The x-steps 0 .. iHi - 1, each scanning z-steps 0 .. jEnd - 1. */
  function ScanLines(f: ForestState, iHi: nat, jEnd: nat, heightMap: map<Cell, int>, draws: Cell -> TreeDraw, extras: Cell -> TreeExtras): ForestState
  {
    if iHi == 0 then f
    else ScanLine(ScanLines(f, iHi - 1, jEnd, heightMap, draws, extras), iHi - 1, jEnd, heightMap, draws, extras)
  }

  const Empty: ForestState := ForestState([], {}, [])

  /** The whole scan from an empty forest. */
  function Populated(heightMap: map<Cell, int>, draws: Cell -> TreeDraw, extras: Cell -> TreeExtras): ForestState
  {
    ScanLines(Empty, SCAN_STEPS, SCAN_STEPS, heightMap, draws, extras)
  }

  /**
   * `populateForest`: the scan over the even columns, with `tooClose`,
   * `createTree` and `mark` for every accepted column on positive ground.
   */
  method PopulateForest(heightMap: map<Cell, int>, draws: Cell -> TreeDraw, extras: Cell -> TreeExtras)
    returns (voxels: seq<Voxel>)
    ensures voxels == Populated(heightMap, draws, extras).voxels
  {
    voxels := [];
    var occupied: set<Cell> := {};
    for i := 0 to SCAN_STEPS
      invariant voxels == ScanLines(Empty, i, SCAN_STEPS, heightMap, draws, extras).voxels
      invariant occupied == ScanLines(Empty, i, SCAN_STEPS, heightMap, draws, extras).occupied
    {
      var x := SCAN_MIN + 2 * i;
      for j := 0 to SCAN_STEPS
        invariant voxels == ScanLine(ScanLines(Empty, i, SCAN_STEPS, heightMap, draws, extras), i, j, heightMap, draws, extras).voxels
        invariant occupied == ScanLine(ScanLines(Empty, i, SCAN_STEPS, heightMap, draws, extras), i, j, heightMap, draws, extras).occupied
      {
        var z := SCAN_MIN + 2 * j;
        var c := Cell(x, z);
        assert c == ScanCell(i, j);
        if c in heightMap && heightMap[c] > 0 && draws(c).accept {
          var recipe := ChooseRecipe(draws(c).recipe, Abs(x));
          var close := TooClose(occupied, x, z, recipe.spacing);
          if !close {
            var tree := CreateTree(x, z, heightMap[c], recipe, extras(c));
            voxels := voxels + tree;
            occupied := Mark(occupied, x, z, recipe.spacing);
          }
        }
      }
    }
  }

  // ---------------------------------------------------------------------
  // What the scan keeps true

  /** Cell c lies in the square a planting marked. */
  predicate Covers(p: Planting, c: Cell)
  {
    InSquare(c, p.at.x, p.at.z, p.spacing)
  }

  /** The marked squares of two plantings do not overlap. */
  predicate Apart(p: Planting, q: Planting)
  {
    Abs(p.at.x - q.at.x) > p.spacing + q.spacing || Abs(p.at.z - q.at.z) > p.spacing + q.spacing
  }

  /** Every cell of every committed square is occupied. */
  ghost predicate MarkedSquares(f: ForestState)
  {
    forall k, c | 0 <= k < |f.planted| && Covers(f.planted[k], c) :: c in f.occupied
  }

  /** Only the cells of committed squares are occupied. */
  ghost predicate OnlyMarked(f: ForestState)
  {
    forall c | c in f.occupied :: exists k :: 0 <= k < |f.planted| && Covers(f.planted[k], c)
  }

  /** No two committed squares overlap. */
  predicate Spaced(planted: seq<Planting>)
  {
    forall k, l | 0 <= k < l < |planted| :: Apart(planted[k], planted[l])
  }

  /**
   * Every committed tree stands on a column with a positive height-map entry
   * whose acceptance draw fired, and was spaced by its recipe.
   */
  predicate Grounded(planted: seq<Planting>, heightMap: map<Cell, int>, draws: Cell -> TreeDraw)
  {
    forall k | 0 <= k < |planted| ::
      && planted[k].at in heightMap && heightMap[planted[k].at] > 0 && draws(planted[k].at).accept
      && planted[k].spacing == ChooseRecipe(draws(planted[k].at).recipe, Abs(planted[k].at.x)).spacing
  }

  /** The voxels of the committed trees, in the order they were committed. */
  function TreesOf(planted: seq<Planting>, heightMap: map<Cell, int>, draws: Cell -> TreeDraw, extras: Cell -> TreeExtras): seq<Voxel>
    requires forall k | 0 <= k < |planted| :: planted[k].at in heightMap
  {
    if planted == [] then []
    else
      var p := planted[|planted| - 1];
      TreesOf(planted[..|planted| - 1], heightMap, draws, extras)
        + Tree(p.at.x, p.at.z, heightMap[p.at], ChooseRecipe(draws(p.at).recipe, Abs(p.at.x)), extras(p.at))
  }

  /** The state the scan keeps true. */
  ghost predicate Consistent(f: ForestState, heightMap: map<Cell, int>, draws: Cell -> TreeDraw, extras: Cell -> TreeExtras)
  {
    && MarkedSquares(f) && OnlyMarked(f) && Spaced(f.planted) && Grounded(f.planted, heightMap, draws)
    && f.voxels == TreesOf(f.planted, heightMap, draws, extras)
  }

  /** What the scan never undoes: occupied cells, voxels and commitments only accumulate. */
  predicate Grows(f: ForestState, g: ForestState)
  {
    f.occupied <= g.occupied && f.voxels <= g.voxels && f.planted <= g.planted
  }

  /** Two squares that are not apart share a cell. */
  lemma SharedCell(p: Planting, q: Planting) returns (w: Cell)
    requires !Apart(p, q)
    ensures Covers(p, w) && Covers(q, w)
  {
    var wx := if p.at.x > q.at.x + q.spacing then q.at.x + q.spacing
      else if p.at.x < q.at.x - q.spacing then q.at.x - q.spacing else p.at.x;
    var wz := if p.at.z > q.at.z + q.spacing then q.at.z + q.spacing
      else if p.at.z < q.at.z - q.spacing then q.at.z - q.spacing else p.at.z;
    w := Cell(wx, wz);
  }

  /** One column of the scan keeps the state consistent and only adds to it. */
  lemma StepKeepsConsistent(f: ForestState, c: Cell, heightMap: map<Cell, int>, draws: Cell -> TreeDraw, extras: Cell -> TreeExtras)
    requires Consistent(f, heightMap, draws, extras)
    ensures Consistent(Step(f, c, heightMap, draws, extras), heightMap, draws, extras)
    ensures Grows(f, Step(f, c, heightMap, draws, extras))
  {
    var g := Step(f, c, heightMap, draws, extras);
    if g != f {
      var spacing := ChooseRecipe(draws(c).recipe, Abs(c.x)).spacing;
      var p := Planting(c, spacing);
      assert !Crowded(f.occupied, c.x, c.z, spacing);
      assert g.occupied == f.occupied + Square(c.x, c.z, spacing) && g.planted == f.planted + [p];
      SquareCells(c.x, c.z, spacing);
      forall k, w | 0 <= k < |g.planted| && Covers(g.planted[k], w)
        ensures w in g.occupied
      {
        if k < |f.planted| {
          assert g.planted[k] == f.planted[k];
        }
      }
      forall w | w in g.occupied
        ensures exists k :: 0 <= k < |g.planted| && Covers(g.planted[k], w)
      {
        if w in f.occupied {
          var k :| 0 <= k < |f.planted| && Covers(f.planted[k], w);
          assert g.planted[k] == f.planted[k];
        } else {
          assert Covers(g.planted[|f.planted|], w);
        }
      }
      forall k, l | 0 <= k < l < |g.planted|
        ensures Apart(g.planted[k], g.planted[l])
      {
        if l == |f.planted| {
          var q := f.planted[k];
          assert g.planted[k] == q;
          if !Apart(q, p) {
            var w := SharedCell(q, p);
            assert false;
          }
        } else {
          assert g.planted[k] == f.planted[k] && g.planted[l] == f.planted[l];
        }
      }
      assert g.planted[..|g.planted| - 1] == f.planted;
    }
  }

  lemma {:induction false} ScanLineKeepsConsistent(f: ForestState, i: int, jHi: nat, heightMap: map<Cell, int>, draws: Cell -> TreeDraw, extras: Cell -> TreeExtras)
    requires Consistent(f, heightMap, draws, extras)
    ensures Consistent(ScanLine(f, i, jHi, heightMap, draws, extras), heightMap, draws, extras)
    ensures Grows(f, ScanLine(f, i, jHi, heightMap, draws, extras))
  {
    if jHi > 0 {
      ScanLineKeepsConsistent(f, i, jHi - 1, heightMap, draws, extras);
      StepKeepsConsistent(ScanLine(f, i, jHi - 1, heightMap, draws, extras), ScanCell(i, jHi - 1), heightMap, draws, extras);
    }
  }

  lemma {:induction false} ScanLinesKeepConsistent(f: ForestState, iHi: nat, jEnd: nat, heightMap: map<Cell, int>, draws: Cell -> TreeDraw, extras: Cell -> TreeExtras)
    requires Consistent(f, heightMap, draws, extras)
    ensures Consistent(ScanLines(f, iHi, jEnd, heightMap, draws, extras), heightMap, draws, extras)
    ensures Grows(f, ScanLines(f, iHi, jEnd, heightMap, draws, extras))
  {
    if iHi > 0 {
      ScanLinesKeepConsistent(f, iHi - 1, jEnd, heightMap, draws, extras);
      ScanLineKeepsConsistent(ScanLines(f, iHi - 1, jEnd, heightMap, draws, extras), iHi - 1, jEnd, heightMap, draws, extras);
    }
  }

  /**
   * The finished forest: every committed square is fully occupied and only
   * committed squares are; no two committed squares overlap, so two trees
   * stand more than the sum of their spacings apart on some axis; every tree
   * stands on a column with a positive height whose acceptance draw fired;
   * and the voxels are exactly those of the committed trees in commit order.
   */
  lemma PopulatedIsConsistent(heightMap: map<Cell, int>, draws: Cell -> TreeDraw, extras: Cell -> TreeExtras)
    ensures MarkedSquares(Populated(heightMap, draws, extras))
    ensures OnlyMarked(Populated(heightMap, draws, extras))
    ensures Spaced(Populated(heightMap, draws, extras).planted)
    ensures Grounded(Populated(heightMap, draws, extras).planted, heightMap, draws)
    ensures Populated(heightMap, draws, extras).voxels ==
      TreesOf(Populated(heightMap, draws, extras).planted, heightMap, draws, extras)
  {
    assert Consistent(Empty, heightMap, draws, extras);
    ScanLinesKeepConsistent(Empty, SCAN_STEPS, SCAN_STEPS, heightMap, draws, extras);
  }

  // ---------------------------------------------------------------------
  // The scan is greedy

  /** The spacing the recipe table gives column c. */
  function SpacingAt(c: Cell, draws: Cell -> TreeDraw): nat
  {
    ChooseRecipe(draws(c).recipe, Abs(c.x)).spacing
  }

  /**
   * Column c has been settled: it is not eligible (no positive height or no
   * acceptance), or a tree was committed there, or its square meets an
   * occupied cell.
   */
  predicate Settled(f: ForestState, c: Cell, heightMap: map<Cell, int>, draws: Cell -> TreeDraw)
  {
    || c !in heightMap || heightMap[c] <= 0 || !draws(c).accept
    || Planting(c, SpacingAt(c, draws)) in f.planted
    || Crowded(f.occupied, c.x, c.z, SpacingAt(c, draws))
  }

  lemma SettledPersists(f: ForestState, g: ForestState, c: Cell, heightMap: map<Cell, int>, draws: Cell -> TreeDraw)
    requires Grows(f, g) && Settled(f, c, heightMap, draws)
    ensures Settled(g, c, heightMap, draws)
  {
    if Planting(c, SpacingAt(c, draws)) in f.planted {
      var k :| 0 <= k < |f.planted| && f.planted[k] == Planting(c, SpacingAt(c, draws));
      assert g.planted[k] == f.planted[k];
    }
  }

  lemma {:induction false} ScanLineSettles(f: ForestState, i: int, jHi: nat, heightMap: map<Cell, int>, draws: Cell -> TreeDraw, extras: Cell -> TreeExtras)
    ensures Grows(f, ScanLine(f, i, jHi, heightMap, draws, extras))
    ensures forall j | 0 <= j < jHi :: Settled(ScanLine(f, i, jHi, heightMap, draws, extras), ScanCell(i, j), heightMap, draws)
  {
    if jHi > 0 {
      var before := ScanLine(f, i, jHi - 1, heightMap, draws, extras);
      var after := ScanLine(f, i, jHi, heightMap, draws, extras);
      var c := ScanCell(i, jHi - 1);
      ScanLineSettles(f, i, jHi - 1, heightMap, draws, extras);
      assert after == Step(before, c, heightMap, draws, extras);
      assert Grows(before, after);
      assert Settled(after, c, heightMap, draws) by {
        if after != before {
          assert after.planted[|before.planted|] == Planting(c, SpacingAt(c, draws));
        }
      }
      forall j | 0 <= j < jHi - 1
        ensures Settled(after, ScanCell(i, j), heightMap, draws)
      {
        SettledPersists(before, after, ScanCell(i, j), heightMap, draws);
      }
    }
  }

  lemma {:induction false} ScanLinesSettle(f: ForestState, iHi: nat, jEnd: nat, heightMap: map<Cell, int>, draws: Cell -> TreeDraw, extras: Cell -> TreeExtras)
    ensures Grows(f, ScanLines(f, iHi, jEnd, heightMap, draws, extras))
    ensures forall i, j | 0 <= i < iHi && 0 <= j < jEnd ::
      Settled(ScanLines(f, iHi, jEnd, heightMap, draws, extras), ScanCell(i, j), heightMap, draws)
  {
    if iHi > 0 {
      var before := ScanLines(f, iHi - 1, jEnd, heightMap, draws, extras);
      var after := ScanLines(f, iHi, jEnd, heightMap, draws, extras);
      ScanLinesSettle(f, iHi - 1, jEnd, heightMap, draws, extras);
      ScanLineSettles(before, iHi - 1, jEnd, heightMap, draws, extras);
      forall i, j | 0 <= i < iHi - 1 && 0 <= j < jEnd
        ensures Settled(after, ScanCell(i, j), heightMap, draws)
      {
        SettledPersists(before, after, ScanCell(i, j), heightMap, draws);
      }
    }
  }

  /**
   * The placement is greedy: in the finished forest, every scanned column
   * with a positive height whose acceptance draw fired either holds a tree
   * or has an occupied cell within its spacing.
   */
  lemma PopulatedIsGreedy(heightMap: map<Cell, int>, draws: Cell -> TreeDraw, extras: Cell -> TreeExtras, i: int, j: int)
    requires 0 <= i < SCAN_STEPS && 0 <= j < SCAN_STEPS
    requires ScanCell(i, j) in heightMap && heightMap[ScanCell(i, j)] > 0 && draws(ScanCell(i, j)).accept
    ensures
      || Planting(ScanCell(i, j), SpacingAt(ScanCell(i, j), draws)) in Populated(heightMap, draws, extras).planted
      || Crowded(Populated(heightMap, draws, extras).occupied, SCAN_MIN + 2 * i, SCAN_MIN + 2 * j, SpacingAt(ScanCell(i, j), draws))
  {
    ScanLinesSettle(Empty, SCAN_STEPS, SCAN_STEPS, heightMap, draws, extras);
  }
}
