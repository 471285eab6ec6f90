/**
 * Tree recipes and the straight trunk builder (`createTreeTrunk`,
 * `createTree`, and the recipe table of `populateForest`).
 *
 * A straight trunk of thickness t and height h is a box of t x h x t wood
 * voxels whose lower corner sits at (x, groundY, z), emitted layer by layer
 * (y outer), then along x, then along z. Roots, foliage and twisted trees
 * come from float geometry; they enter the model as voxel lists supplied by
 * the caller (`TreeExtras`).
 */
module Trees {
  import opened Voxels
  import opened Dedup

  datatype TreeKind = Mega | Large | Normal | Small

  /** The trunk is 3 voxels thick for mega trees, 2 for large ones and 1 otherwise. */
  function Thickness(kind: TreeKind): (t: nat)
    ensures 1 <= t <= 3
    ensures t == 3 <==> kind == Mega
    ensures t == 2 <==> kind == Large
  {
    match kind
    case Large => 2
    case Mega => 3
    case _ => 1
  }

  /** What the recipe table decides for one tree. */
  datatype Recipe = Recipe(kind: TreeKind, trunkHeight: int, foliageRadius: int, roots: bool, spacing: nat, twisted: bool)

  /**
   * The random numbers the recipe table reads, each from [0, 1): the type
   * draw, the trunk-height and foliage-radius draws, and the roots draw.
   */
  datatype RecipeDraw = RecipeDraw(kind: real, height: real, radius: real, roots: real)

  predicate UnitDraw(r: real)
  {
    0.0 <= r < 1.0
  }

  predicate ValidDraw(d: RecipeDraw)
  {
    UnitDraw(d.kind) && UnitDraw(d.height) && UnitDraw(d.radius) && UnitDraw(d.roots)
  }

  /** `Math.floor(random * n) + base`. */
  function Pick(r: real, n: nat, base: int): int
  {
    (r * n as real).Floor + base
  }

  /**
   * The recipe table: the type draw splits at 0.12 (mega), 0.30 (large) and
   * 0.55 (normal, otherwise small); `distRiver` is the column's |x|.
   */
  function ChooseRecipe(d: RecipeDraw, distRiver: nat): Recipe
  {
    if d.kind < 0.12 then
      Recipe(Mega, Pick(d.height, 6, 18), Pick(d.radius, 2, 7), d.roots < 0.6, 8, false)
    else if d.kind < 0.30 then
      Recipe(Large, Pick(d.height, 5, 13), Pick(d.radius, 2, 5), if distRiver < 23 then true else d.roots < 0.35, 6, false)
    else if d.kind < 0.55 then
      Recipe(Normal, Pick(d.height, 4, 9), Pick(d.radius, 2, 3), false, 4, false)
    else
      Recipe(Small, Pick(d.height, 4, 10), Pick(d.radius, 2, 3), false, 4, true)
  }

  /** A draw from [0, 1) scaled by n and floored lands in 0 .. n - 1. */
  lemma PickRange(r: real, n: nat, base: int)
    requires UnitDraw(r) && n > 0
    ensures base <= Pick(r, n, base) < base + n
  {
    assert 0.0 <= r * n as real < n as real by {
      assert r * n as real < 1.0 * n as real;
    }
  }

  /**
   * The ranges of the recipe table: mega trunks are 18..23 high with
   * foliage radius 7..8 and spacing 8; large ones 13..17, 5..6 and spacing 6,
   * always with roots near the river; normal ones 9..12, 3..4 and spacing 4;
   * small ones 10..13, 3..4, spacing 4, and they alone are twisted.
   */
  lemma RecipeRanges(d: RecipeDraw, distRiver: nat)
    requires ValidDraw(d)
    ensures var r := ChooseRecipe(d, distRiver);
      && (r.kind == Mega ==> 18 <= r.trunkHeight <= 23 && 7 <= r.foliageRadius <= 8 && r.spacing == 8)
      && (r.kind == Large ==> 13 <= r.trunkHeight <= 17 && 5 <= r.foliageRadius <= 6 && r.spacing == 6
                              && (distRiver < 23 ==> r.roots))
      && (r.kind == Normal ==> 9 <= r.trunkHeight <= 12 && 3 <= r.foliageRadius <= 4 && r.spacing == 4 && !r.roots)
      && (r.kind == Small ==> 10 <= r.trunkHeight <= 13 && 3 <= r.foliageRadius <= 4 && r.spacing == 4 && !r.roots)
      && (r.twisted <==> r.kind == Small)
      && r.trunkHeight > 0
  {
    PickRange(d.height, 6, 18);
    PickRange(d.radius, 2, 7);
    PickRange(d.height, 5, 13);
    PickRange(d.radius, 2, 5);
    PickRange(d.height, 4, 9);
    PickRange(d.radius, 2, 3);
    PickRange(d.height, 4, 10);
  }

  // ---------------------------------------------------------------------
  // The straight trunk

  /** The voxels at dz = 0 .. n - 1 of the trunk strip at (x + dx, y). */
  function Strip(x: int, z: int, y: int, dx: int, n: nat): seq<Voxel>
  {
    seq(n, dz requires 0 <= dz < n => Voxel(x + dx, y, z + dz, WoodDark))
  }

  /** The strips dx = 0 .. dxHi - 1 of the trunk layer at height y. */
  function Layer(x: int, z: int, y: int, t: nat, dxHi: nat): seq<Voxel>
  {
    if dxHi == 0 then [] else Layer(x, z, y, t, dxHi - 1) + Strip(x, z, y, dxHi - 1, t)
  }

  /** The layers y = 0 .. yHi - 1 of a trunk of thickness t standing on groundY. */
  function Layers(x: int, z: int, groundY: int, t: nat, yHi: nat): seq<Voxel>
  {
    if yHi == 0 then [] else Layers(x, z, groundY, t, yHi - 1) + Layer(x, z, groundY + yHi - 1, t, t)
  }

  /** A straight trunk: no layer at all when the height is not positive. */
  function Trunk(x: int, z: int, groundY: int, height: int, t: nat): seq<Voxel>
  {
    Layers(x, z, groundY, t, if height > 0 then height else 0)
  }

  /** The box a trunk fills. */
  predicate InTrunk(v: Voxel, x: int, z: int, groundY: int, height: int, t: nat)
  {
    && v.material == WoodDark
    && x <= v.x < x + t && groundY <= v.y < groundY + height && z <= v.z < z + t
  }

  /**
   * `createTreeTrunk`: the roots first, then y, dx and dz in three nested
   * loops, one wood voxel per step.
   */
  method CreateTreeTrunk(x: int, z: int, groundY: int, height: int, thickness: nat, rootVoxels: seq<Voxel>)
    returns (voxels: seq<Voxel>)
    ensures voxels == rootVoxels + Trunk(x, z, groundY, height, thickness)
  {
    voxels := rootVoxels;
    var y := 0;
    while y < height
      invariant 0 <= y <= (if height > 0 then height else 0)
      invariant voxels == rootVoxels + Layers(x, z, groundY, thickness, y)
    {
      for dx := 0 to thickness
        invariant voxels == rootVoxels + Layers(x, z, groundY, thickness, y) + Layer(x, z, groundY + y, thickness, dx)
      {
        for dz := 0 to thickness
          invariant voxels == rootVoxels + Layers(x, z, groundY, thickness, y) + Layer(x, z, groundY + y, thickness, dx)
            + Strip(x, z, groundY + y, dx, dz)
        {
          voxels := voxels + [Voxel(x + dx, groundY + y, z + dz, WoodDark)];
        }
      }
      y := y + 1;
    }
  }

  lemma StripShape(x: int, z: int, y: int, dx: int, n: nat)
    ensures |Strip(x, z, y, dx, n)| == n
    ensures forall v :: v in Strip(x, z, y, dx, n) <==>
      v.material == WoodDark && v.x == x + dx && v.y == y && z <= v.z < z + n
    ensures DistinctKeys(Strip(x, z, y, dx, n))
  {
    var s := Strip(x, z, y, dx, n);
    forall v: Voxel | v.material == WoodDark && v.x == x + dx && v.y == y && z <= v.z < z + n
      ensures v in s
    {
      assert s[v.z - z] == v;
    }
  }

  /** Two key-distinct lists whose coordinates never meet concatenate to a key-distinct list. */
  lemma DistinctConcat(a: seq<Voxel>, b: seq<Voxel>)
    requires DistinctKeys(a) && DistinctKeys(b)
    requires forall u, w | u in a && w in b :: u.Key() != w.Key()
    ensures DistinctKeys(a + b)
  {
    var ab := a + b;
    forall i, j | 0 <= i < j < |ab|
      ensures ab[i].Key() != ab[j].Key()
    {
      if j < |a| {
        assert ab[i] == a[i] && ab[j] == a[j];
      } else if i >= |a| {
        assert ab[i] == b[i - |a|] && ab[j] == b[j - |a|];
      } else {
        assert ab[i] in a && ab[j] in b;
      }
    }
  }

  lemma {:induction false} LayerShape(x: int, z: int, y: int, t: nat, dxHi: nat)
    ensures |Layer(x, z, y, t, dxHi)| == dxHi * t
    ensures forall v :: v in Layer(x, z, y, t, dxHi) <==>
      v.material == WoodDark && x <= v.x < x + dxHi && v.y == y && z <= v.z < z + t
    ensures DistinctKeys(Layer(x, z, y, t, dxHi))
  {
    if dxHi > 0 {
      var front := Layer(x, z, y, t, dxHi - 1);
      var strip := Strip(x, z, y, dxHi - 1, t);
      LayerShape(x, z, y, t, dxHi - 1);
      StripShape(x, z, y, dxHi - 1, t);
      assert Layer(x, z, y, t, dxHi) == front + strip;
      assert |front + strip| == (dxHi - 1) * t + t == dxHi * t;
      DistinctConcat(front, strip);
    }
  }

  lemma {:induction false} LayersShape(x: int, z: int, groundY: int, t: nat, yHi: nat)
    ensures |Layers(x, z, groundY, t, yHi)| == yHi * (t * t)
    ensures forall v :: v in Layers(x, z, groundY, t, yHi) <==> InTrunk(v, x, z, groundY, yHi, t)
    ensures DistinctKeys(Layers(x, z, groundY, t, yHi))
  {
    if yHi > 0 {
      var below := Layers(x, z, groundY, t, yHi - 1);
      var layer := Layer(x, z, groundY + yHi - 1, t, t);
      LayersShape(x, z, groundY, t, yHi - 1);
      LayerShape(x, z, groundY + yHi - 1, t, t);
      assert Layers(x, z, groundY, t, yHi) == below + layer;
      assert |below + layer| == (yHi - 1) * (t * t) + t * t == yHi * (t * t);
      DistinctConcat(below, layer);
    }
  }

  /**
   * A straight trunk of positive height h and thickness t holds exactly
   * h * t * t voxels, all dark wood, exactly filling its box, no two at the
   * same coordinate; collapsing it by coordinate therefore keeps every one.
   */
  lemma TrunkShape(x: int, z: int, groundY: int, height: int, t: nat)
    requires height > 0
    ensures |Trunk(x, z, groundY, height, t)| == height * t * t
    ensures forall v :: v in Trunk(x, z, groundY, height, t) <==> InTrunk(v, x, z, groundY, height, t)
    ensures DistinctKeys(Trunk(x, z, groundY, height, t))
    ensures Deduplicate(Trunk(x, z, groundY, height, t)) == Trunk(x, z, groundY, height, t)
  {
    LayersShape(x, z, groundY, t, height);
    assert height * (t * t) == height * t * t;
    DeduplicateIdempotent(Trunk(x, z, groundY, height, t));
  }

  // ---------------------------------------------------------------------
  // A whole tree

  /**
   * The voxels of a tree that come from float geometry, supplied by the
   * caller: the roots (`createTreeRoots`), the foliage with its hanging moss
   * and vines (`createTreeFoliage`), and a complete twisted tree
   * (`createTwistedBranches` with its two-layer cap).
   */
  datatype TreeExtras = TreeExtras(roots: seq<Voxel>, foliage: seq<Voxel>, twisted: seq<Voxel>)

  /** The voxels `createTree` yields. */
  function Tree(x: int, z: int, groundY: int, recipe: Recipe, extras: TreeExtras): seq<Voxel>
  {
    if recipe.twisted then extras.twisted
    else
      (if recipe.roots then extras.roots else [])
      + Trunk(x, z, groundY, recipe.trunkHeight, Thickness(recipe.kind))
      + extras.foliage
  }

  /** `createTree`: a twisted tree, or roots, a straight trunk of the kind's thickness, and foliage. */
  method CreateTree(x: int, z: int, groundY: int, recipe: Recipe, extras: TreeExtras) returns (voxels: seq<Voxel>)
    ensures voxels == Tree(x, z, groundY, recipe, extras)
  {
    if recipe.twisted {
      voxels := extras.twisted;
    } else {
      var thickness := Thickness(recipe.kind);
      var rootVoxels := if recipe.roots then extras.roots else [];
      voxels := CreateTreeTrunk(x, z, groundY, recipe.trunkHeight, thickness, rootVoxels);
      voxels := voxels + extras.foliage;
    }
  }

  /**
   * A straight tree holds its whole trunk: a t x h x t box of dark wood on
   * the ground level, t being 3 for mega trees, 2 for large ones, 1 otherwise.
   */
  lemma TreeHoldsTrunk(x: int, z: int, groundY: int, recipe: Recipe, extras: TreeExtras, v: Voxel)
    requires !recipe.twisted && recipe.trunkHeight > 0
    requires InTrunk(v, x, z, groundY, recipe.trunkHeight, Thickness(recipe.kind))
    ensures v in Tree(x, z, groundY, recipe, extras)
    ensures recipe.kind == Mega ==> x <= v.x < x + 3
    ensures recipe.kind == Large ==> x <= v.x < x + 2
    ensures (recipe.kind == Normal || recipe.kind == Small) ==> v.x == x && v.z == z
  {
    TrunkShape(x, z, groundY, recipe.trunkHeight, Thickness(recipe.kind));
  }
}
