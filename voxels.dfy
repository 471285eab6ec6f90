/**
 * The shared vocabulary of the voxel world: the material palette, integer grid
 * positions, (x, z) columns and voxels.
 */
module Voxels {

  /** The thirteen materials of the palette, in the order their keys are declared. */
  datatype Material =
    | Grass | DarkGrass | Moss | Dirt | Mud | WoodDark
    | Leaves | LeavesDense | LeavesLight | LeavesYellow
    | Vine | HangingMoss | LilyPad

  /** The palette's keys in declaration order (the order `Object.keys` yields them). */
  const Palette: seq<Material> :=
    [Grass, DarkGrass, Moss, Dirt, Mud, WoodDark, Leaves, LeavesDense,
     LeavesLight, LeavesYellow, Vine, HangingMoss, LilyPad]

  /** An integer grid position; it plays the role of the "x,y,z" string key. */
  datatype Pos = Pos(x: int, y: int, z: int)

  /** A column of the world, keyed by its (x, z) coordinates (the "x,z" string key). */
  datatype Cell = Cell(x: int, z: int)

  /** A voxel as `createVoxel` builds it: three integer coordinates and a material. */
  datatype Voxel = Voxel(x: int, y: int, z: int, material: Material) {
    function Key(): Pos { Pos(x, y, z) }
  }

  function Abs(n: int): (r: nat)
    ensures r == n || r == -n
  {
    if n < 0 then -n else n
  }

  function Min(a: int, b: int): (r: int)
    ensures r <= a && r <= b && (r == a || r == b)
  {
    if a <= b then a else b
  }

  function Max(a: int, b: int): (r: int)
    ensures r >= a && r >= b && (r == a || r == b)
  {
    if a >= b then a else b
  }

  /** Every material is in the palette exactly once. */
  lemma PaletteIsEnumeration(m: Material)
    ensures m in Palette
    ensures forall i, j :: 0 <= i < j < |Palette| ==> Palette[i] != Palette[j]
  {
  }
}
