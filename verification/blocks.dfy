/** Block types, block colours, and the integer vectors the world is built from. */
module Blocks {

  /** Cells are stored as unsigned bytes, so any value 0..255 can appear in a grid. */
  type Block = b: int | 0 <= b < 256

  const AIR: Block := 0
  const GRASS: Block := 1
  const DIRT: Block := 2

  /** An RGB triple. Colours are carried through the mesh unchanged and never
      computed with, so they are kept opaque. */
  datatype Color = Color(r: real, g: real, b: real)

  /** Colour of a block type that has no entry in the colour table. */
  const WHITE: Color := Color(1.0, 1.0, 1.0)

  /** The colour table: only grass and dirt have entries. */
  const BlockColors: map<Block, Color> :=
    map[GRASS := Color(0.2, 0.8, 0.2), DIRT := Color(0.6, 0.4, 0.2)]

  /** Colour lookup with white as the default for a type missing from the table. */
  function ColorOf(b: Block): (c: Color)
    ensures b in BlockColors ==> c == BlockColors[b]
    ensures b !in BlockColors ==> c == WHITE
    ensures b != GRASS && b != DIRT ==> c == WHITE
  {
    if b in BlockColors then BlockColors[b] else WHITE
  }

  /** An integer point or offset in world space. */
  datatype Vec3 = Vec3(x: int, y: int, z: int)

  // The vector operations below first bind the components to local names.
  // Written directly over the field selectors, the same definitions make
  // the verifier run out of resource on the constant corner and offset
  // tables of the Faces module.

  function Plus(a: Vec3, b: Vec3): Vec3 {
    var (a0, a1, a2) := (a.x, a.y, a.z);
    var (b0, b1, b2) := (b.x, b.y, b.z);
    Vec3(a0 + b0, a1 + b1, a2 + b2)
  }

  function Minus(a: Vec3, b: Vec3): Vec3 {
    var (a0, a1, a2) := (a.x, a.y, a.z);
    var (b0, b1, b2) := (b.x, b.y, b.z);
    Vec3(a0 - b0, a1 - b1, a2 - b2)
  }

  function Neg(a: Vec3): Vec3 {
    var (a0, a1, a2) := (a.x, a.y, a.z);
    Vec3(0 - a0, 0 - a1, 0 - a2)
  }

  function Cross(a: Vec3, b: Vec3): Vec3 {
    var (a0, a1, a2) := (a.x, a.y, a.z);
    var (b0, b1, b2) := (b.x, b.y, b.z);
    Vec3(a1 * b2 - a2 * b1, a2 * b0 - a0 * b2, a0 * b1 - a1 * b0)
  }

  function Dot(a: Vec3, b: Vec3): int {
    var (a0, a1, a2) := (a.x, a.y, a.z);
    var (b0, b1, b2) := (b.x, b.y, b.z);
    a0 * b0 + a1 * b1 + a2 * b2
  }
}
