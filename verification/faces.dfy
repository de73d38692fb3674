/** The six cube faces: their corner quads, their neighbour offsets, and the
    visibility test that decides whether a face is drawn. */
module Faces {
  import opened Blocks
  import opened Grid

  /** Face indices in emission order: front, back, top, bottom, left, right. */
  type Face = f: int | 0 <= f < 6

  const FRONT: Face := 0
  const BACK: Face := 1
  const TOP: Face := 2
  const BOTTOM: Face := 3
  const LEFT: Face := 4
  const RIGHT: Face := 5

  /** The unit-cube corners, four per face, face f at indices 4*f .. 4*f+3. */
  const CubeVertices: seq<Vec3> := [
    // front
    Vec3(0, 0, 1), Vec3(1, 0, 1), Vec3(1, 1, 1), Vec3(0, 1, 1),
    // back
    Vec3(1, 0, 0), Vec3(0, 0, 0), Vec3(0, 1, 0), Vec3(1, 1, 0),
    // top
    Vec3(0, 1, 1), Vec3(1, 1, 1), Vec3(1, 1, 0), Vec3(0, 1, 0),
    // bottom
    Vec3(0, 0, 0), Vec3(1, 0, 0), Vec3(1, 0, 1), Vec3(0, 0, 1),
    // left
    Vec3(0, 0, 0), Vec3(0, 0, 1), Vec3(0, 1, 1), Vec3(0, 1, 0),
    // right
    Vec3(1, 0, 1), Vec3(1, 0, 0), Vec3(1, 1, 0), Vec3(1, 1, 1)
  ]

  /** The i-th corner of face f of the unit cube. */
  function CubeCorner(f: Face, i: int): Vec3
    requires 0 <= i < 4
  {
    CubeVertices[4 * f + i]
  }

  /** Direction from a voxel to the neighbour across face f. */
  function Offset(f: Face): Vec3 {
    if f == FRONT then Vec3(0, 0, 1)
    else if f == BACK then Vec3(0, 0, -1)
    else if f == TOP then Vec3(0, 1, 0)
    else if f == BOTTOM then Vec3(0, -1, 0)
    else if f == LEFT then Vec3(-1, 0, 0)
    else Vec3(1, 0, 0)
  }

  /** The face of the neighbour that touches face f. */
  function Opposite(f: Face): (o: Face)
    ensures Offset(o) == Neg(Offset(f))
  {
    if f == FRONT then BACK
    else if f == BACK then FRONT
    else if f == TOP then BOTTOM
    else if f == BOTTOM then TOP
    else if f == LEFT then RIGHT
    else LEFT
  }

  /** A face is visible when the cell across it reads as AIR; the cell is
      looked up through the bounds-safe accessor, so it may lie outside. */
  predicate IsFaceVisible(g: Grid, x: int, y: int, z: int, f: Face): (visible: bool)
    requires g.Valid()
    ensures visible <==> g.Get(x + Offset(f).x, y + Offset(f).y, z + Offset(f).z) == AIR
  {
    var neighbours := [
      Vec3(x, y, z + 1), Vec3(x, y, z - 1),
      Vec3(x, y + 1, z), Vec3(x, y - 1, z),
      Vec3(x - 1, y, z), Vec3(x + 1, y, z)
    ];
    var n := neighbours[f];
    g.Get(n.x, n.y, n.z) == AIR
  }

  /** Offsets are non-zero and pairwise different. */
  lemma OffsetsDistinct(f: Face, f': Face)
    ensures Offset(f) != Vec3(0, 0, 0)
    ensures f != f' ==> Offset(f) != Offset(f')
  {
  }

  /** Faces on the edge of the world are always drawn: their neighbour lies
      outside the grid and reads as AIR. */
  lemma BoundaryFaceVisible(g: Grid, x: int, y: int, z: int, f: Face)
    requires g.Valid()
    requires !g.InBounds(x + Offset(f).x, y + Offset(f).y, z + Offset(f).z)
    ensures IsFaceVisible(g, x, y, z, f)
  {
  }

  /** A face shared by two solid voxels is hidden on both sides. */
  lemma SharedFaceHidden(g: Grid, x: int, y: int, z: int, f: Face)
    requires g.Valid()
    requires g.Solid(x, y, z)
    requires g.Solid(x + Offset(f).x, y + Offset(f).y, z + Offset(f).z)
    ensures !IsFaceVisible(g, x, y, z, f)
    ensures !IsFaceVisible(g, x + Offset(f).x, y + Offset(f).y, z + Offset(f).z, Opposite(f))
  {
  }

  /** The plane of the unit cube that face f lies in: the coordinate along
      the face's axis is 1 for the +x, +y, +z faces and 0 for the others. */
  predicate OnFacePlane(f: Face, c: Vec3) {
    var n := Offset(f);
    if n.x + n.y + n.z > 0 then Dot(c, n) == 1 else Dot(c, n) == 0
  }

  /** Corner i of face f lies on the face's plane, the edge leaving it has
      unit length, and turning from that edge to the next one is a
      counter-clockwise turn about the outward normal Offset(f). */
  predicate CornerWellPlaced(f: Face, i: int)
    requires 0 <= i < 4
  {
    var a := CubeCorner(f, i);
    var b := CubeCorner(f, (i + 1) % 4);
    var c := CubeCorner(f, (i + 2) % 4);
    && OnFacePlane(f, a)
    && Dot(Minus(b, a), Minus(b, a)) == 1
    && Cross(Minus(b, a), Minus(c, b)) == Offset(f)
  }

  /** The corner quads are unit squares on the right cube face, wound
      counter-clockwise when seen from outside: the cross product of every
      pair of consecutive edges is the outward unit normal, which is the
      direction of the neighbour whose cell decides the face's visibility. Back-face
      culling of clockwise polygons therefore keeps every emitted face. */
  lemma FaceWinding(f: Face)
    ensures forall i :: 0 <= i < 4 ==> CornerWellPlaced(f, i)
  {
    if f == FRONT {
      FrontWound();
    } else if f == BACK {
      BackWound();
    } else if f == TOP {
      TopWound();
    } else if f == BOTTOM {
      BottomWound();
    } else if f == LEFT {
      LeftWound();
    } else {
      RightWound();
    }
  }

  lemma FrontWound()
    ensures forall i :: 0 <= i < 4 ==> CornerWellPlaced(FRONT, i)
  {
    assert CornerWellPlaced(FRONT, 0);
    assert CornerWellPlaced(FRONT, 1);
    assert CornerWellPlaced(FRONT, 2);
    assert CornerWellPlaced(FRONT, 3);
  }

  lemma BackWound()
    ensures forall i :: 0 <= i < 4 ==> CornerWellPlaced(BACK, i)
  {
    assert CornerWellPlaced(BACK, 0);
    assert CornerWellPlaced(BACK, 1);
    assert CornerWellPlaced(BACK, 2);
    assert CornerWellPlaced(BACK, 3);
  }

  lemma TopWound()
    ensures forall i :: 0 <= i < 4 ==> CornerWellPlaced(TOP, i)
  {
    assert CornerWellPlaced(TOP, 0);
    assert CornerWellPlaced(TOP, 1);
    assert CornerWellPlaced(TOP, 2);
    assert CornerWellPlaced(TOP, 3);
  }

  lemma BottomWound()
    ensures forall i :: 0 <= i < 4 ==> CornerWellPlaced(BOTTOM, i)
  {
    assert CornerWellPlaced(BOTTOM, 0);
    assert CornerWellPlaced(BOTTOM, 1);
    assert CornerWellPlaced(BOTTOM, 2);
    assert CornerWellPlaced(BOTTOM, 3);
  }

  lemma LeftWound()
    ensures forall i :: 0 <= i < 4 ==> CornerWellPlaced(LEFT, i)
  {
    assert CornerWellPlaced(LEFT, 0);
    assert CornerWellPlaced(LEFT, 1);
    assert CornerWellPlaced(LEFT, 2);
    assert CornerWellPlaced(LEFT, 3);
  }

  lemma RightWound()
    ensures forall i :: 0 <= i < 4 ==> CornerWellPlaced(RIGHT, i)
  {
    assert CornerWellPlaced(RIGHT, 0);
    assert CornerWellPlaced(RIGHT, 1);
    assert CornerWellPlaced(RIGHT, 2);
    assert CornerWellPlaced(RIGHT, 3);
  }
}
