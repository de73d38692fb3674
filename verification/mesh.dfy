/** The face-culling mesh, as a functional model: the sequence of exposed
    faces in the builder's traversal order (x outermost, then y, then z, then
    face index), each of which becomes one 4-vertex quad. */
module Mesh {
  import opened Blocks
  import opened Grid
  import opened Faces

  /** Face `face` of the voxel at (x, y, z): one emitted quad. */
  datatype FaceAt = FaceAt(x: int, y: int, z: int, face: Face)

  /** The builder draws face f of (x, y, z) exactly when the voxel is inside
      the grid, is not AIR, and the cell across the face reads as AIR. */
  predicate Exposed(g: Grid, x: int, y: int, z: int, f: Face)
    requires g.Valid()
  {
    g.InBounds(x, y, z) && g.Solid(x, y, z) && IsFaceVisible(g, x, y, z, f)
  }

  /** Every exposed (voxel, face) pair, as a set: the reference the
      traversal is measured against. */
  function ExposedSet(g: Grid): set<FaceAt>
    requires g.Valid()
  {
    set x: int, y: int, z: int, f: Face |
      0 <= x < g.w && 0 <= y < g.h && 0 <= z < g.d && Exposed(g, x, y, z, f) :: FaceAt(x, y, z, f)
  }

  // ---- the traversal, one function per loop of the builder ----

  /** Visible faces among the first n faces of a solid voxel, in face order. */
  function VoxelFaces(g: Grid, x: int, y: int, z: int, n: nat): seq<FaceAt>
    requires g.Valid() && n <= 6
  {
    if n == 0 then []
    else VoxelFaces(g, x, y, z, n - 1) + (if IsFaceVisible(g, x, y, z, n - 1) then [FaceAt(x, y, z, n - 1)] else [])
  }

  /** The faces a voxel contributes: none when it is AIR. */
  function CellFaces(g: Grid, x: int, y: int, z: int): seq<FaceAt>
    requires g.Valid()
  {
    if g.Get(x, y, z) == AIR then [] else VoxelFaces(g, x, y, z, 6)
  }

  /** Faces of the voxels (x, y, 0 .. n-1). */
  function RowFaces(g: Grid, x: int, y: int, n: nat): seq<FaceAt>
    requires g.Valid() && n <= g.d
  {
    if n == 0 then [] else RowFaces(g, x, y, n - 1) + CellFaces(g, x, y, n - 1)
  }

  /** Faces of the voxels (x, 0 .. n-1, *). */
  function SliceFaces(g: Grid, x: int, n: nat): seq<FaceAt>
    requires g.Valid() && n <= g.h
  {
    if n == 0 then [] else SliceFaces(g, x, n - 1) + RowFaces(g, x, n - 1, g.d)
  }

  /** Faces of the voxels (0 .. n-1, *, *). */
  function GridFaces(g: Grid, n: nat): seq<FaceAt>
    requires g.Valid() && n <= g.w
  {
    if n == 0 then [] else GridFaces(g, n - 1) + SliceFaces(g, n - 1, g.h)
  }

  /** The whole mesh, one entry per emitted quad, in emission order: every
      exposed (voxel, face) pair, each exactly once, and nothing else. */
  function ExposedFaces(g: Grid): (faces: seq<FaceAt>)
    requires g.Valid()
    ensures forall fa :: fa in faces <==> Exposed(g, fa.x, fa.y, fa.z, fa.face)
    ensures Distinct(faces)
  {
    GridFacesContents(g, g.w);
    GridFaces(g, g.w)
  }

  // ---- the vertices of a quad ----

  /** Corner i of an emitted face: the cube corner shifted to the voxel. */
  function Corner(fa: FaceAt, i: int): Vec3
    requires 0 <= i < 4
  {
    Plus(CubeCorner(fa.face, i), Vec3(fa.x, fa.y, fa.z))
  }

  /** The colour every vertex of an emitted face carries: its block's colour. */
  function FaceColor(g: Grid, fa: FaceAt): Color
    requires g.Valid()
  {
    ColorOf(g.Get(fa.x, fa.y, fa.z))
  }

  // ---- sequences without repetitions ----

  predicate Distinct<T(==)>(s: seq<T>) {
    forall i, j :: 0 <= i < j < |s| ==> s[i] != s[j]
  }

  function Elems<T>(s: seq<T>): set<T> {
    set e | e in s
  }

  lemma DistinctAppend<T>(a: seq<T>, b: seq<T>)
    requires Distinct(a) && Distinct(b)
    requires forall e :: e in a ==> e !in b
    ensures Distinct(a + b)
  {
    var s := a + b;
    forall i, j | 0 <= i < j < |s|
      ensures s[i] != s[j]
    {
      if j < |a| {
        assert s[i] == a[i] && s[j] == a[j];
      } else if |a| <= i {
        assert s[i] == b[i - |a|] && s[j] == b[j - |a|];
      } else {
        assert s[i] == a[i] && s[j] == b[j - |a|];
        assert a[i] in a;
      }
    }
  }

  /** A sequence without repetitions has as many elements as its set. */
  lemma {:induction false} DistinctCard<T>(s: seq<T>)
    requires Distinct(s)
    ensures |Elems(s)| == |s|
  {
    if |s| > 0 {
      var init := s[..|s| - 1];
      var last := s[|s| - 1];
      assert Distinct(init);
      DistinctCard(init);
      assert Elems(s) == Elems(init) + {last} by {
        assert s == init + [last];
      }
      assert last !in Elems(init);
    }
  }

  // ---- what each traversal level contains ----

  lemma {:induction false} VoxelFacesContents(g: Grid, x: int, y: int, z: int, n: nat)
    requires g.Valid() && n <= 6
    ensures Distinct(VoxelFaces(g, x, y, z, n))
    ensures forall fa :: fa in VoxelFaces(g, x, y, z, n) <==>
              fa.x == x && fa.y == y && fa.z == z && fa.face < n && IsFaceVisible(g, x, y, z, fa.face)
  {
    if n > 0 {
      VoxelFacesContents(g, x, y, z, n - 1);
      var tail := if IsFaceVisible(g, x, y, z, n - 1) then [FaceAt(x, y, z, n - 1)] else [];
      DistinctAppend(VoxelFaces(g, x, y, z, n - 1), tail);
    }
  }

  lemma CellFacesContents(g: Grid, x: int, y: int, z: int)
    requires g.Valid() && g.InBounds(x, y, z)
    ensures Distinct(CellFaces(g, x, y, z))
    ensures forall fa :: fa in CellFaces(g, x, y, z) <==>
              fa.x == x && fa.y == y && fa.z == z && Exposed(g, fa.x, fa.y, fa.z, fa.face)
  {
    VoxelFacesContents(g, x, y, z, 6);
  }

  lemma {:induction false} RowFacesContents(g: Grid, x: int, y: int, n: nat)
    requires g.Valid() && 0 <= x < g.w && 0 <= y < g.h && n <= g.d
    ensures Distinct(RowFaces(g, x, y, n))
    ensures forall fa :: fa in RowFaces(g, x, y, n) <==>
              fa.x == x && fa.y == y && 0 <= fa.z < n && Exposed(g, fa.x, fa.y, fa.z, fa.face)
  {
    if n > 0 {
      RowFacesContents(g, x, y, n - 1);
      CellFacesContents(g, x, y, n - 1);
      DistinctAppend(RowFaces(g, x, y, n - 1), CellFaces(g, x, y, n - 1));
    }
  }

  lemma {:induction false} SliceFacesContents(g: Grid, x: int, n: nat)
    requires g.Valid() && 0 <= x < g.w && n <= g.h
    ensures Distinct(SliceFaces(g, x, n))
    ensures forall fa :: fa in SliceFaces(g, x, n) <==>
              fa.x == x && 0 <= fa.y < n && 0 <= fa.z < g.d && Exposed(g, fa.x, fa.y, fa.z, fa.face)
  {
    if n > 0 {
      SliceFacesContents(g, x, n - 1);
      RowFacesContents(g, x, n - 1, g.d);
      DistinctAppend(SliceFaces(g, x, n - 1), RowFaces(g, x, n - 1, g.d));
    }
  }

  lemma {:induction false} GridFacesContents(g: Grid, n: nat)
    requires g.Valid() && n <= g.w
    ensures Distinct(GridFaces(g, n))
    ensures forall fa :: fa in GridFaces(g, n) <==>
              0 <= fa.x < n && 0 <= fa.y < g.h && 0 <= fa.z < g.d && Exposed(g, fa.x, fa.y, fa.z, fa.face)
  {
    if n > 0 {
      GridFacesContents(g, n - 1);
      SliceFacesContents(g, n - 1, g.h);
      DistinctAppend(GridFaces(g, n - 1), SliceFaces(g, n - 1, g.h));
    }
  }

  /** The mesh holds exactly the faces of the independent set of exposed
      faces, so its quad count is the number of exposed faces. */
  lemma MeshIsExposedFaces(g: Grid)
    requires g.Valid()
    ensures Elems(ExposedFaces(g)) == ExposedSet(g)
    ensures |ExposedFaces(g)| == |ExposedSet(g)|
  {
    DistinctCard(ExposedFaces(g));
  }

  // ---- empty meshes, lone voxels and touching voxels ----

  /** Walking in +x from a solid voxel, the last solid voxel of the run shows
      its right face: a solid voxel in a finite grid always exposes a face. */
  lemma {:induction false} SolidVoxelShowsAFace(g: Grid, x: int, y: int, z: int)
    requires g.Valid() && g.InBounds(x, y, z) && g.Solid(x, y, z)
    ensures exists x' :: x <= x' < g.w && Exposed(g, x', y, z, RIGHT)
    decreases g.w - x
  {
    if g.Get(x + 1, y, z) == AIR {
      assert Exposed(g, x, y, z, RIGHT);
    } else {
      SolidVoxelShowsAFace(g, x + 1, y, z);
    }
  }

  /** The mesh is empty exactly when every cell of the grid is AIR. */
  lemma MeshEmptyIffAllAir(g: Grid)
    requires g.Valid()
    ensures ExposedFaces(g) == [] <==> forall x, y, z :: g.InBounds(x, y, z) ==> g.Get(x, y, z) == AIR
  {
    MeshIsExposedFaces(g);
    if exists x, y, z :: g.InBounds(x, y, z) && g.Get(x, y, z) != AIR {
      var x, y, z :| g.InBounds(x, y, z) && g.Get(x, y, z) != AIR;
      SolidVoxelShowsAFace(g, x, y, z);
      var x' :| x <= x' < g.w && Exposed(g, x', y, z, RIGHT);
      assert FaceAt(x', y, z, RIGHT) in ExposedFaces(g);
    }
  }

  /** All six faces of the voxel at p. */
  function AllFaces(p: Vec3): (s: set<FaceAt>)
    ensures |s| == 6
    ensures forall fa: FaceAt :: fa in s <==> fa.x == p.x && fa.y == p.y && fa.z == p.z
  {
    var fs := {FaceAt(p.x, p.y, p.z, FRONT), FaceAt(p.x, p.y, p.z, BACK), FaceAt(p.x, p.y, p.z, TOP),
               FaceAt(p.x, p.y, p.z, BOTTOM), FaceAt(p.x, p.y, p.z, LEFT), FaceAt(p.x, p.y, p.z, RIGHT)};
    assert forall fa: FaceAt :: fa.x == p.x && fa.y == p.y && fa.z == p.z ==> fa in fs by {
      forall fa: FaceAt | fa.x == p.x && fa.y == p.y && fa.z == p.z
        ensures fa in fs
      {
        var f := fa.face;
        assert f == 0 || f == 1 || f == 2 || f == 3 || f == 4 || f == 5;
      }
    }
    fs
  }

  /** A single solid voxel with AIR all around shows all six faces: a
      24-vertex mesh, every vertex in that voxel's colour. */
  lemma LoneVoxel(g: Grid, x: int, y: int, z: int)
    requires g.Valid() && g.InBounds(x, y, z) && g.Solid(x, y, z)
    requires forall i, j, k :: (i, j, k) != (x, y, z) ==> g.Get(i, j, k) == AIR
    ensures Elems(ExposedFaces(g)) == AllFaces(Vec3(x, y, z))
    ensures |ExposedFaces(g)| == 6
    ensures forall fa :: fa in ExposedFaces(g) ==> FaceColor(g, fa) == ColorOf(g.Get(x, y, z))
  {
    MeshIsExposedFaces(g);
    DistinctCard(ExposedFaces(g));
    forall fa | fa in AllFaces(Vec3(x, y, z))
      ensures fa in ExposedFaces(g)
    {
      OffsetsDistinct(fa.face, fa.face);
    }
  }

  /** Every cell of the grid other than p and q is AIR. */
  predicate OnlySolidAt(g: Grid, p: Vec3, q: Vec3)
    requires g.Valid()
  {
    forall i, j, k :: 0 <= i < g.w && 0 <= j < g.h && 0 <= k < g.d && Vec3(i, j, k) != p && Vec3(i, j, k) != q ==>
      g.Get(i, j, k) == AIR
  }

  /** With only p and its neighbour q across face f solid, p shows every face but f. */
  lemma PairSideFaces(g: Grid, p: Vec3, q: Vec3, f: Face)
    requires g.Valid() && g.InBounds(p.x, p.y, p.z) && g.Solid(p.x, p.y, p.z)
    requires q == Plus(p, Offset(f)) && g.Solid(q.x, q.y, q.z)
    requires OnlySolidAt(g, p, q)
    ensures forall f': Face :: Exposed(g, p.x, p.y, p.z, f') <==> f' != f
  {
    forall f': Face
      ensures Exposed(g, p.x, p.y, p.z, f') <==> f' != f
    {
      OffsetsDistinct(f', f);
    }
  }

  /** All faces of p but f. */
  function FacesBut(p: Vec3, f: Face): (s: set<FaceAt>)
    ensures |s| == 5
    ensures forall fa :: fa in s <==> fa.x == p.x && fa.y == p.y && fa.z == p.z && fa.face != f
  {
    AllFaces(p) - {FaceAt(p.x, p.y, p.z, f)}
  }

  /** Two solid voxels sharing face f of the first: each hides the touching
      face, leaving 10 faces, a 40-vertex mesh. */
  lemma AdjacentPair(g: Grid, p: Vec3, f: Face)
    requires g.Valid() && g.InBounds(p.x, p.y, p.z) && g.Solid(p.x, p.y, p.z)
    requires var q := Plus(p, Offset(f)); g.Solid(q.x, q.y, q.z)
    requires OnlySolidAt(g, p, Plus(p, Offset(f)))
    ensures Elems(ExposedFaces(g)) == FacesBut(p, f) + FacesBut(Plus(p, Offset(f)), Opposite(f))
    ensures |ExposedFaces(g)| == 10
  {
    var q := Plus(p, Offset(f));
    var o := Opposite(f);
    PairExposed(g, p, f);
    OffsetsDistinct(f, f);
    var A := FacesBut(p, f);
    var B := FacesBut(q, o);
    assert A * B == {} by {
      forall fa | fa in A ensures fa !in B {}
    }
    assert |A + B| == 10;
  }

  lemma PairExposed(g: Grid, p: Vec3, f: Face)
    requires g.Valid() && g.InBounds(p.x, p.y, p.z) && g.Solid(p.x, p.y, p.z)
    requires var q := Plus(p, Offset(f)); g.Solid(q.x, q.y, q.z)
    requires OnlySolidAt(g, p, Plus(p, Offset(f)))
    ensures Elems(ExposedFaces(g)) == FacesBut(p, f) + FacesBut(Plus(p, Offset(f)), Opposite(f))
    ensures |ExposedFaces(g)| == |Elems(ExposedFaces(g))|
  {
    var q := Plus(p, Offset(f));
    var o := Opposite(f);
    assert p == Plus(q, Offset(o));
    assert g.InBounds(q.x, q.y, q.z);
    PairSideFaces(g, p, q, f);
    PairSideFaces(g, q, p, o);
    MeshIsExposedFaces(g);
    DistinctCard(ExposedFaces(g));
    PairSetsEqual(g, p, q, f, o);
  }

  lemma PairSetsEqual(g: Grid, p: Vec3, q: Vec3, f: Face, o: Face)
    requires g.Valid()
    requires OnlySolidAt(g, p, q)
    requires forall f': Face :: Exposed(g, p.x, p.y, p.z, f') <==> f' != f
    requires forall f': Face :: Exposed(g, q.x, q.y, q.z, f') <==> f' != o
    requires forall fa :: fa in ExposedFaces(g) <==> Exposed(g, fa.x, fa.y, fa.z, fa.face)
    ensures Elems(ExposedFaces(g)) == FacesBut(p, f) + FacesBut(q, o)
  {
    PairMeshWithin(g, p, q, f, o);
    PairMeshCovers(g, p, q, f, o);
  }

  lemma PairMeshWithin(g: Grid, p: Vec3, q: Vec3, f: Face, o: Face)
    requires g.Valid()
    requires OnlySolidAt(g, p, q)
    requires forall f': Face :: Exposed(g, p.x, p.y, p.z, f') <==> f' != f
    requires forall f': Face :: Exposed(g, q.x, q.y, q.z, f') <==> f' != o
    requires forall fa :: fa in ExposedFaces(g) <==> Exposed(g, fa.x, fa.y, fa.z, fa.face)
    ensures Elems(ExposedFaces(g)) <= FacesBut(p, f) + FacesBut(q, o)
  {
    forall fa | fa in Elems(ExposedFaces(g))
      ensures fa in FacesBut(p, f) + FacesBut(q, o)
    {
      assert Exposed(g, fa.x, fa.y, fa.z, fa.face);
      assert Vec3(fa.x, fa.y, fa.z) == p || Vec3(fa.x, fa.y, fa.z) == q;
    }
  }

  lemma PairMeshCovers(g: Grid, p: Vec3, q: Vec3, f: Face, o: Face)
    requires g.Valid()
    requires forall f': Face :: Exposed(g, p.x, p.y, p.z, f') <==> f' != f
    requires forall f': Face :: Exposed(g, q.x, q.y, q.z, f') <==> f' != o
    requires forall fa :: fa in ExposedFaces(g) <==> Exposed(g, fa.x, fa.y, fa.z, fa.face)
    ensures FacesBut(p, f) + FacesBut(q, o) <= Elems(ExposedFaces(g))
  {
    forall fa | fa in FacesBut(p, f) + FacesBut(q, o)
      ensures fa in Elems(ExposedFaces(g))
    {
      assert Exposed(g, fa.x, fa.y, fa.z, fa.face);
    }
  }
}
