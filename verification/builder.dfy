/** The mesh builder as the program runs it: a triple loop over the grid that
    appends four vertices and four colours for every visible face of every
    solid voxel, proved to produce exactly the quads of the functional model. */
module MeshBuilder {
  import opened Blocks
  import opened Grid
  import opened Faces
  import opened Mesh

  /** The first n entries of the vertex and colour lists are the corners and
      colours of `quads`, four entries per quad, corners in cube order. */
  predicate QuadLists(g: Grid, quads: seq<FaceAt>, n: nat, vertices: seq<Vec3>, colors: seq<Color>)
    requires g.Valid()
  {
    && n <= 4 * |quads|
    && |vertices| == n && |colors| == n
    && forall k :: 0 <= k < n ==>
         vertices[k] == Corner(quads[k / 4], k % 4) && colors[k] == FaceColor(g, quads[k / 4])
  }

  /** Lists that cover whole quads still describe those quads when one more
      quad is announced. */
  lemma QuadListsExtend(g: Grid, quads: seq<FaceAt>, cur: FaceAt, vertices: seq<Vec3>, colors: seq<Color>)
    requires g.Valid()
    requires QuadLists(g, quads, 4 * |quads|, vertices, colors)
    ensures QuadLists(g, quads + [cur], 4 * |quads|, vertices, colors)
  {
    forall k | 0 <= k < 4 * |quads|
      ensures (quads + [cur])[k / 4] == quads[k / 4]
    {
    }
  }

  /** Builds the vertex and colour lists: x outermost, then y, then z (one
      helper per loop level below); AIR cells are skipped; for each visible
      face in face order, the face's four cube corners shifted by (x, y, z),
      each with the block's colour. */
  method BuildMesh(g: Grid) returns (vertices: seq<Vec3>, colors: seq<Color>)
    requires g.Valid()
    ensures |vertices| == |colors| == 4 * |ExposedFaces(g)|
    ensures forall k :: 0 <= k < |vertices| ==>
              && vertices[k] == Corner(ExposedFaces(g)[k / 4], k % 4)
              && colors[k] == FaceColor(g, ExposedFaces(g)[k / 4])
  {
    vertices := [];
    colors := [];
    for x := 0 to g.w
      invariant QuadLists(g, GridFaces(g, x), 4 * |GridFaces(g, x)|, vertices, colors)
    {
      vertices, colors := EmitSlice(g, x, vertices, colors, GridFaces(g, x));
    }
  }

  /** The y loop for one x: appends the quads of the slice x. */
  method EmitSlice(g: Grid, x: int, vertices: seq<Vec3>, colors: seq<Color>, ghost quads: seq<FaceAt>)
    returns (vertices': seq<Vec3>, colors': seq<Color>)
    requires g.Valid() && 0 <= x < g.w
    requires QuadLists(g, quads, 4 * |quads|, vertices, colors)
    ensures QuadLists(g, quads + SliceFaces(g, x, g.h), 4 * |quads + SliceFaces(g, x, g.h)|, vertices', colors')
  {
    vertices', colors' := vertices, colors;
    for y := 0 to g.h
      invariant QuadLists(g, quads + SliceFaces(g, x, y), 4 * |quads + SliceFaces(g, x, y)|, vertices', colors')
    {
      vertices', colors' := EmitRow(g, x, y, vertices', colors', quads + SliceFaces(g, x, y));
      assert quads + SliceFaces(g, x, y) + RowFaces(g, x, y, g.d) == quads + SliceFaces(g, x, y + 1);
    }
  }

  /** The z loop for one (x, y): appends the quads of that row. */
  method EmitRow(g: Grid, x: int, y: int, vertices: seq<Vec3>, colors: seq<Color>, ghost quads: seq<FaceAt>)
    returns (vertices': seq<Vec3>, colors': seq<Color>)
    requires g.Valid() && 0 <= x < g.w && 0 <= y < g.h
    requires QuadLists(g, quads, 4 * |quads|, vertices, colors)
    ensures QuadLists(g, quads + RowFaces(g, x, y, g.d), 4 * |quads + RowFaces(g, x, y, g.d)|, vertices', colors')
  {
    vertices', colors' := vertices, colors;
    for z := 0 to g.d
      invariant QuadLists(g, quads + RowFaces(g, x, y, z), 4 * |quads + RowFaces(g, x, y, z)|, vertices', colors')
    {
      vertices', colors' := EmitVoxel(g, x, y, z, vertices', colors', quads + RowFaces(g, x, y, z));
      assert quads + RowFaces(g, x, y, z) + CellFaces(g, x, y, z) == quads + RowFaces(g, x, y, z + 1);
    }
  }

  /** One cell: nothing for AIR, otherwise a quad per visible face, in face order. */
  method EmitVoxel(g: Grid, x: int, y: int, z: int, vertices: seq<Vec3>, colors: seq<Color>, ghost quads: seq<FaceAt>)
    returns (vertices': seq<Vec3>, colors': seq<Color>)
    requires g.Valid() && g.InBounds(x, y, z)
    requires QuadLists(g, quads, 4 * |quads|, vertices, colors)
    ensures QuadLists(g, quads + CellFaces(g, x, y, z), 4 * |quads + CellFaces(g, x, y, z)|, vertices', colors')
  {
    vertices', colors' := vertices, colors;
    var blockType := g.Get(x, y, z);
    if blockType == AIR {
      assert quads + CellFaces(g, x, y, z) == quads;
      return;
    }
    var color := ColorOf(blockType);
    for f := 0 to 6
      invariant QuadLists(g, quads + VoxelFaces(g, x, y, z, f), 4 * |quads + VoxelFaces(g, x, y, z, f)|, vertices', colors')
    {
      if IsFaceVisible(g, x, y, z, f) {
        vertices', colors' := EmitFace(g, FaceAt(x, y, z, f), color, vertices', colors', quads + VoxelFaces(g, x, y, z, f));
        assert quads + VoxelFaces(g, x, y, z, f) + [FaceAt(x, y, z, f)] == quads + VoxelFaces(g, x, y, z, f + 1);
      } else {
        assert quads + VoxelFaces(g, x, y, z, f) == quads + VoxelFaces(g, x, y, z, f + 1);
      }
    }
  }

  /** Appends the four corners of one face, each with the given colour. */
  method EmitFace(g: Grid, fa: FaceAt, color: Color, vertices: seq<Vec3>, colors: seq<Color>, ghost quads: seq<FaceAt>)
    returns (vertices': seq<Vec3>, colors': seq<Color>)
    requires g.Valid() && color == FaceColor(g, fa)
    requires QuadLists(g, quads, 4 * |quads|, vertices, colors)
    ensures QuadLists(g, quads + [fa], 4 * |quads + [fa]|, vertices', colors')
  {
    var faceStart := fa.face * 4;
    vertices', colors' := vertices, colors;
    QuadListsExtend(g, quads, fa, vertices, colors);
    for i := 0 to 4
      invariant QuadLists(g, quads + [fa], 4 * |quads| + i, vertices', colors')
    {
      var vertex := Plus(CubeVertices[faceStart + i], Vec3(fa.x, fa.y, fa.z));
      vertices' := vertices' + [vertex];
      colors' := colors' + [color];
    }
  }
}
