/** The world: the generated grid, the interleaved vertex buffer built from
    it once, and the draw step that skips an empty buffer. */
module World {
  import opened Wrappers
  import opened Blocks
  import opened Grid
  import opened Terrain
  import opened Faces
  import opened Mesh
  import opened MeshBuilder

  /** World dimensions; the program uses 64 x 16 x 64. */
  datatype Config = Config(width: nat, height: nat, depth: nat)

  const DefaultConfig: Config := Config(64, 16, 64)

  /** Floats per vertex in the buffer (x, y, z, r, g, b), the byte stride of
      one vertex, and the byte offset of its colour. */
  const FLOATS_PER_VERTEX: nat := 6
  const STRIDE_BYTES: nat := 24
  const COLOR_OFFSET_BYTES: nat := 12

  /** vbo is None until a non-empty mesh has been uploaded. */
  datatype World = World(grid: Grid, vbo: Option<seq<real>>, vertexCount: nat)

  /** What `draw` asks of the graphics backend: nothing, or one quads call
      over the whole buffer. */
  datatype DrawCall = NoDraw | DrawQuads(first: nat, count: nat, stride: nat, colorOffset: nat)

  /** The six buffer entries of one vertex: position first, then colour. */
  function VertexRecord(v: Vec3, c: Color): seq<real> {
    [v.x as real, v.y as real, v.z as real, c.r, c.g, c.b]
  }

  /** Interleaves positions and colours into one flat buffer: entry i is
      field i % 6 of vertex i / 6. */
  function Interleave(vertices: seq<Vec3>, colors: seq<Color>): (data: seq<real>)
    requires |vertices| == |colors|
    ensures |data| == FLOATS_PER_VERTEX * |vertices|
    ensures forall i :: 0 <= i < |data| ==> data[i] == VertexRecord(vertices[i / 6], colors[i / 6])[i % 6]
    decreases |vertices|
  {
    if |vertices| == 0 then []
    else
      var n := |vertices| - 1;
      var front := Interleave(vertices[..n], colors[..n]);
      var data := front + VertexRecord(vertices[n], colors[n]);
      assert forall i :: 0 <= i < 6 * n ==> data[i] == front[i] && i / 6 < n;
      assert forall i :: 6 * n <= i < 6 * n + 6 ==> i / 6 == n && i % 6 == i - 6 * n;
      data
  }

  /** Reads a buffer back as positions and colours. */
  function Deinterleave(data: seq<real>): (r: (seq<Vec3>, seq<Color>))
    requires |data| % FLOATS_PER_VERTEX == 0
    ensures |r.0| == |r.1| == |data| / FLOATS_PER_VERTEX
  {
    var n := |data| / 6;
    (seq(n, k requires 0 <= k < n => Vec3(data[6 * k].Floor, data[6 * k + 1].Floor, data[6 * k + 2].Floor)),
     seq(n, k requires 0 <= k < n => Color(data[6 * k + 3], data[6 * k + 4], data[6 * k + 5])))
  }

  /** The buffer loses nothing: reading it back gives the lists it was made from. */
  lemma InterleaveRoundTrip(vertices: seq<Vec3>, colors: seq<Color>)
    requires |vertices| == |colors|
    ensures Deinterleave(Interleave(vertices, colors)) == (vertices, colors)
  {
    var data := Interleave(vertices, colors);
    PositionsReadBack(vertices, colors, data);
    ColorsReadBack(vertices, colors, data);
  }

  lemma PositionsReadBack(vertices: seq<Vec3>, colors: seq<Color>, data: seq<real>)
    requires |vertices| == |colors| && data == Interleave(vertices, colors)
    ensures Deinterleave(data).0 == vertices
  {
    var r := Deinterleave(data).0;
    assert |data| / 6 == |vertices|;
    forall k | 0 <= k < |vertices|
      ensures r[k] == vertices[k]
    {
      RecordReadBack(vertices, colors, k);
    }
  }

  lemma ColorsReadBack(vertices: seq<Vec3>, colors: seq<Color>, data: seq<real>)
    requires |vertices| == |colors| && data == Interleave(vertices, colors)
    ensures Deinterleave(data).1 == colors
  {
    var r := Deinterleave(data).1;
    assert |data| / 6 == |colors|;
    forall k | 0 <= k < |colors|
      ensures r[k] == colors[k]
    {
      RecordReadBack(vertices, colors, k);
    }
  }

  /** Vertex k's six entries read back as its position and colour. */
  lemma RecordReadBack(vertices: seq<Vec3>, colors: seq<Color>, k: nat)
    requires |vertices| == |colors| && k < |vertices|
    ensures var data := Interleave(vertices, colors);
            && Vec3(data[6 * k].Floor, data[6 * k + 1].Floor, data[6 * k + 2].Floor) == vertices[k]
            && Color(data[6 * k + 3], data[6 * k + 4], data[6 * k + 5]) == colors[k]
  {
    var data := Interleave(vertices, colors);
    var rec := VertexRecord(vertices[k], colors[k]);
    assert (6 * k) / 6 == k && (6 * k) % 6 == 0;
    assert (6 * k + 1) / 6 == k && (6 * k + 1) % 6 == 1;
    assert (6 * k + 2) / 6 == k && (6 * k + 2) % 6 == 2;
    assert (6 * k + 3) / 6 == k && (6 * k + 3) % 6 == 3;
    assert (6 * k + 4) / 6 == k && (6 * k + 4) % 6 == 4;
    assert (6 * k + 5) / 6 == k && (6 * k + 5) % 6 == 5;
    assert data[6 * k] == rec[0] && data[6 * k + 1] == rec[1] && data[6 * k + 2] == rec[2];
    assert data[6 * k + 3] == rec[3] && data[6 * k + 4] == rec[4] && data[6 * k + 5] == rec[5];
  }

  /** What a finished world looks like: there is a buffer exactly when the
      mesh of the grid is not empty, and then entry i of the buffer is field
      i % 6 of corner (i / 6) % 4 of quad i / 24 of that mesh. */
  predicate MeshUploaded(w: World) {
    && w.grid.Valid()
    && w.vertexCount == 4 * |ExposedFaces(w.grid)|
    && (w.vbo.None? <==> w.vertexCount == 0)
    && (w.vbo.Some? ==> |w.vbo.value| == FLOATS_PER_VERTEX * w.vertexCount)
    && (w.vbo.Some? ==> forall i :: 0 <= i < |w.vbo.value| ==>
          var quad := ExposedFaces(w.grid)[i / 6 / 4];
          w.vbo.value[i] == VertexRecord(Corner(quad, i / 6 % 4), FaceColor(w.grid, quad))[i % 6])
  }

  /** Builds the mesh of a grid and uploads it; an empty mesh leaves no
      buffer and a vertex count of 0. */
  method UploadMesh(grid: Grid) returns (w: World)
    requires grid.Valid()
    ensures w.grid == grid && MeshUploaded(w)
  {
    var vertices, colors := BuildMesh(grid);
    if |vertices| == 0 {
      return World(grid, None, 0);
    }
    var data := Interleave(vertices, colors);
    w := World(grid, Some(data), |vertices|);
  }

  /** A new world: an all-AIR grid of the configured size, generated, then
      meshed. Generation fails on a grid with columns but fewer than 8 layers. */
  method NewWorld(cfg: Config) returns (r: Result<World, GenError>)
    ensures r.Failure? <==> cfg.width > 0 && cfg.depth > 0 && cfg.height <= GRASS_LAYER
    ensures r.Failure? ==> r.error == LayerOutOfRange(cfg.height)
    ensures r.Success? ==> MeshUploaded(r.value)
    ensures r.Success? ==> r.value.grid.w == cfg.width && r.value.grid.h == cfg.height && r.value.grid.d == cfg.depth
    ensures r.Success? ==> IsTerrain(r.value.grid)
    ensures r.Success? && cfg.width > 0 && cfg.depth > 0 ==> Draw(r.value).DrawQuads?
  {
    var generated := GenerateWorld(cfg.width, cfg.height, cfg.depth);
    if generated.Failure? {
      return Failure(generated.error);
    }
    var grid := generated.value;
    var w := UploadMesh(grid);
    if cfg.width > 0 && cfg.depth > 0 {
      assert grid.InBounds(0, 0, 0) && grid.Get(0, 0, 0) == DIRT;
      DrawIffSolid(w);
    }
    return Success(w);
  }

  /** The program's own world, 64 x 16 x 64: it generates without failing,
      and its terrain reaches the screen as one quads call. */
  method DefaultWorld() returns (w: World)
    ensures MeshUploaded(w)
    ensures w.grid.w == DefaultConfig.width && w.grid.h == DefaultConfig.height && w.grid.d == DefaultConfig.depth
    ensures IsTerrain(w.grid)
    ensures Draw(w).DrawQuads?
  {
    var r := NewWorld(DefaultConfig);
    w := r.value;
  }

  /** The draw step: nothing without a buffer or with no vertices, otherwise
      one quads call over all vertices with the interleaved layout. */
  function Draw(w: World): (call: DrawCall)
    ensures call.NoDraw? <==> w.vbo.None? || w.vertexCount == 0
    ensures call.DrawQuads? ==> call.first == 0 && call.count == w.vertexCount && call.count > 0
    ensures call.DrawQuads? ==> call.stride == FLOATS_PER_VERTEX * 4 && call.colorOffset == 3 * 4
  {
    if w.vbo.None? || w.vertexCount == 0 then NoDraw
    else DrawQuads(0, w.vertexCount, STRIDE_BYTES, COLOR_OFFSET_BYTES)
  }

  /** For a built world, drawing does something exactly when the grid holds
      a solid voxel, and then it draws whole quads. */
  lemma DrawIffSolid(w: World)
    requires MeshUploaded(w)
    ensures Draw(w).NoDraw? <==> forall x, y, z :: w.grid.InBounds(x, y, z) ==> w.grid.Get(x, y, z) == AIR
    ensures Draw(w).DrawQuads? ==> Draw(w).count % 4 == 0
  {
    MeshEmptyIffAllAir(w.grid);
  }
}
