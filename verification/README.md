# BarsikVoxel core in Dafny

BarsikVoxel is a small voxel viewer. The world is a dense W x H x D grid of
byte-sized block types: AIR, GRASS and DIRT. It is filled with a fixed
terrain: seven dirt layers and one grass layer on top. It is then turned
once into a single face-culled mesh. A face of a solid voxel is emitted as
a quad of four vertices only when the cell across that face reads as AIR.
The mesh is drawn as one interleaved vertex buffer, with six floats per
vertex. A first-person camera turns with the mouse, keeping its pitch
clamped, and steps up and down with Space and Shift.

This project models that core with immutable datatypes and pure functions.
The builder's triple loop is also given as a method and proved to emit
exactly the functional mesh.

- `wrappers.dfy`: the optional and fallible result types.
- `blocks.dfy`: block types, the colour table with its white fallback, and integer vectors.
- `grid.dfy`: the grid and its bounds-safe accessor.
- `terrain.dfy`: terrain generation, including the out-of-range failure on grids lower than 8 layers.
- `faces.dfy`: the cube corner table, the neighbour offsets, the visibility test and the winding of every face.
- `mesh.dfy`: the functional mesh (the exposed faces in traversal order) and its counting lemmas.
- `builder.dfy`: the imperative mesh builder.
- `world.dfy`: the interleaved buffer, world construction and the draw step.
- `camera.dfy`: the camera update.

Two behaviours of the program are modelled as the code has them:

- The program uses a height of 16, and generation assumes at least 8 layers. For every (x, z) column it writes dirt on layers 0 to 6 and grass on layer 7, without looking at the grid's height. On a grid with at least one column and a height h of at most 7, the first write to layer h is out of range and raises. For h <= 6 that write is in the dirt loop; for h = 7 it is the grass write. The model's dimensions are parameters, so it returns a `Failure` naming layer h in exactly that case.
- Only grass and dirt have colours; the code falls back to white for a type missing from the table, and the model does the same.

## Model

| member | source | states |
|---|---|---|
| Blocks.ColorOf | BarsikVoxel.py:137 | A type in the colour table gets its table colour; any other type, i.e. anything but grass and dirt, gets white (1, 1, 1). |
| Grid.Grid.Get | BarsikVoxel.py:106-109 | Total: the stored block for an in-range coordinate, AIR whenever any coordinate is negative or not below its dimension. |
| Grid.Grid.Set | BarsikVoxel.py:102 | Writing one in-range cell keeps the dimensions, stores the value there and leaves every other cell as it was. |
| Grid.Zeros | BarsikVoxel.py:90 | The freshly allocated grid has the requested dimensions and reads AIR everywhere. |
| Terrain.Generate | BarsikVoxel.py:96-104 | Fails exactly when the grid has a column and at most 7 layers, naming the missing layer. Otherwise every cell below layer 7 becomes DIRT, layer 7 becomes GRASS, cells above keep their value, and the dimensions are kept. |
| Terrain.GenerateWorld | BarsikVoxel.py:89-91 | From the all-AIR grid: fails iff there is a column and H < 8; otherwise y < 7 is DIRT, y = 7 is GRASS and y >= 8 is AIR in every column. |
| Faces.Opposite | BarsikVoxel.py:114-121 | The neighbour offsets come in opposite pairs: front/back, top/bottom, left/right. |
| Faces.IsFaceVisible | BarsikVoxel.py:111-123 | Face f is visible iff the cell one offset of f away, read through the bounds-safe accessor, is AIR. |
| Faces.BoundaryFaceVisible | BarsikVoxel.py:106-123 | A face whose neighbour lies outside the grid is always visible. |
| Faces.SharedFaceHidden | BarsikVoxel.py:114-123 | A face shared by two solid voxels is invisible from both sides. |
| Faces.OffsetsDistinct | BarsikVoxel.py:114-121 | The six neighbour offsets are non-zero and pairwise different. |
| Faces.FaceWinding | BarsikVoxel.py:26-39 | Every corner quad lies in its face's unit-cube plane, its edges have unit length, and each turn between consecutive edges has the outward neighbour offset as its cross product, so the quads wind counter-clockwise seen from outside. |
| Mesh.ExposedFaces | BarsikVoxel.py:130-141 | The x, y, z, face traversal lists a (voxel, face) pair iff the voxel is in the grid, is not AIR and the face is visible, and it lists no pair twice. |
| Mesh.MeshIsExposedFaces | BarsikVoxel.py:130-141 | The traversal's elements are exactly the set of exposed faces, which is defined independently as a set comprehension over the grid. Its length is that set's size. |
| Mesh.SolidVoxelShowsAFace | BarsikVoxel.py:111-123 | From any solid voxel, some voxel further along +x in the same row exposes its right face. |
| Mesh.MeshEmptyIffAllAir | BarsikVoxel.py:130-153 | The mesh is empty iff every cell of the grid is AIR. |
| Mesh.LoneVoxel | BarsikVoxel.py:133-150 | A single solid voxel surrounded by AIR yields its six faces, hence 24 vertices, all in that voxel's colour. |
| Mesh.AdjacentPair | BarsikVoxel.py:133-150 | Two solid voxels that touch across a face yield all faces except the two touching ones: 10 faces, hence 40 vertices. |
| MeshBuilder.BuildMesh | BarsikVoxel.py:125-150 | Emits 4 vertices and 4 colours per exposed face in traversal order. Vertex k is corner k mod 4 of its face's cube quad shifted by the voxel position, and its colour is the block's colour. |
| World.Interleave | BarsikVoxel.py:159-163 | The buffer holds 6 entries per vertex; entry i is field i mod 6 of vertex i / 6: x, y, z first, then r, g, b. |
| World.InterleaveRoundTrip | BarsikVoxel.py:159-163 | Reading the buffer back as positions and colours returns exactly the two lists it was built from. |
| World.UploadMesh | BarsikVoxel.py:152-167 | An empty mesh leaves no buffer and a vertex count of 0. Otherwise the buffer holds the interleaved corners and colours of every exposed face, and the vertex count is 4 per face. |
| World.NewWorld | BarsikVoxel.py:89-94 | Construction fails iff the world has a column and at most 7 layers, naming the missing layer. On success the world has the configured size; its grid is DIRT below layer 7, GRASS on layer 7 and AIR above. It carries the complete mesh of that grid and is drawn whenever it has a column. |
| World.DefaultWorld | BarsikVoxel.py:89-94 | Construction with the program's own dimensions, 64 x 16 x 64 (BarsikVoxel.py:10-12), does not fail. The world's grid is the reference terrain: DIRT below layer 7, GRASS on layer 7, AIR above. It carries the complete mesh of that grid and is drawn with one quads call. |
| World.Draw | BarsikVoxel.py:169-186 | Nothing is drawn iff there is no buffer or no vertex. Otherwise one quads call covers all vertices from 0, with a 24-byte stride and the colour at byte 12. |
| World.DrawIffSolid | BarsikVoxel.py:169-172 | For a built world, drawing is skipped iff the grid is all AIR, and a draw always covers whole quads. |
| Camera.Initial | BarsikVoxel.py:43-47 | The start camera has pitch and yaw 0 and sits 5 above the top of the world. Horizontally it is at the whole numbers floor(width / 2) and floor(depth / 2) of the world's configuration. Its speed is 0.1 and its sensitivity 0.2. |
| Camera.ClampPitch | BarsikVoxel.py:55 | The result lies in [-89, 89]; it is the input inside that range, 89 above it and -89 below it. |
| Camera.Walk | BarsikVoxel.py:60-74 | The key-by-key step equals the closed form: W/S move along (-sin, -cos) and D/A along (cos, -sin), each scaled by the speed and by +1, -1 or 0 for the key pair. |
| Camera.Update | BarsikVoxel.py:49-81 | After a frame the pitch is the clamped value of pitch minus mouse-y times sensitivity, so it lies in [-89, 89]. The yaw has moved by exactly minus mouse-x times sensitivity, without clamping. The horizontal position has moved by the walking step, and the height by speed for Space minus speed for Shift. Speed and sensitivity are unchanged. |
| Camera.RunOrientation | BarsikVoxel.py:51-55 | Over any run of frames, the yaw is the unclamped running total of minus mouse-x times sensitivity, and after at least one frame the pitch is in range. |
| Camera.IdleRunIsStill | BarsikVoxel.py:49-81 | Frames with no keys and no mouse motion leave a camera with a legal pitch unchanged. |
| Camera.ForwardAtZeroYaw | BarsikVoxel.py:63-65 | With the heading of yaw 0 (sin 0, cos 1), holding W alone moves the camera one step towards -z and nowhere else, whatever the mouse does. |
| Camera.WalkStepLength | BarsikVoxel.py:60-74 | Holding W alone moves the camera exactly one speed-length step in the horizontal plane, whatever the heading. |
| Camera.OppositeKeysCancel | BarsikVoxel.py:60-74 | Holding W with S moves the camera as if neither were held, whatever else is held, and the same goes for A with D. With all four held there is no horizontal movement. |

## Left out

- The pygame window, the event and input handling and the main loop, including the FPS caption (BarsikVoxel.py:193-267): these are I/O and UI glue. Keys and mouse motion enter `Camera.Update` as an `Input` value.
- The OpenGL and VBO calls: creating the buffer object, the client-state and pointer setup in `draw`, `gluPerspective`, and `Camera.apply` with its `glRotatef`/`glTranslatef`. These are foreign graphics-library calls. `Draw` returns a description of the one draw call instead.
- Floating point: block colours are opaque triples of reals that are carried through and never computed with. Vertex positions are integers. float32 represents them exactly only while every coordinate plus 1 is at most 2^24 (16,777,216). That holds for the program's 64 x 16 x 64 world; the model's dimensions are unbounded, and beyond that bound the model does not round as the program would. Camera arithmetic is over exact reals, without float rounding.
- Camera.Update: `math.radians`, `math.sin` and `math.cos` are foreign calls. The sine and cosine of the updated yaw are taken as a `Heading` inside the input, so the horizontal step is modelled only relative to those values.
- Terrain.Generate: when layer h is missing, the program has already written layers 0 to h - 1 of the first column before it raises. The model fails before writing anything, because the partially written grid is discarded either way.
- World.Interleave: the model requires the position and colour lists to have the same length. The builder always produces such lists, so nothing the program does is excluded.
- The numpy array shapes and the float32 element type of the buffer: the buffer is a flat sequence of reals.
