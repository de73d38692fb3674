/** The terrain generator: dirt below layer 7, grass on layer 7, nothing above. */
module Terrain {
  import opened Wrappers
  import opened Blocks
  import opened Grid

  /** Number of dirt layers (y = 0 .. 6); the grass layer sits right above them. */
  const DIRT_LAYERS: nat := 7
  const GRASS_LAYER: nat := 7

  /** Why generation can fail: a write to a layer the grid does not have. */
  datatype GenError = LayerOutOfRange(y: nat)

  /** What generation leaves in a cell of layer y that held `before`. */
  function Layer(y: int, before: Block): Block {
    if y < DIRT_LAYERS then DIRT else if y == GRASS_LAYER then GRASS else before
  }

  /** Fills every (x, z) column, x outermost, z next, then y upwards. A grid
      that has at least one column but fewer than 8 layers makes the first
      write above its top fail, which aborts generation. */
  method Generate(g: Grid) returns (r: Result<Grid, GenError>)
    requires g.Valid()
    ensures r.Failure? <==> g.w > 0 && g.d > 0 && g.h <= GRASS_LAYER
    ensures r.Failure? ==> r.error == LayerOutOfRange(g.h)
    ensures r.Success? ==> r.value.Valid() && r.value.w == g.w && r.value.h == g.h && r.value.d == g.d
    ensures r.Success? ==> forall x, y, z :: g.InBounds(x, y, z) ==>
              r.value.Get(x, y, z) == Layer(y, g.Get(x, y, z))
  {
    if g.w > 0 && g.d > 0 && g.h <= GRASS_LAYER {
      return Failure(LayerOutOfRange(g.h));
    }
    var cur := g;
    for x := 0 to g.w
      invariant cur.Valid() && cur.w == g.w && cur.h == g.h && cur.d == g.d
      invariant forall i, j, k :: g.InBounds(i, j, k) ==>
                  cur.Get(i, j, k) == if i < x then Layer(j, g.Get(i, j, k)) else g.Get(i, j, k)
    {
      for z := 0 to g.d
        invariant cur.Valid() && cur.w == g.w && cur.h == g.h && cur.d == g.d
        invariant forall i, j, k :: g.InBounds(i, j, k) ==>
                    cur.Get(i, j, k) == if i < x || (i == x && k < z) then Layer(j, g.Get(i, j, k)) else g.Get(i, j, k)
      {
        for y := 0 to DIRT_LAYERS
          invariant cur.Valid() && cur.w == g.w && cur.h == g.h && cur.d == g.d
          invariant forall i, j, k :: g.InBounds(i, j, k) ==>
                      cur.Get(i, j, k) ==
                        if i < x || (i == x && k < z) || (i == x && k == z && j < y) then Layer(j, g.Get(i, j, k))
                        else g.Get(i, j, k)
        {
          cur := cur.Set(x, y, z, DIRT);
        }
        cur := cur.Set(x, GRASS_LAYER, z, GRASS);
      }
    }
    return Success(cur);
  }

  /** The reference terrain: in every column, dirt on y = 0..6, grass on
      y = 7 and AIR from y = 8 upwards. */
  predicate IsTerrain(g: Grid)
    requires g.Valid()
  {
    forall x, y, z :: 0 <= x < g.w && 0 <= y < g.h && 0 <= z < g.d ==>
      && (y < DIRT_LAYERS ==> g.Get(x, y, z) == DIRT)
      && (y == GRASS_LAYER ==> g.Get(x, y, z) == GRASS)
      && (y > GRASS_LAYER ==> g.Get(x, y, z) == AIR)
  }

  /** The generated world: from the all-AIR grid, every column is dirt on
      y = 0..6, grass on y = 7 and AIR from y = 8 upwards. */
  method GenerateWorld(w: nat, h: nat, d: nat) returns (r: Result<Grid, GenError>)
    ensures r.Failure? <==> w > 0 && d > 0 && h <= GRASS_LAYER
    ensures r.Failure? ==> r.error == LayerOutOfRange(h)
    ensures r.Success? ==> r.value.Valid() && r.value.w == w && r.value.h == h && r.value.d == d
    ensures r.Success? ==> IsTerrain(r.value)
  {
    r := Generate(Zeros(w, h, d));
  }
}
