/** The dense voxel grid and its bounds-safe accessor. */
module Grid {
  import opened Blocks

  /** A W x H x D array of block types, indexed [x][y][z]. */
  datatype Grid = Grid(w: nat, h: nat, d: nat, cells: seq<seq<seq<Block>>>) {

    /** The nested sequences have exactly the declared dimensions. */
    predicate Valid() {
      && |cells| == w
      && (forall x :: 0 <= x < w ==> |cells[x]| == h)
      && (forall x, y :: 0 <= x < w && 0 <= y < h ==> |cells[x][y]| == d)
    }

    predicate InBounds(x: int, y: int, z: int) {
      0 <= x < w && 0 <= y < h && 0 <= z < d
    }

    /** Total accessor: the stored block inside the grid, AIR everywhere else. */
    function Get(x: int, y: int, z: int): (b: Block)
      requires Valid()
      ensures InBounds(x, y, z) ==> b == cells[x][y][z]
      ensures !InBounds(x, y, z) ==> b == AIR
    {
      if InBounds(x, y, z) then cells[x][y][z] else AIR
    }

    predicate Solid(x: int, y: int, z: int)
      requires Valid()
    {
      Get(x, y, z) != AIR
    }

    /** Item assignment blocks[x][y][z] = b on an in-range index. */
    function Set(x: int, y: int, z: int, b: Block): (r: Grid)
      requires Valid() && InBounds(x, y, z)
      ensures r.Valid() && r.w == w && r.h == h && r.d == d
      ensures r.Get(x, y, z) == b
      ensures forall i, j, k :: (i, j, k) != (x, y, z) ==> r.Get(i, j, k) == Get(i, j, k)
    {
      var column := cells[x][y][z := b];
      var slice := cells[x][y := column];
      Grid(w, h, d, cells[x := slice])
    }
  }

  /** The all-zero (all-AIR) grid the world starts from. */
  function Zeros(w: nat, h: nat, d: nat): (g: Grid)
    ensures g.Valid() && g.w == w && g.h == h && g.d == d
    ensures forall x, y, z :: g.Get(x, y, z) == AIR
  {
    Grid(w, h, d, seq(w, _ => seq(h, _ => seq(d, _ => AIR))))
  }
}
