/** Day 13: the arcade cabinet's screen, a map from points to tile ids
    that the game overwrites one tile at a time. */
module Arcade {

  datatype Point = Point(x: int, y: int)

  const Empty := 0
  const Wall := 1
  const Block := 2
  const Paddle := 3
  const Ball := 4

  /** The points of g that show a block. */
  function Blocks(g: map<Point, int>): set<Point> {
    set p | p in g && g[p] == Block
  }

  /** Placing a tile at p removes p from the blocks, unless the new tile is
      itself a block, and leaves every other point as it was. */
  lemma EmplaceBlocks(g: map<Point, int>, p: Point, tile: int)
    ensures Blocks(g[p := tile]) == (Blocks(g) - {p}) + (if tile == Block then {p} else {})
  {
  }

  /** The block count moves by at most one per placed tile. */
  lemma EmplaceCount(g: map<Point, int>, p: Point, tile: int)
    ensures |Blocks(g[p := tile])| == |Blocks(g)| - (if p in Blocks(g) then 1 else 0) + (if tile == Block then 1 else 0)
  {
    EmplaceBlocks(g, p, tile);
    var rest := Blocks(g) - {p};
    if p in Blocks(g) {
      assert Blocks(g) == rest + {p};
    } else {
      assert Blocks(g) == rest;
    }
  }

  /** The blocks among the points of s. */
  function BlocksAmong(g: map<Point, int>, s: set<Point>): set<Point> {
    set q | q in s && q in g && g[q] == Block
  }

  /** Visiting one more point p adds one to the count exactly when p shows
      a block. */
  lemma CountOne(g: map<Point, int>, s: set<Point>, p: Point)
    requires p in g && p !in s
    ensures |BlocksAmong(g, s + {p})| == |BlocksAmong(g, s)| + (if g[p] == Block then 1 else 0)
  {
    if g[p] == Block {
      assert BlocksAmong(g, s + {p}) == BlocksAmong(g, s) + {p};
    } else {
      assert BlocksAmong(g, s + {p}) == BlocksAmong(g, s);
    }
  }

  class Board {
    var grid: map<Point, int>

    /** NewBoard: an empty screen. */
    constructor ()
      ensures grid == map[]
    {
      grid := map[];
    }

    /** Emplace: the tile at p is overwritten; every other point keeps its
        tile. */
    method Emplace(p: Point, tile: int)
      modifies this
      ensures p in grid && grid[p] == tile
      ensures forall q :: q != p ==> (q in grid <==> q in old(grid)) && (q in grid ==> grid[q] == old(grid)[q])
    {
      grid := grid[p := tile];
    }

    /** BlockCount: the number of points showing a block. The points are
        visited in no particular order. */
    method BlockCount() returns (count: nat)
      ensures count == |Blocks(grid)|
    {
      count := 0;
      var rest := grid.Keys;
      ghost var done: set<Point> := {};
      while rest != {}
        invariant rest + done == grid.Keys && rest !! done
        invariant count == |BlocksAmong(grid, done)|
        decreases |rest|
      {
        var p :| p in rest;
        CountOne(grid, done, p);
        if grid[p] == Block {
          count := count + 1;
        }
        rest := rest - {p};
        done := done + {p};
      }
      assert BlocksAmong(grid, done) == Blocks(grid);
    }
  }
}
