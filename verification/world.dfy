/**
 * The world of src/main.rs: a `Tile` holds the list of objects inside it,
 * and a `WumpusWorld` holds its dimensions and a row-major grid of tiles,
 * indexed `grid[y][x]`. `WumpusWorld::new` builds a grid of `height` rows
 * of `width` empty tiles, each tile a clone of one empty prototype.
 */
module World {

  import opened Objects

  /** Rust's `usize` on a 64-bit target. */
  newtype usize = x: int | 0 <= x < 0x1_0000_0000_0000_0000

  /** A tile: its contents in order, duplicates allowed (a `Vec<Object>`). */
  datatype Tile = Tile(things: seq<Object>)

  /** The world: its dimensions and the grid, row `y` holding the tiles of that row. */
  datatype WumpusWorld = WumpusWorld(width: usize, height: usize, grid: seq<seq<Tile>>)

  /** The prototype `Tile { things: vec![] }` that fills a new grid. */
  const EmptyTile: Tile := Tile([])

  /** `vec![elem; n]`: a vector of `n` clones of `elem`. */
  function FromElem<T>(elem: T, n: nat): (r: seq<T>)
    ensures |r| == n
    ensures forall i :: 0 <= i < |r| ==> r[i] == elem
  {
    if n == 0 then [] else FromElem(elem, n - 1) + [elem]
  }

  /** The grid has `height` rows and every row has `width` tiles. */
  predicate WellFormed(w: WumpusWorld) {
    && |w.grid| == w.height as int
    && forall y :: 0 <= y < |w.grid| ==> |w.grid[y]| == w.width as int
  }

  /** Every tile of the grid holds nothing. */
  predicate IsEmpty(w: WumpusWorld) {
    forall y, x :: 0 <= y < |w.grid| && 0 <= x < |w.grid[y]| ==> w.grid[y][x].things == []
  }

  /** `(x, y)` names a tile of a world of these dimensions. */
  predicate InBounds(w: WumpusWorld, x: int, y: int) {
    0 <= x < w.width as int && 0 <= y < w.height as int
  }

  /** `WumpusWorld::new(width, height)`; it has no precondition. */
  function New(width: usize, height: usize): (w: WumpusWorld)
    ensures w.width == width && w.height == height
    ensures WellFormed(w)
    ensures IsEmpty(w)
    ensures height == 0 <==> w.grid == []
    ensures width == 0 ==> forall y :: 0 <= y < |w.grid| ==> w.grid[y] == []
  {
    WumpusWorld(width, height, FromElem(FromElem(EmptyTile, width as int), height as int))
  }

  /**
   * In a well-formed world the grid is indexed `grid[y][x]`: a position is
   * a valid pair of indices exactly when `x` is below the width and `y`
   * below the height.
   */
  lemma IndexingOrientation(w: WumpusWorld, x: int, y: int)
    requires WellFormed(w)
    ensures InBounds(w, x, y) <==> (0 <= y < |w.grid| && 0 <= x < |w.grid[y]|)
  {
  }

  /** The number of tiles in a grid, row by row. */
  function TileCount(grid: seq<seq<Tile>>): nat {
    if grid == [] then 0 else |grid[0]| + TileCount(grid[1..])
  }

  /** A grid of rows that all have `n` tiles holds `|grid| * n` tiles. */
  lemma {:induction false} TileCountOfRows(grid: seq<seq<Tile>>, n: nat)
    requires forall y :: 0 <= y < |grid| ==> |grid[y]| == n
    ensures TileCount(grid) == |grid| * n
  {
    if grid != [] {
      TileCountOfRows(grid[1..], n);
    }
  }

  /** A well-formed world holds `width * height` tiles. */
  lemma TileCountOfWellFormed(w: WumpusWorld)
    requires WellFormed(w)
    ensures TileCount(w.grid) == w.width as int * w.height as int
  {
    TileCountOfRows(w.grid, w.width as int);
  }

  /** A new world holds `width * height` tiles. */
  lemma NewTileCount(width: usize, height: usize)
    ensures TileCount(New(width, height).grid) == width as int * height as int
  {
    TileCountOfWellFormed(New(width, height));
  }

  /**
   * `new` is the only way to be a well-formed empty world: any well-formed
   * world whose tiles are all empty equals the world `new` builds from its
   * dimensions.
   */
  lemma NewCharacterised(w: WumpusWorld)
    requires WellFormed(w) && IsEmpty(w)
    ensures w == New(w.width, w.height)
  {
    var g := New(w.width, w.height).grid;
    forall y | 0 <= y < |w.grid|
      ensures w.grid[y] == g[y]
    {
      forall x | 0 <= x < |w.grid[y]|
        ensures w.grid[y][x] == g[y][x]
      {
        assert w.grid[y][x].things == [] && g[y][x].things == [];
      }
    }
  }

  /**
   * What an assignment `grid[y][x] = t` through the grid's type means; the
   * program itself never writes a tile.
   */
  function WithTile(w: WumpusWorld, x: nat, y: nat, t: Tile): (w': WumpusWorld)
    requires WellFormed(w) && InBounds(w, x, y)
    ensures WellFormed(w') && w'.width == w.width && w'.height == w.height
    ensures w'.grid[y][x] == t
    ensures forall y', x' :: InBounds(w, x', y') && (x', y') != (x, y) ==> w'.grid[y'][x'] == w.grid[y'][x']
  {
    w.(grid := w.grid[y := w.grid[y][x := t]])
  }

  /**
   * Each tile of a new world is its own clone of the prototype: once any
   * one of them is replaced (for instance by itself with an object pushed
   * onto its list), every other tile is still empty. Here this holds by
   * value semantics.
   */
  lemma TilesIndependent(width: usize, height: usize, x: nat, y: nat, t: Tile, x': nat, y': nat)
    requires InBounds(New(width, height), x, y) && InBounds(New(width, height), x', y')
    requires (x', y') != (x, y)
    ensures WithTile(New(width, height), x, y, t).grid[y][x] == t
    ensures WithTile(New(width, height), x, y, t).grid[y'][x'].things == []
  {
  }
}
