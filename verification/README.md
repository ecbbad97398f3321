# Wumpus world data model

A Dafny model of the world data structure of `wumpus-rs`, a Wumpus World
game in Rust. The modelled part holds the following:

- `Object`: the closed enum of the seven things a tile can contain: `Hero`,
  `Wumpus`, `Stench`, `Pit`, `Breeze`, `Gold` and `Glimmer`.
- `Tile`: the ordered list (`Vec<Object>`) of the things inside one tile.
- `WumpusWorld`: the width, the height and a row-major grid `grid[y][x]`.
- `WumpusWorld::new(width, height)`: builds a grid of `height` rows of
  `width` tiles. Every tile is a clone of one empty prototype.

Files:

- `objects.dfy` (module `Objects`): the enum, and its implicit Rust
  discriminants (`o as usize`, 0 to 6 in declaration order). The program
  never converts an `Object` to or from a number: `Discriminant`,
  `FromDiscriminant` and `Option` are specification devices used to state
  that the enum is closed with seven distinct variants.
- `world.dfy` (module `World`): `usize` as a 64-bit newtype, `Tile`,
  `WumpusWorld`, `vec![elem; n]` as `FromElem`, and `New` with its
  properties.

The model is pure: `new` is a single struct-literal expression, and no
method in the source mutates a world, so every entity is a `datatype` and
`new` is a function.

`src/main.rs` defines only `Object`, `Tile`, `WumpusWorld` and `new`. No
game logic is modelled.

## Model

| member | source | states |
|---|---|---|
| `World.FromElem` | src/main.rs:67 | `vec![elem; n]` has length `n` and every element equals `elem` |
| `World.New` | src/main.rs:63-69 | `new` keeps `width` and `height` unchanged, has no precondition, has exactly `height` rows of `width` tiles, and every tile is empty; in the model, a zero height gives the empty grid and a zero width gives `height` empty rows (see `World.New` under Left out for sizes Rust cannot allocate) |
| `World.IndexingOrientation` | src/main.rs:56-60 | in a well-formed world, `grid[y][x]` is a valid index exactly when `0 <= x < width` and `0 <= y < height` |
| `World.TileCountOfRows` | src/main.rs:59 | a grid whose rows all have `n` tiles holds `rows * n` tiles |
| `World.TileCountOfWellFormed` | src/main.rs:56-60 | a well-formed world holds `width * height` tiles |
| `World.NewTileCount` | src/main.rs:63-69 | a new world holds exactly `width * height` tiles |
| `World.NewCharacterised` | src/main.rs:63-69 | every well-formed world whose tiles are all empty equals `new(width, height)` for its own dimensions, so `new` is determined by its shape and emptiness |
| `World.WithTile` | src/main.rs:59 | what an assignment `grid[y][x] = t` through the declared field type means (the program itself never writes a tile; this is used only to state `TilesIndependent`): it keeps the dimensions, puts `t` at `(x, y)` and changes no other tile |
| `World.TilesIndependent` | src/main.rs:51-54 | records the one-clone-per-tile construction: after any one tile of a new world is replaced by any tile (including the tile with an object pushed onto it), every other tile is still empty; in the model this holds by value semantics |
| `Objects.Discriminant` | src/main.rs:40-49 | a specification device (the program never converts an `Object` to a number): each variant's implicit discriminant is below seven and indexes that variant in declaration order |
| `Objects.FromDiscriminant` | src/main.rs:40-49 | a specification device, the inverse of `Discriminant`, used to state that the enum is closed: a number names a variant exactly when it is below seven, and then it is that variant's discriminant |
| `Objects.DiscriminantRoundTrip` | src/main.rs:40-49 | decoding a variant's discriminant gives the variant back |
| `Objects.ExactlySevenVariants` | src/main.rs:40-49 | the enum is closed with exactly seven distinct variants, and distinct variants have distinct discriminants |

## Left out

- `main` (src/main.rs:15-38): window creation, the OpenGL context, the event loop and rendering. This is I/O over foreign libraries and never touches a `WumpusWorld`.
- The crate imports (src/main.rs:1-13) are foreign libraries whose code is not part of this model.
- `World.New`: does not model allocation limits. In Rust, `vec!` panics (capacity overflow) when the byte size of the requested tiles overflows, and aborts (allocation failure) when a valid size cannot be allocated. The row of `width` tiles is built before the outer `vec![_; height]`, so this happens even when `height == 0`. The model lets every size up to `usize::MAX` succeed, so for example `New(usize::MAX, 0)` returns a world with an empty grid.
- `World.WithTile`: requires `InBounds`, where Rust's indexing panics on an index out of range.
- Copying and cloning (`#[derive(Copy, Clone)]` on `Object`, `#[derive(Clone)]` on `Tile`) are implicit, because Dafny datatypes are values. Sharing between tiles cannot happen in the model. `TilesIndependent` holds by value semantics and records that every tile is its own clone of the prototype; it is not evidence about aliasing of shared handles.
- Ownership, borrowing and memory layout of the nested `Vec`s are not modelled.
