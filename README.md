# puzzlr cube engine in Dafny

This is a model of the decision layer of the puzzlr puzzle cube. It covers
the following:

- The closed set of piece colours and the `isPieceColor` guard
  (`src/piece-types.ts`).
- The fixed 3×3 footprint of every colour. It also covers how a footprint
  becomes the unit boxes React mounts for it (`src/Piece.tsx`).
- Four parts of the `AssembledCube3D` component (`src/AssembedCube3D.tsx`):
  - the completion test on a cube colour map;
  - the pass that highlights every point of a complete cube;
  - the effect that stores the layers and the completion flag;
  - the weighted-random demo generator `generateRandomCubePieces`.

The project has four modules, one file each:

| file | module | models |
|---|---|---|
| `common.dfy` | `Common` | `Array.prototype.flat` (one level) as `Flat`, React dropping `null` children as `Somes`, and an `Option` type |
| `piece_types.dfy` | `PieceTypes` | `src/piece-types.ts` |
| `piece.dfy` | `Piece` | the shape table and the render mapping of `src/Piece.tsx` |
| `assembled_cube.dfy` | `AssembledCube` | the logic of `src/AssembedCube3D.tsx` |

Modelling choices:

- **The packer and the grid builder are parameters.** The packer
  `pieceLayout` and the grid builder `placedToCubeColorMap` live in
  `src/piece-layout.ts`, and that file is not part of this model. Every
  member that uses them takes them as parameters:
  - `layout: seq<PieceColor> -> seq<seq<P>>`, over an unspecified
    placed-piece type `P`;
  - `toMap: seq<seq<P>> -> CubeColorMap`.

  Nothing is assumed about what they compute, except in the members
  that state the premise `PlacesEveryPiece` explicitly.
- **Pieces are reduced to their colours.** The pieces the component reads
  are modelled as the sequence of their colours. The component uses
  nothing else from them.
- **A placed piece is not an array.** `laidOutPieces.flat(2)` on a list of
  layers of placed pieces is taken to be the one-level `Flat` of the
  layers. Placed pieces are treated as non-array values, so the second
  level of `flat` leaves them alone.
- **`Math.random` becomes a finite sequence of draws.** Every test of an
  entry inside `colorWeights.find` consumes the next draw.
  - The generator runs until the cube is complete or the draws run out.
    Running out is reported as `Exhausted`.
  - Draws are reals. Every bound in `colorWeights` is either exact in
    binary or has its nearest double just below the decimal. For any
    double draw, the comparison `draw <= bound` therefore gives the same
    answer with the real bound as with the double bound.
- **A `LayerPoint` is a class.** Only its `color` and `highlight` fields
  are modelled, because the highlight pass updates the points of the map
  in place. A cube colour map is a `seq` of layers of rows of
  `LayerPoint?`, where `null` stands for an undefined cell.

Two behaviours of the code are worth knowing. In both cases the model
follows the code:

- **The completion test does not count cells.** The test checks for four
  layers with no undefined cell. It never checks that there are 36 cells.
  - `AssembledCube.EmptyLayersPass`: four empty layers pass.
  - `AssembledCube.CompleteSquareLayers`: when every layer is 3×3, the
    test means exactly "36 cells, all defined".
- **The weighted draw takes a fresh random number for every entry it
  tests.** It does not reuse one draw against the cumulative bounds.
  - With uniform draws, the colours therefore come out with these
    probabilities: pink 0.15, orange 0.255, green 0.2975, blue 0.223125,
    purple 0.074375.
  - The cumulative table reads as pink 0.15, orange 0.15, green 0.2,
    blue 0.25, purple 0.25.
  - `AssembledCube.FindWeighted` states which draws pick which entry.
    Probabilities themselves are not modelled.
  - `AssembledCube.CumulativeIndex` is the single-draw reading of the
    table, kept as a reference. `AssembledCube.RepeatedDrawAgrees` shows
    that the two readings agree when every draw is the same number.
    `AssembledCube.FreshDrawsDiffer` shows that they disagree on the draws
    0.5 then 0.1.
  - The cumulative bounds suggest this single-draw reading. The generator
    follows the code.

## Model

| member | source | states |
|---|---|---|
| Common.FlatMember | src/AssembedCube3D.tsx:125 | a value occurs in the one-level `flat()` of a list exactly when it occurs in one of its inner lists |
| Common.SomesMember | src/Piece.tsx:95-99 | a mesh is mounted from a child list exactly when the list holds it (the `null` children contribute nothing) |
| PieceTypes.AllPieceColors | src/piece-types.ts:5-11 | five pairwise distinct labels, each the label of a colour, and every colour's label among them |
| PieceTypes.LabelInjective | src/piece-types.ts:5-13 | `Label`: distinct colours have distinct string labels, so the literal union `PieceColor` has exactly five members |
| PieceTypes.FindStrictEqual | src/piece-types.ts:17 | `find` with `===` returns the argument itself when it is one of the listed strings, and `undefined` otherwise (never `null`) |
| PieceTypes.IsPieceColor | src/piece-types.ts:16-18 | the guard as written holds for every value whatsoever |
| PieceTypes.IsPieceColorIntended | src/piece-types.ts:16-18 | the guard with the miss compared against `undefined` holds exactly for the labels of the five colours |
| PieceTypes.IsPieceColorAcceptsNonColors | src/piece-types.ts:17 | `null`, `undefined` and `"red"` pass the written guard and fail the intended one |
| PieceTypes.ListedColorsPass | src/piece-types.ts:16-18 | every listed label passes both the written and the intended guard |
| Piece.ShapeFileColors | src/Piece.tsx:9 | the colour list the shape file declares again is the same list as the shared one |
| Piece.Pieces | src/Piece.tsx:46-62 | the `pieces` record has exactly the five colours as keys |
| Piece.PiecesTotal | src/Piece.tsx:46-62 | the record is total over the colours and each entry renders in its own colour |
| Piece.PiecesDistinct | src/Piece.tsx:13-41 | no two colours share a footprint |
| Piece.FilledCounts | src/Piece.tsx:13-41 | the constants `PurplePieceMap` … `BluePieceMap`: the footprints fill 1 (purple), 3 (green), 5 (pink), 5 (orange) and 2 (blue) cells |
| Piece.PurpleSingleCell | src/Piece.tsx:13-17 | purple fills exactly row 2, column 0 |
| Piece.BottomLeftFilled | src/Piece.tsx:13-41 | every footprint fills row 2, column 0 |
| Piece.CellKeyInjective | src/Piece.tsx:104 | the key `cube-r-c` determines its row and column |
| Piece.MeshesAt | src/Piece.tsx:95-107 | the flattened nested `map` holds, cell by cell in row-major order, a box for each filled cell and `null` for each empty one |
| Piece.RenderedCount | src/Piece.tsx:95-100 | the number of boxes mounted equals the number of filled cells |
| Piece.RenderedCells | src/Piece.tsx:95-107 | `Rendered` (the nested `map` as `PieceMeshes`/`RowMeshes`, each box a `CellMesh` keyed by `CellKey`): a box is mounted exactly for each filled cell (r, c), at position (c, 3 - r, 0) with key `cube-r-c` |
| Piece.RenderedBounds | src/Piece.tsx:107 | every box lies at x in 0..2, y in 1..3, z = 0, and is the box of the cell at row 3 - y, column x |
| Piece.RenderedRowMajor | src/Piece.tsx:95-107 | boxes come in row-major order of their cells, so their positions and their keys are pairwise distinct |
| AssembledCube.ColorWeights | src/AssembedCube3D.tsx:17-23 | five entries with distinct colours and strictly increasing positive bounds, the last being purple with bound 1 |
| AssembledCube.EveryColorWeighted | src/AssembedCube3D.tsx:17-23 | every colour has an entry in the weight table |
| AssembledCube.FindWeighted | src/AssembedCube3D.tsx:40-42 | the draw picks the first entry whose own draw is at most its bound (all earlier draws above theirs), runs past the table only when every draw is above its bound, and runs out only when the supply is shorter than the table |
| AssembledCube.CumulativeIndex | src/AssembedCube3D.tsx:17-23 | reference reading of the table with one draw: the first entry whose bound is at least the draw, every earlier bound lying below it |
| AssembledCube.RepeatedDrawAgrees | src/AssembedCube3D.tsx:40-42 | when every draw is the same number, the code's fresh-draw search picks the entry of the single-draw reading, after as many draws as that entry's position |
| AssembledCube.FreshDrawsDiffer | src/AssembedCube3D.tsx:40-42 | on the draws 0.5 then 0.1 the code picks orange, where one draw of 0.5 against the cumulative bounds picks green |
| AssembledCube.FallbackUnreachable | src/AssembedCube3D.tsx:40-45 | with draws in [0, 1) `find` never runs past the table, so the `?? 'purple'` fallback is never taken, and five draws always suffice |
| AssembledCube.CompleteIffAllCellsDefined | src/AssembedCube3D.tsx:28-37 | `IsComplete` (the generator's `isComplete`, repeated at lines 122-125): a map passes the completion test exactly when it has four layers and no undefined cell in its `flat(2)` |
| AssembledCube.CompleteSquareLayers | src/AssembedCube3D.tsx:122-125 | `IsComplete`: for 3×3 layers the completion test means exactly four layers, 36 cells, none undefined |
| AssembledCube.EmptyLayersPass | src/AssembedCube3D.tsx:123-125 | four empty layers pass the completion test |
| AssembledCube.HighlightAll | src/AssembedCube3D.tsx:128-132 | every point of the map ends up highlighted, and no colour changes |
| AssembledCube.ShownColors | src/AssembedCube3D.tsx:110-119 | nothing while the stored pieces load, the stored pieces outside demo mode; in demo mode exactly the pieces of the generator run from no pieces and `[[]]` when that run completes and nothing when it runs out of draws, and pieces that lay out to a complete cube whenever the packer places every piece it is given |
| AssembledCube.CubeView.constructor | src/AssembedCube3D.tsx:82-86 | the layers start as `[[]]` and the completion flag as false |
| AssembledCube.CubeView.Refresh | src/AssembedCube3D.tsx:110-135 | nothing changes while loading, nor in demo mode when the draws run out (where the source keeps drawing); otherwise the layers become the colour map of the laid-out pieces and the flag its completion test, every old point is highlighted if the map is complete and left as it was otherwise, no colour changes, and in demo mode the flag is set whenever the packer places every piece, unless the generator returned no pieces because `[[]]` already counted as complete |
| AssembledCube.NextTrial | src/AssembedCube3D.tsx:39-58 | a try draws the colour the weighted draw names (purple when `find` runs past the table), uses exactly that draw's count of numbers, returns the layout of the accepted pieces plus that colour, and appends the colour exactly when the layout holds one more placed piece; it fails exactly when the draws run out |
| AssembledCube.PieceGenerator.TryPiece | src/AssembedCube3D.tsx:39-58 | `tryPiece` pushes the drawn colour onto the generator's `pieces` exactly when the trial layout holds one more placed piece and leaves them as they were otherwise, advances the draw position by the draws `find` used, and leaves the state `NextTrial` describes |
| AssembledCube.Generate | src/AssembedCube3D.tsx:60-66 | the accepted pieces only grow by appending, by at most one per draw used; a run ends complete exactly when its last layout passes the completion test, and ends exhausted only where the weighted draw really runs out of draws |
| AssembledCube.GenerateRandomCubePieces | src/AssembedCube3D.tsx:25-67 | the loop returns the pieces of the generator run from no pieces and the layout `[[]]`, and reports whether that run completed |
| AssembledCube.GenerateConsumesDraws | src/AssembedCube3D.tsx:39-66 | when the packer places every piece, a run stops exactly at the draw position reached by one finished weighted draw per piece it added (`ChainEnd`), so no draws are skipped and none are consumed without a try |
| AssembledCube.GenerateKeepsLayout | src/AssembedCube3D.tsx:48-55 | when the packer places every piece it is given, the last trial layout is the layout of the accepted pieces |
| AssembledCube.GeneratedPiecesComplete | src/AssembedCube3D.tsx:60-66 | when the packer places every piece, a completed run returns pieces whose own layout is complete (or no pieces, when `[[]]` already counts as complete) |

## Left out

- Rendering is not modelled: React, Three.js, the spring animations, the
  per-frame rotation, the bounding-box centring and the camera framing of
  `src/AssembedCube3D.tsx` and `src/Piece.tsx`. They compute no puzzle
  state.
- Persistence and the rest of the app are not modelled: the Dexie query
  behind `placedPieces`, `App.tsx`, `WinBanner`, `FixedPiece3D`,
  `MissingPiece` and `CubeLayer3D`. The stored pieces enter `Refresh` as a
  parameter, `None` while loading.
- `src/piece-layout.ts` (`pieceLayout`, `placedToCubeColorMap`) is not
  part of this model. Both functions are parameters, and no property of
  the packer or of the grid is proved.
- AssembledCube.GenerateRandomCubePieces: the source loops until the cube
  is complete; the model stops when its finite supply of draws runs out
  and reports `complete == false`. Termination of the source's loop
  depends on the packer, which is not part of this model.
- AssembledCube.CubeView.Refresh: in demo mode, when the finite supply of
  draws runs out before the cube is complete, nothing changes. The source
  would still be drawing at that point (src/AssembedCube3D.tsx:61).
  The highlight and colour guarantees carry an `old(allocated(p))` guard, which Dafny needs before it can
  speak of a point's earlier fields. `Refresh` allocates no
  `LayerPoint`, so the guard excludes no point of the map.
- Math.random is not modelled as a distribution. Draws are an explicit
  sequence, and the probabilities quoted above are computed by hand, not
  proved.
- The `?? []` after the `map` over the chosen pieces cannot be reached in
  the model. The chosen pieces there are never `undefined`.

## Findings

| source | as written | input that shows it | evidently intended | confidence | as-written member | corrected member |
|---|---|---|---|---|---|---|
| src/piece-types.ts:17 | `find(...) !== null`, but `find` returns `undefined` on a miss, so the guard is always true | `null`, `undefined` or `"red"` | `find(...) !== undefined`, true exactly for the five colour labels | high (not executed) | PieceTypes.IsPieceColor, PieceTypes.IsPieceColorAcceptsNonColors | PieceTypes.IsPieceColorIntended |
