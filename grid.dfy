/**
 * The board of the simulator: a grid of cells, each live (true) or dead (false),
 * stored row by row. The program only ever builds Height rows of Width cells,
 * but the generation and neighbour code works on any list of rows, so the type
 * allows ragged rows and the shape is stated by predicates.
 */
module Grid {

  type Board = seq<seq<bool>>

  /** Board dimensions fixed at compile time (main.go:12-13). */
  const Width: nat := 92
  const Height: nat := 47

  /** Every row has the same length as the first one. */
  predicate Rectangular(b: Board) {
    forall i :: 0 <= i < |b| ==> |b[i]| == |b[0]|
  }

  /** The board has exactly h rows of exactly w cells. */
  predicate HasShape(b: Board, h: nat, w: nat) {
    |b| == h && forall i :: 0 <= i < |b| ==> |b[i]| == w
  }

  /** The shape every board of the running program has. */
  predicate Standard(b: Board) {
    HasShape(b, Height, Width)
  }

  /** Two boards have the same number of rows and matching row lengths. */
  predicate SameShape(a: Board, b: Board) {
    |a| == |b| && forall i :: 0 <= i < |a| ==> |a[i]| == |b[i]|
  }
}
