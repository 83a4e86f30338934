/**
 * Small boards on which the rule and the cycle detection are worked through:
 * a lonely cell, the still "block", the period-2 "blinker", and a reset caused
 * by three different repeated boards. Each pattern is a predicate on the cells,
 * proved to hold of a concrete board.
 */
module Scenarios {
  import opened Grid
  import opened Generation
  import opened Driver

  /** A 3x3 board whose only live cell is the top-left corner. */
  predicate IsLonelyCorner(b: Board) {
    HasShape(b, 3, 3) && forall i, j :: 0 <= i < 3 && 0 <= j < 3 ==> b[i][j] == (i == 0 && j == 0)
  }

  /** A 2x2 block in the middle of a 4x4 board. */
  predicate IsBlock(b: Board) {
    HasShape(b, 4, 4) && forall i, j :: 0 <= i < 4 && 0 <= j < 4 ==> b[i][j] == (1 <= i <= 2 && 1 <= j <= 2)
  }

  /** The blinker on a 3x3 board, upright (middle column) and lying down (middle row). */
  predicate IsUpright(b: Board) {
    HasShape(b, 3, 3) && forall i, j :: 0 <= i < 3 && 0 <= j < 3 ==> b[i][j] == (j == 1)
  }

  predicate IsLying(b: Board) {
    HasShape(b, 3, 3) && forall i, j :: 0 <= i < 3 && 0 <= j < 3 ==> b[i][j] == (i == 1)
  }

  const LonelyCorner: Board := [[true, false, false], [false, false, false], [false, false, false]]

  const Block: Board :=
    [[false, false, false, false],
     [false, true,  true,  false],
     [false, true,  true,  false],
     [false, false, false, false]]

  const Upright: Board := [[false, true, false], [false, true, false], [false, true, false]]
  const Lying: Board := [[false, false, false], [true, true, true], [false, false, false]]

  /** Two h x w boards with the same cells are the same board. */
  lemma SameCells(a: Board, b: Board, h: nat, w: nat)
    requires HasShape(a, h, w) && HasShape(b, h, w)
    requires forall i, j :: 0 <= i < h && 0 <= j < w ==> a[i][j] == b[i][j]
    ensures a == b
  {
    forall i | 0 <= i < h
      ensures a[i] == b[i]
    {
    }
  }

  /** A lonely cell dies of isolation, and no cell is born. */
  lemma LonelyCornerStep(b: Board)
    requires IsLonelyCorner(b)
    ensures AllDead(Successor(b))
  {
    assert |b[0]| == 3 && |b[1]| == 3 && |b[2]| == 3;
    assert b[0][0] && !b[0][1] && !b[0][2] && !b[1][0] && !b[1][1] && !b[1][2] && !b[2][0] &&
      !b[2][1] && !b[2][2];
    assert NeighbourCount(b, 0, 0) == 0 && NeighbourCount(b, 0, 1) == 1 &&
      NeighbourCount(b, 0, 2) == 0 && NeighbourCount(b, 1, 0) == 1 &&
      NeighbourCount(b, 1, 1) == 1 && NeighbourCount(b, 1, 2) == 0 &&
      NeighbourCount(b, 2, 0) == 0 && NeighbourCount(b, 2, 1) == 0 &&
      NeighbourCount(b, 2, 2) == 0;
  }

  /** The block is unchanged by one generation. */
  lemma BlockStep(b: Board)
    requires IsBlock(b)
    ensures Successor(b) == b
  {
    assert |b[0]| == 4 && |b[1]| == 4 && |b[2]| == 4 && |b[3]| == 4;
    assert !b[0][0] && !b[0][1] && !b[0][2] && !b[0][3] && !b[1][0] && b[1][1] && b[1][2] && !b[1][3] &&
      !b[2][0] && b[2][1] && b[2][2] && !b[2][3] && !b[3][0] && !b[3][1] && !b[3][2] && !b[3][3];
    assert NeighbourCount(b, 0, 0) == 1 && NeighbourCount(b, 0, 1) == 2 &&
      NeighbourCount(b, 0, 2) == 2 && NeighbourCount(b, 0, 3) == 1 &&
      NeighbourCount(b, 1, 0) == 2 && NeighbourCount(b, 1, 1) == 3 &&
      NeighbourCount(b, 1, 2) == 3 && NeighbourCount(b, 1, 3) == 2 &&
      NeighbourCount(b, 2, 0) == 2 && NeighbourCount(b, 2, 1) == 3 &&
      NeighbourCount(b, 2, 2) == 3 && NeighbourCount(b, 2, 3) == 2 &&
      NeighbourCount(b, 3, 0) == 1 && NeighbourCount(b, 3, 1) == 2 &&
      NeighbourCount(b, 3, 2) == 2 && NeighbourCount(b, 3, 3) == 1;
    SameCells(Successor(b), b, 4, 4);
  }

  /** The upright blinker lies down. */
  lemma UprightStep(b: Board)
    requires IsUpright(b)
    ensures IsLying(Successor(b))
  {
    assert |b[0]| == 3 && |b[1]| == 3 && |b[2]| == 3;
    assert !b[0][0] && b[0][1] && !b[0][2] && !b[1][0] && b[1][1] && !b[1][2] && !b[2][0] && b[2][1] &&
      !b[2][2];
    assert NeighbourCount(b, 0, 0) == 2 && NeighbourCount(b, 0, 1) == 1 &&
      NeighbourCount(b, 0, 2) == 2 && NeighbourCount(b, 1, 0) == 3 &&
      NeighbourCount(b, 1, 1) == 2 && NeighbourCount(b, 1, 2) == 3 &&
      NeighbourCount(b, 2, 0) == 2 && NeighbourCount(b, 2, 1) == 1 &&
      NeighbourCount(b, 2, 2) == 2;
  }

  /** The lying blinker stands up again. */
  lemma LyingStep(b: Board)
    requires IsLying(b)
    ensures IsUpright(Successor(b))
  {
    assert |b[0]| == 3 && |b[1]| == 3 && |b[2]| == 3;
    assert !b[0][0] && !b[0][1] && !b[0][2] && b[1][0] && b[1][1] && b[1][2] && !b[2][0] && !b[2][1] &&
      !b[2][2];
    assert NeighbourCount(b, 0, 0) == 2 && NeighbourCount(b, 0, 1) == 3 &&
      NeighbourCount(b, 0, 2) == 2 && NeighbourCount(b, 1, 0) == 1 &&
      NeighbourCount(b, 1, 1) == 2 && NeighbourCount(b, 1, 2) == 1 &&
      NeighbourCount(b, 2, 0) == 2 && NeighbourCount(b, 2, 1) == 3 &&
      NeighbourCount(b, 2, 2) == 2;
  }

  /** The concrete lonely-corner board becomes all-dead. */
  lemma LonelyCornerDies()
    ensures IsLonelyCorner(LonelyCorner)
    ensures AllDead(Successor(LonelyCorner))
  {
    LonelyCornerStep(LonelyCorner);
  }

  /** The block is a still life: five generations later it is unchanged. */
  lemma BlockIsStill()
    ensures IsBlock(Block)
    ensures Successor(Block) == Block
    ensures Generations(Block, 5) == Block
  {
    BlockStep(Block);
    StillLife(Block, 5);
  }

  /** The blinker swaps between its two phases. */
  lemma BlinkerOscillates()
    ensures IsUpright(Upright) && IsLying(Lying)
    ensures Successor(Upright) == Lying
    ensures Successor(Lying) == Upright
  {
    UprightStep(Upright);
    SameCells(Successor(Upright), Lying, 3, 3);
    LyingStep(Lying);
    SameCells(Successor(Lying), Upright, 3, 3);
  }

  /**
   * Any two distinct boards that are each other's successor: started on the
   * first, the loop records both, counts two repeats and resets on the third,
   * five iterations in.
   */
  lemma PeriodTwoIsReset(u: Board, l: Board, r1: Board, r2: Board, r3: Board, r4: Board, r5: Board)
    requires Successor(u) == l && Successor(l) == u && u != l
    ensures Run(Start(u), [r1, r2, r3, r4, r5]) == State(r5, [r5], 0)
  {
    var s1 := State(l, [l], 0);
    var s2 := State(u, [l, u], 0);
    var s3 := State(l, [l, u], 1);
    var s4 := State(u, [l, u], 2);
    assert Iteration(Start(u), r1) == s1 by {
      assert Iteration(Start(u), r1) == Detect(State(l, [], 0), r1);
    }
    assert Iteration(s1, r2) == s2 by {
      assert Iteration(s1, r2) == Detect(State(u, [l], 0), r2);
    }
    assert Iteration(s2, r3) == s3 by {
      assert Iteration(s2, r3) == Detect(State(l, [l, u], 0), r3);
    }
    assert Iteration(s3, r4) == s4 by {
      assert Iteration(s3, r4) == Detect(State(u, [l, u], 1), r4);
    }
    assert Iteration(s4, r5) == State(r5, [r5], 0) by {
      assert Iteration(s4, r5) == Detect(State(l, [l, u], 2), r5);
    }
    RunStep(Start(u), [r1, r2, r3, r4, r5]);
    RunStep(s1, [r2, r3, r4, r5]);
    RunStep(s2, [r3, r4, r5]);
    RunStep(s3, [r4, r5]);
    RunStep(s4, [r5]);
  }

  /** Started on the upright blinker, the loop resets to the fifth replacement board. */
  lemma BlinkerIsReset(r1: Board, r2: Board, r3: Board, r4: Board, r5: Board)
    ensures Run(Start(Upright), [r1, r2, r3, r4, r5]) == State(r5, [r5], 0)
  {
    BlinkerOscillates();
    assert Upright != Lying by { assert Upright[0][1] != Lying[0][1]; }
    PeriodTwoIsReset(Upright, Lying, r1, r2, r3, r4, r5);
  }

  lemma RunStep(s: State, rs: seq<Board>)
    requires rs != []
    ensures Run(s, rs) == Run(Iteration(s, rs[0]), rs[1..])
  {
  }

  /**
   * The counter counts any repeat of any recorded board: three different
   * boards, each seen only twice, are enough for a reset.
   */
  lemma ResetWithoutThirdOccurrence(a: Board, b: Board, c: Board, r: Board)
    requires Standard(a) && Standard(b) && Standard(c)
    requires a != b && b != c && a != c
    ensures var s1 := Detect(State(a, [a, b, c], 0), r);
      var s2 := Detect(s1.(board := b), r);
      Detect(s2.(board := c), r) == State(r, [r], 0)
  {
    var s1 := Detect(State(a, [a, b, c], 0), r);
    assert s1 == State(a, [a, b, c], 1);
    var s2 := Detect(s1.(board := b), r);
    assert s2 == State(b, [a, b, c], 2);
  }
}
