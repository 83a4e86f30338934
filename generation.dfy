/**
 * One step of Conway's Game of Life on a bounded grid (no wrap-around):
 * countNeighbors and nextGeneration of main.go.
 */
module Generation {
  import opened Grid

  /** 1 when (i, j) lies on the board and is live, 0 otherwise (off-board cells are absent). */
  function Live(b: Board, i: int, j: int): nat {
    if 0 <= i < |b| && 0 <= j < |b[i]| && b[i][j] then 1 else 0
  }

  /** Reference definition: live cells among the eight Moore neighbours of (row, col). */
  function NeighbourCount(b: Board, row: int, col: int): nat {
    Live(b, row - 1, col - 1) + Live(b, row - 1, col) + Live(b, row - 1, col + 1) +
    Live(b, row, col - 1) +                              Live(b, row, col + 1) +
    Live(b, row + 1, col - 1) + Live(b, row + 1, col) + Live(b, row + 1, col + 1)
  }

  /** What the scan of the 3x3 window adds for cell (i, j): the centre is skipped. */
  function Visit(b: Board, row: int, col: int, i: int, j: int): nat {
    if i == row && j == col then 0 else Live(b, i, j)
  }

  /** The scan of window row i after its first k columns col-1 .. col-2+k. */
  function RowScan(b: Board, row: int, col: int, i: int, k: nat): nat
    requires k <= 3
  {
    if k == 0 then 0 else RowScan(b, row, col, i, k - 1) + Visit(b, row, col, i, col - 2 + k)
  }

  /** The scan of the window after its first m rows row-1 .. row-2+m. */
  function WindowScan(b: Board, row: int, col: int, m: nat): nat
    requires m <= 3
  {
    if m == 0 then 0 else WindowScan(b, row, col, m - 1) + RowScan(b, row, col, row - 2 + m, 3)
  }

  lemma WindowScanIsNeighbourCount(b: Board, row: int, col: int)
    ensures WindowScan(b, row, col, 3) == NeighbourCount(b, row, col)
  {
    forall i | i in {row - 1, row, row + 1}
      ensures RowScan(b, row, col, i, 3) == Visit(b, row, col, i, col - 1) + Visit(b, row, col, i, col) + Visit(b, row, col, i, col + 1)
    {
      assert RowScan(b, row, col, i, 1) == Visit(b, row, col, i, col - 1);
    }
    assert WindowScan(b, row, col, 1) == RowScan(b, row, col, row - 1, 3);
  }

  /** countNeighbors (main.go:145-161): the double loop over the 3x3 window. */
  method CountNeighbors(b: Board, row: int, col: int) returns (count: nat)
    ensures count == NeighbourCount(b, row, col)
    ensures count <= 8
  {
    count := 0;
    for i := row - 1 to row + 2
      invariant count == WindowScan(b, row, col, i - (row - 1))
    {
      for j := col - 1 to col + 2
        invariant count == WindowScan(b, row, col, i - (row - 1)) + RowScan(b, row, col, i, j - (col - 1))
      {
        if i < 0 || i >= |b| || j < 0 || j >= |b[i]| {
          continue;
        }
        if i == row && j == col {
          continue;
        }
        if b[i][j] {
          count := count + 1;
        }
      }
    }
    WindowScanIsNeighbourCount(b, row, col);
  }

  /** The survive/birth rule for cell (i, j): survive on 2 or 3, be born on exactly 3. */
  predicate NextCell(b: Board, i: int, j: int)
    requires 0 <= i < |b| && 0 <= j < |b[i]|
  {
    var n := NeighbourCount(b, i, j);
    if b[i][j] then n == 2 || n == 3 else n == 3
  }

  /** Reference definition of the next generation, cell by cell. */
  function Successor(b: Board): Board {
    seq(|b|, i requires 0 <= i < |b| =>
      seq(|b[i]|, j requires 0 <= j < |b[i]| => NextCell(b, i, j)))
  }

  /** nextGeneration (main.go:121-142): allocate a dead board of the same shape, then fill it. */
  method NextGeneration(b: Board) returns (next: Board)
    ensures next == Successor(b)
  {
    next := [];
    for i := 0 to |b|
      invariant |next| == i
      invariant forall r :: 0 <= r < i ==> next[r] == seq(|b[r]|, _ => false)
    {
      next := next + [seq(|b[i]|, _ => false)];
    }
    for i := 0 to |b|
      invariant SameShape(next, b)
      invariant forall r, c :: 0 <= r < i && 0 <= c < |b[r]| ==> next[r][c] == NextCell(b, r, c)
      invariant forall r, c :: i <= r < |b| && 0 <= c < |b[r]| ==> !next[r][c]
    {
      for j := 0 to |b[i]|
        invariant SameShape(next, b)
        invariant forall r, c :: 0 <= r < i && 0 <= c < |b[r]| ==> next[r][c] == NextCell(b, r, c)
        invariant forall c :: 0 <= c < j ==> next[i][c] == NextCell(b, i, c)
        invariant forall c :: j <= c < |b[i]| ==> !next[i][c]
        invariant forall r, c :: i < r < |b| && 0 <= c < |b[r]| ==> !next[r][c]
      {
        var neighbours := CountNeighbors(b, i, j);
        if b[i][j] && (neighbours == 2 || neighbours == 3) {
          next := next[i := next[i][j := true]];
        } else if !b[i][j] && neighbours == 3 {
          next := next[i := next[i][j := true]];
        }
      }
    }
    assert forall r :: 0 <= r < |b| ==> next[r] == Successor(b)[r];
  }

  /** The board after k generations. */
  function Generations(b: Board, k: nat): Board
    decreases k
  {
    if k == 0 then b else Generations(Successor(b), k - 1)
  }

  /** No cell of the board is live. */
  predicate AllDead(b: Board) {
    forall i, j :: 0 <= i < |b| && 0 <= j < |b[i]| ==> !b[i][j]
  }

  /** Neighbours are counted only on the board: a corner cell has at most three. */
  lemma CornerCount(b: Board, h: nat, w: nat, row: int, col: int)
    requires HasShape(b, h, w)
    requires row == 0 || row == h - 1
    requires col == 0 || col == w - 1
    ensures NeighbourCount(b, row, col) <= 3
  {
  }

  /** An edge cell has at most five neighbours. */
  lemma EdgeCount(b: Board, h: nat, w: nat, row: int, col: int)
    requires HasShape(b, h, w)
    requires row == 0 || row == h - 1 || col == 0 || col == w - 1
    ensures NeighbourCount(b, row, col) <= 5
  {
  }

  /** The next generation has the rows of the old one, each of the same length. */
  lemma SuccessorShape(b: Board)
    ensures SameShape(Successor(b), b)
  {
  }

  /** Shape is kept over any number of generations. */
  lemma {:induction false} GenerationsShape(b: Board, h: nat, w: nat, k: nat)
    requires HasShape(b, h, w)
    ensures HasShape(Generations(b, k), h, w)
    decreases k
  {
    if k > 0 {
      SuccessorShape(b);
      GenerationsShape(Successor(b), h, w, k - 1);
    }
  }

  /** The life rule in the terms of its cases: who dies, who survives, who is born. */
  lemma LifeRule(b: Board, i: int, j: int)
    requires 0 <= i < |b| && 0 <= j < |b[i]|
    ensures var n, s := NeighbourCount(b, i, j), Successor(b);
      && (n < 2 ==> !s[i][j])
      && (n > 3 ==> !s[i][j])
      && (!b[i][j] && n != 3 ==> !s[i][j])
      && (n == 3 ==> s[i][j])
      && (b[i][j] && n == 2 ==> s[i][j])
  {
  }

  /** A dead board stays dead. */
  lemma DeadStaysDead(b: Board)
    requires AllDead(b)
    ensures Successor(b) == b
  {
    forall i | 0 <= i < |b|
      ensures Successor(b)[i] == b[i]
    {
      forall j | 0 <= j < |b[i]|
        ensures Successor(b)[i][j] == b[i][j]
      {
        assert NeighbourCount(b, i, j) == 0;
      }
    }
  }

  /** A board the rule maps to itself stays put for any number of generations. */
  lemma {:induction false} StillLife(b: Board, k: nat)
    requires Successor(b) == b
    ensures Generations(b, k) == b
    decreases k
  {
    if k > 0 {
      StillLife(b, k - 1);
    }
  }
}
