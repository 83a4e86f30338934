/**
 * Board comparison: equal of main.go, a full-grid comparison with early exit.
 */
module Equality {
  import opened Grid

  /**
   * What equal checks: the row counts and the first rows' lengths match, and
   * every cell of a has the same value in b. Only a's row lengths are walked.
   */
  predicate CellsAgree(a: Board, b: Board)
    requires |a| == |b| ==> |a| > 0
  {
    && |a| == |b|
    && |a[0]| == |b[0]|
    && forall i, j :: 0 <= i < |a| && 0 <= j < |a[i]| ==> j < |b[i]| && a[i][j] == b[i][j]
  }

  /**
   * equal (main.go:66-78). The first line reads a[0] once the row counts match,
   * so two boards with equal row counts must have a row; the loop reads b[i][j]
   * wherever a[i][j] exists, so once the size check passes, each row of b must
   * be at least as long as the row of a.
   */
  method Equal(a: Board, b: Board) returns (same: bool)
    requires |a| == |b| ==> |a| > 0
    requires |a| == |b| && |a[0]| == |b[0]| ==> forall i :: 0 <= i < |a| ==> |a[i]| <= |b[i]|
    ensures same == CellsAgree(a, b)
  {
    if |a| != |b| || |a[0]| != |b[0]| {
      return false;
    }
    for i := 0 to |a|
      invariant forall r, c :: 0 <= r < i && 0 <= c < |a[r]| ==> a[r][c] == b[r][c]
    {
      for j := 0 to |a[i]|
        invariant forall c :: 0 <= c < j ==> a[i][c] == b[i][c]
      {
        if a[i][j] != b[i][j] {
          return false;
        }
      }
    }
    return true;
  }

  /** On rectangular boards, equal holds exactly when the two boards are the same value. */
  lemma AgreeIffSame(a: Board, b: Board)
    requires |a| > 0 && Rectangular(a) && Rectangular(b)
    ensures CellsAgree(a, b) <==> a == b
  {
    if CellsAgree(a, b) {
      forall i | 0 <= i < |a|
        ensures a[i] == b[i]
      {
        assert |a[i]| == |a[0]| == |b[0]| == |b[i]|;
      }
    }
  }

  /** Two boards that differ in one cell compare unequal. */
  lemma OneCellDiffers(a: Board, i: int, j: int)
    requires |a| > 0 && 0 <= i < |a| && 0 <= j < |a[i]|
    ensures !CellsAgree(a, a[i := a[i][j := !a[i][j]]])
  {
  }

  /** Boards of different shapes compare unequal. */
  lemma ShapesDiffer(a: Board, b: Board, h: nat, w: nat, h': nat, w': nat)
    requires HasShape(a, h, w) && HasShape(b, h', w') && h > 0
    requires h != h' || w != w'
    ensures !CellsAgree(a, b)
  {
  }
}
