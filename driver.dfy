/**
 * The body of the game loop in main (main.go:40-62): render the board, compute
 * the next generation, and run cycle detection against the history of boards
 * seen in this epoch, resetting to a new random board on the third detection.
 * Randomness is outside the model: the new board is a parameter.
 */
module Driver {
  import opened Grid
  import opened Generation
  import opened Equality
  import opened Render

  /** The detection count at which the board is declared stuck (main.go:48). */
  const StuckThreshold: nat := 3

  /** The loop's variables: current board, prevBoards and loopCount. */
  datatype State = State(board: Board, history: seq<Board>, loopCount: int)

  /** The state right after start-up (main.go:28-37), from the random initial board. */
  function Start(initial: Board): State {
    State(initial, [], 0)
  }

  /**
   * Cycle detection (main.go:44-59) once s.board holds the new generation.
   * The loop stops at the first matching history board, so only whether some
   * board matches matters; the counter then rises once, and reaching the
   * threshold replaces the board and clears history and counter. The board is
   * appended only when the counter is zero afterwards.
   */
  function Detect(s: State, replacement: Board): State {
    var afterScan :=
      if s.board in s.history then
        if s.loopCount + 1 == StuckThreshold then State(replacement, [], 0)
        else s.(loopCount := s.loopCount + 1)
      else s;
    if afterScan.loopCount == 0 then afterScan.(history := afterScan.history + [afterScan.board])
    else afterScan
  }

  /** One whole iteration: the next generation (main.go:42), then detection. */
  function Iteration(s: State, replacement: Board): State {
    Detect(s.(board := Successor(s.board)), replacement)
  }

  /** A bounded run: one iteration per entry of replacements, which supplies that iteration's reset board. */
  function Run(s: State, replacements: seq<Board>): State
    decreases |replacements|
  {
    if replacements == [] then s else Run(Iteration(s, replacements[0]), replacements[1..])
  }

  /** What holds between iterations: standard boards throughout and a counter below the threshold. */
  predicate Inv(s: State) {
    && Standard(s.board)
    && (forall k :: 0 <= k < |s.history| ==> Standard(s.history[k]))
    && 0 <= s.loopCount < StuckThreshold
  }

  /** Whether detection on s ends in a reset: a match that brings the counter to the threshold. */
  predicate Resets(s: State) {
    s.board in s.history && s.loopCount + 1 == StuckThreshold
  }

  /** The counter rises by exactly one on a match, stays put otherwise, and never rises by more. */
  lemma CounterStep(s: State, replacement: Board)
    ensures var t := Detect(s, replacement);
      && (s.board in s.history && !Resets(s) ==> t.loopCount == s.loopCount + 1)
      && (s.board !in s.history ==> t.loopCount == s.loopCount)
      && t.loopCount <= s.loopCount + 1
  {
  }

  /** The third detection resets: the replacement becomes the current board and the only history entry. */
  lemma ResetStep(s: State, replacement: Board)
    requires Resets(s)
    ensures Detect(s, replacement) == State(replacement, [replacement], 0)
  {
  }

  /**
   * Without a reset, history grows exactly when the counter ends at zero, and
   * by the current board; once the counter is non-zero it stays frozen.
   */
  lemma HistoryStep(s: State, replacement: Board)
    requires !Resets(s)
    ensures var t := Detect(s, replacement);
      && t.board == s.board
      && (t.loopCount == 0 ==> t.history == s.history + [s.board])
      && (t.loopCount != 0 ==> t.history == s.history)
      && (s.loopCount > 0 ==> t.history == s.history)
  {
  }

  /** Detection keeps the between-iterations invariant when the new board and the replacement are standard. */
  lemma DetectInv(s: State, replacement: Board)
    requires Inv(s) && Standard(replacement)
    ensures Inv(Detect(s, replacement))
  {
  }

  /** A whole iteration keeps the invariant. */
  lemma IterationInv(s: State, replacement: Board)
    requires Inv(s) && Standard(replacement)
    ensures Inv(Iteration(s, replacement))
  {
    SuccessorShape(s.board);
    DetectInv(s.(board := Successor(s.board)), replacement);
  }

  /** Any bounded run from a valid state with standard replacement boards keeps the invariant. */
  lemma {:induction false} RunInv(s: State, replacements: seq<Board>)
    requires Inv(s)
    requires forall k :: 0 <= k < |replacements| ==> Standard(replacements[k])
    ensures Inv(Run(s, replacements))
    decreases |replacements|
  {
    if replacements != [] {
      IterationInv(s, replacements[0]);
      RunInv(Iteration(s, replacements[0]), replacements[1..]);
    }
  }

  /** The loop's variables as a mutable object, updated by each iteration. */
  class Game {
    var board: Board
    var prevBoards: seq<Board>
    var loopCount: int

    ghost function Snapshot(): State
      reads this
    {
      State(board, prevBoards, loopCount)
    }

    ghost predicate Valid()
      reads this
    {
      Inv(Snapshot())
    }

    /** Start-up (main.go:28-37) with the random initial board given. */
    constructor (initial: Board)
      requires Standard(initial)
      ensures Valid() && Snapshot() == Start(initial)
    {
      board := initial;
      prevBoards := [];
      loopCount := 0;
    }

    /** Cycle detection (main.go:44-59); board already holds the new generation. */
    method DetectCycle(replacement: Board)
      requires Valid() && Standard(replacement)
      modifies this
      ensures Valid()
      ensures Snapshot() == Detect(old(Snapshot()), replacement)
    {
      var boards := prevBoards;
      for k := 0 to |boards|
        invariant board == old(board) && prevBoards == boards && loopCount == old(loopCount)
        invariant forall m :: 0 <= m < k ==> boards[m] != board
      {
        AgreeIffSame(boards[k], board);
        var same := Equal(boards[k], board);
        if same {
          loopCount := loopCount + 1;
          if loopCount == StuckThreshold {
            board := replacement;
            prevBoards := [];
            loopCount := 0;
          }
          break;
        }
      }
      if loopCount == 0 {
        prevBoards := prevBoards + [board];
      }
    }

    /** One pass of the game loop (main.go:41-59): the frame's lines, the next generation, detection. */
    method Step(replacement: Board) returns (frame: seq<string>)
      requires Valid() && Standard(replacement)
      modifies this
      ensures Valid()
      ensures frame == Frame(old(board))
      ensures Snapshot() == Iteration(old(Snapshot()), replacement)
    {
      frame := FrameLines(board);
      board := NextGeneration(board);
      SuccessorShape(old(board));
      DetectCycle(replacement);
    }
  }
}
