# Conway's Game of Life in the terminal, modelled in Dafny

The program runs Conway's Game of Life on a fixed 92×47 board without
wrap-around. On every frame it draws the board as coloured text, computes the
next generation, and checks whether the new board equals a board already seen
in the current epoch. The third such detection counts as "stuck": the board is
replaced by a new random one, and the history and the counter are cleared.

This project models that loop and proves what it does:

- `grid.dfy` (module `Grid`): a board is `seq<seq<bool>>`, a sequence of rows.
  It also holds the constants `Width = 92` and `Height = 47`, and the shape
  predicates. Rows may differ in length, because the neighbour,
  next-generation and frame code never assumes they don't.
- `generation.dfy` (`Generation`): `countNeighbors` and `nextGeneration` as
  methods with the source's loops. Each is proved against a specification
  function: `NeighbourCount`, the sum of the eight Moore neighbours, and
  `Successor`, the survive/birth rule `NextCell` applied to every cell.
- `equality.dfy` (`Equality`): `equal`, including its early exits.
- `render.dfy` (`Render`): the lines `printBoard` writes, built with the
  source's loops and proved equal to `Frame`. A parser reads a rendered row
  back into its cells.
- `driver.dfy` (`Driver`): one pass of the game loop. `State`, `Detect`,
  `Iteration` and `Run` are a pure state machine. The class `Game` mirrors
  the loop's variables `board`, `prevBoards` and `loopCount`, and its methods
  are proved to follow that state machine.
- `scenarios.dfy` (`Scenarios`): worked examples. A lonely cell dies, the
  block is a still life, the blinker oscillates and gets reset after five
  iterations, and three repeated boards trigger a reset even though no board
  was seen three times.

Where the code and its comments disagree, the model follows the code:

- The comment at main.go:48 speaks of the same board being seen a third time.
  The code counts any match of the new board against any history board
  (`Scenarios.ResetWithoutThirdOccurrence`).

A frame with no match leaves `loopCount` unchanged, so it counts detections
over the whole epoch, not consecutive ones (`Driver.CounterStep`).

## Model

| member | source | states |
|---|---|---|
| `Generation.CountNeighbors` | main.go:145-161 | for any board and any position, without indexing off the board, returns the number of live in-bounds cells among the eight around (row, col), the cell itself excluded; at most 8 |
| `Generation.WindowScanIsNeighbourCount` | main.go:147-159 | scanning the 3×3 window row by row, skipping off-board cells and the centre, adds up to exactly the eight-neighbour count |
| `Generation.CornerCount` | main.go:149-151 | on an h×w board a corner cell has at most 3 live neighbours (missing neighbours are not counted) |
| `Generation.EdgeCount` | main.go:149-151 | on an h×w board a cell on the border has at most 5 live neighbours |
| `Generation.NextGeneration` | main.go:121-142 | the board it builds is the reference successor: same row count, same row lengths, and each cell follows the survive/birth rule on the old board's neighbour count |
| `Generation.SuccessorShape` | main.go:123-126 | the next generation has as many rows as the input, each as long as the matching input row |
| `Generation.GenerationsShape` | main.go:121-126 | an h×w board stays h×w over any number of generations |
| `Generation.LifeRule` | main.go:129-137 | with n neighbours: fewer than 2 or more than 3 and the cell is dead next; a dead cell with n ≠ 3 stays dead; n = 3 gives a live cell; a live cell with n = 2 survives |
| `Generation.DeadStaysDead` | main.go:129-137 | an all-dead board maps to itself |
| `Generation.StillLife` | main.go:121-142 | a board the rule maps to itself is unchanged after any number of generations |
| `Equality.Equal` | main.go:66-78 | needs a first row in a only when the row counts match, as Go reads a[0] only then; returns true exactly when the row counts and first-row lengths match and every cell of a equals the cell at the same place in b |
| `Equality.AgreeIffSame` | main.go:66-78 | on non-empty rectangular boards, equal is true exactly when the two boards are the same value (same rows, same lengths, same cells) |
| `Equality.OneCellDiffers` | main.go:72-74 | flipping any one cell of a board makes equal false |
| `Equality.ShapesDiffer` | main.go:67-69 | boards of different dimensions compare unequal |
| `Render.Repeat` | main.go:98 | n copies of a character: length n, every character the given one |
| `Render.BuildRow` | main.go:103-111 | the row loop produces "\|", then per cell two spaces or green code + glyph + reset code, then "\|" |
| `Render.FrameLines` | main.go:93-118 | the lines printed for a non-empty board are the border ("+", 2·width dashes, "+"), one line per row in order, the border again and an empty line |
| `Render.FrameShape` | main.go:98-117 | a frame has rows + 3 lines; the first and the second-to-last line are the border, the last is empty, and line i+1 is row i's line |
| `Render.CellsTextAppend` | main.go:104-110 | the text for a row made of two parts is the text of the first part followed by the text of the second |
| `Render.CellsTextLength` | main.go:104-110 | each cell takes two visible characters, and each live cell adds the lengths of the two colour codes |
| `Render.DeadRowMatchesBorder` | main.go:98-111 | a row with no live cell renders as 2·width spaces, giving a line exactly as wide as the border |
| `Render.ParseRender` | main.go:104-110 | a rendered row parses back to exactly its cells, so the frame text determines the board |
| `Driver.CounterStep` | main.go:45-57 | in one detection the counter rises by exactly 1 if the new board is in the history and no reset happens; it is unchanged if the board is not in the history; it never rises by more than 1 |
| `Driver.ResetStep` | main.go:48-59 | when a match brings the counter to 3, the iteration ends with the fresh board as the current board, history exactly [fresh board] and counter 0 |
| `Driver.HistoryStep` | main.go:58-59 | without a reset the board is unchanged; the new board is appended exactly when the counter ends at 0; history is frozen while the counter is non-zero |
| `Driver.DetectInv` | main.go:44-59 | detection keeps every board in the state 92×47 and the counter in 0..2 |
| `Driver.IterationInv` | main.go:41-59 | a whole iteration (next generation, then detection) keeps that invariant |
| `Driver.RunInv` | main.go:40-62 | any finite number of iterations from a valid state keeps the invariant, so the counter is in 0..2 between iterations |
| `Driver.Game.constructor` | main.go:28-37 | start-up: the given initial board, empty history, counter 0 |
| `Driver.Game.DetectCycle` | main.go:44-59 | the scan with break, the reset and the conditional append change the loop's variables exactly as `Detect` says, and keep the invariant |
| `Driver.Game.Step` | main.go:41-59 | returns the frame lines of the current board, then advances the state exactly as `Iteration` says |
| `Scenarios.LonelyCornerStep` | main.go:129-137 | any 3×3 board whose only live cell is the top-left corner becomes all-dead |
| `Scenarios.BlockStep` | main.go:129-137 | any 4×4 board holding the 2×2 block in its middle is unchanged by one generation |
| `Scenarios.UprightStep` | main.go:129-137 | any upright 3×3 blinker becomes the lying one |
| `Scenarios.LyingStep` | main.go:129-137 | any lying 3×3 blinker becomes the upright one |
| `Scenarios.LonelyCornerDies` | main.go:129-137 | the concrete lonely-corner board has that pattern and becomes all-dead |
| `Scenarios.BlockIsStill` | main.go:121-142 | the concrete block board has the block pattern and is unchanged by one generation and by five |
| `Scenarios.BlinkerOscillates` | main.go:129-137 | the concrete upright and lying blinkers have their patterns and are each other's successor |
| `Scenarios.PeriodTwoIsReset` | main.go:40-62 | from either of two distinct boards that are each other's successor, two iterations record both, the next two count repeats, and the fifth resets to its fresh board with history [that board] |
| `Scenarios.BlinkerIsReset` | main.go:40-62 | started on the upright blinker, five iterations end in a reset to the fifth fresh board with history [that board] |
| `Scenarios.ResetWithoutThirdOccurrence` | main.go:45-57 | three different boards each matched once trigger a reset: the counter counts any match, not a third occurrence of one board |

## Left out

- Random boards: the initial board and `resetBoard` (main.go:25-34, 81-90) use
  a time-seeded random generator. They are parameters here, constrained only
  to be 92×47.
- The sleeps (main.go:50, 61), including the floating-point delay
  computation: they only pause.
- Terminal output: `fmt.Print`/`Println`, the screen clear `"\033c"`
  (main.go:95) and the stuck message (main.go:49). The model gives the lines
  printed for a frame, without the screen clear in front of them.
- The endless `for {}` loop (main.go:40): it is modelled as one iteration
  (`Game.Step`) and as a bounded run of iterations (`Run`), with an invariant.
- The box-drawing glyph and the ANSI colour strings are opaque constants. The
  model does not reason about their encoding or how a terminal shows them.
- Go's 64-bit `int` is not modelled: neighbour counts stay at most 8 and the
  counter at most 3, so no wrap-around can happen.
- Equality.Equal: its second precondition asks, once the size check passes, that
  every row of b be at least as long as the matching row of a. This is a
  sufficient condition for the Go code not to index out of range. Go may still
  return early, without a panic, for some ragged inputs this excludes. Within
  what is modelled, a b whose later rows are longer than a's compares equal
  on a's cells alone. All boards of the program are 92×47, so neither case
  arises there.
