# Knight-jump numbering puzzle: board state machine in Dafny

This project models the board of `board100`, a single-player puzzle on an
N x N grid. The player writes 1 on any cell. From there the player jumps
three cells along one axis, or two cells diagonally, to an empty cell and
writes the next number. The goal is to reach N², labelling every cell once.
The Rust crate has one component with real logic, `Board` in `src/lib.rs`,
plus the `Direction` enumeration it uses. This project models both.

Modules:

- `Directions` (`directions.dfy`) has the eight directions and the fixed
  order in which `possible_moves` lists them. It holds the offsets:
  `HV_OFFSET = 3` for orthogonal jumps and `DIAG_OFFSET = 2` for diagonal
  ones. It also has `IsJump`, a definition of "a legal jump" that does not
  use direction names.
- `Boards` (`board.dfy`) has the `Board` value, the queries and the three
  mutators.
  - The queries are `ValueAt`, `IsStarted`, `Score`, `ValidMove`,
    `PossibleMoves`, `IsWon` and `IsBlocked`.
  - The mutators are `SetValue`, `StartAt` and `NextMove`. They return a new
    board in a `Result` and never change their argument, as the source's
    clone-and-return style does.
  - Errors are a `BoardError` datatype, one constructor per error the
    source raises.
- `Invariant` (`invariant.dfy`) covers the boards a game can reach: a fresh
  board, then `StartAt`, then any run of successful `NextMove`s. Such a
  board satisfies the reachability invariant `Inv`, which has four clauses
  besides `Valid()`:
  - the score fits under `cells as u8`;
  - the cursor holds the score;
  - each label 1..score appears exactly once;
  - the number of empty cells is `cells - score`.
- `Tours` (`tours.dfy`) replays any complete 5 x 5 tour. The tour is given
  as its final grid, the cell of each label, and the jumps between labels.
  The replay is accepted move by move and ends won.
- `Scenarios` (`scenarios.dfy`) holds the crate's two tests, `new_board`
  and `win_5`, restated as lemmas.

The grid is a `seq<u8>`, where `u8` is the subset type 0..255. This matches
the source's `Vec<u8>`. The `cells as u8` casts (`src/lib.rs` lines 189 and
234) are written out as `AsU8(n) = n % 256`. The `score() as u8` cast at line
231 is lossless, because the score is itself a byte, so the model compares
against `Score(b)` directly; the literal `0 as u8` is just 0. The truncation
matters in one place. `set_value` and `is_won` compare against
`self.cells as u8`, and for size 16 the 256 cells truncate to 0. As a
result, no label can ever be written on a 16 x 16 board, not even by
`start_at` (`Invariant.Size16NeverStarts`). The model keeps this behaviour
as the code has it. The addition `value_at(x, y) + 1` in `next_move` is also
on `u8`. The model wraps it, which is the release-build behaviour.
`Invariant.NextMoveKeepsInv` proves that it never wraps on a reachable
board.

The Rust struct's fields are private. Only `new` and the mutators build
boards, so every query assumes `Board.Valid()`:

- the size is in 5..16;
- `cells == size * size`;
- there are `cells` values;
- the cursor is on the grid.

`New` establishes `Valid()` and `SetValue` keeps it.

## Model

| member | source | states |
|---|---|---|
| Directions.Index | src/lib.rs:79-88 | each direction's position in the fixed enumeration order; the direction at that position is the direction itself |
| Directions.AllEnumeratesDirections | src/lib.rs:78-90 | the enumeration has eight entries, lists every direction, has no repeats, and `Index` inverts it |
| Directions.OffsetsAreDistinctJumps | src/lib.rs:167-176 | every direction's offset is a legal jump (3 on one axis, or 2 on both), and no two directions share an offset |
| Directions.Offset | src/lib.rs:167-176 | the (dx, dy) change of each direction, with y growing downwards; `OffsetsAreDistinctJumps` and `DirectionOf` show these are exactly the legal jumps, one per direction |
| Directions.DirectionOf | src/lib.rs:167-176 | every legal jump vector is the offset of some direction, so the eight directions cover all jumps |
| Boards.IndexInjective | src/lib.rs:203-205 | two on-board cells with the same flat index y * size + x are the same cell |
| Boards.New | src/lib.rs:128-144 | the size is clamped to 5..16, `cells` is size squared, every cell is 0, the cursor is (0, 0), and the board is valid |
| Boards.NewClamps | src/lib.rs:129-135 | a size below 5 gives the same board as size 5; a size above 16 gives the same board as size 16 |
| Boards.ValueAt | src/lib.rs:203-205 | reading an on-board cell gives one of the board's values |
| Boards.IsStarted | src/lib.rs:146-148 | the board is started when the cell under the cursor is labelled; on a reachable board this is the score being at least 1 (`Invariant.Reachable`, `Invariant.StartLeavesOneLabel`) |
| Boards.Max | src/lib.rs:199 | `u8::max` is at least both arguments and equals one of them |
| Boards.MaxFold | src/lib.rs:199 | the fold of `u8::max` is at least its seed, at least every element, and equal to the seed or to some element |
| Boards.Score | src/lib.rs:198-200 | the score bounds every label and is 0 or a label present on the board, so it is the maximum label |
| Boards.ScoreIsMaximum | src/lib.rs:198-200 | any value that bounds every label and is 0 or present on the board equals the score |
| Boards.ValidMove | src/lib.rs:162-182 | gives a target exactly when the board is started and the cursor plus the offset is on the board and empty; the target then lies one legal jump from the cursor |
| Boards.ValidTargetsAreEmptyJumps | src/lib.rs:162-182 | a cell is some direction's target exactly when the board is started and the cell is on the board, empty, and one legal jump from the cursor |
| Boards.TargetsAreDistinct | src/lib.rs:167-176 | two different directions never give the same target |
| Boards.MovesFrom | src/lib.rs:154 | filtering the enumeration from position k keeps exactly the directions from k on whose jump is valid, in enumeration order, at most 8 - k of them |
| Boards.PossibleMoves | src/lib.rs:153-155 | holds exactly the directions whose jump is valid, in enumeration order with no repeats, at most 8, and none on an unstarted board |
| Boards.IsWon | src/lib.rs:187-190 | won when the cursor holds `cells as u8` and no cell is empty; on a reachable board this is the score reaching the cell count (`Invariant.WonIffFull`), and a won board is blocked (`Boards.WonIsBlocked`) |
| Boards.IsBlocked | src/lib.rs:193-195 | blocked when started with no possible move; `Boards.BlockedIffNoValidMove` restates this as every direction's jump being rejected |
| Boards.BlockedIffNoValidMove | src/lib.rs:193-195 | blocked exactly when the board is started and every direction's jump is rejected |
| Boards.WonIsBlocked | src/lib.rs:187-195 | a won board is also blocked |
| Boards.SetValue | src/lib.rs:224-245 | the checks fail in this order: off-board coordinates, a label below 1, a label at or below the score, a label above `cells as u8`, an occupied cell. It succeeds exactly when none applies. On success only the target cell changes: it gets the label, the cursor moves there, and the label becomes the score |
| Boards.Write | src/lib.rs:240-243 | the clone with the cursor moved to (x, y) and flat cell y * size + x replaced; `Boards.WritePlaces` shows this changes that one cell only |
| Boards.WritePlaces | src/lib.rs:240-243 | the write keeps the board valid, puts the label at (x, y), moves the cursor there and leaves every other cell as it was |
| Boards.Place | src/lib.rs:240-244 | writing a label above the score into an empty cell changes only that cell, moves the cursor there, and makes the label the score |
| Boards.WriteRaisesScore | src/lib.rs:198-200 | writing a label above the score makes that label the new score |
| Boards.LabelsOnlyGrow | src/lib.rs:228-239 | after a successful write, the next successful write uses a larger label on a different cell |
| Boards.PlacedKeepsLabel | src/lib.rs:237-243 | a successful write, which needs an empty target, leaves every labelled cell holding its label |
| Boards.StartAt | src/lib.rs:208-210 | succeeds exactly when the cell is on the board, the score is 0 and the size is below 16. Otherwise it fails with OutOfRange, AlreadyUsed or TooLarge. On success label 1 is under the cursor and the board is started |
| Boards.CellBytes | src/lib.rs:234 | `cells as u8` equals `cells` (25..225) for sizes 5..15 and is 0 for size 16 |
| Boards.AsU8 | src/lib.rs:189 | the `as u8` cast leaves values below 256 unchanged |
| Boards.NextMove | src/lib.rs:213-221 | on an unstarted board: NotStarted. For a rejected jump: InvalidDirection(d). On success the valid move's target gets the cursor label plus one, nothing else changes, and that label is the new score |
| Invariant.ZerosCount | src/lib.rs:140 | a grid of n zero bytes holds n zeros |
| Invariant.NewBoardIsEmpty | src/lib.rs:128-149 | a fresh board satisfies the reachability invariant, is not started, scores 0, is not won and has no possible move |
| Invariant.PlaceNextKeepsInv | src/lib.rs:231-244 | writing score + 1 into an empty cell keeps the invariant: labels 1..score + 1 each appear once, and the zero count drops by one |
| Invariant.EmptyCellLeavesRoom | src/lib.rs:234 | on a started reachable board, an empty cell means the score is below `cells as u8`, so the next label fits |
| Invariant.NextMoveKeepsInv | src/lib.rs:213-221 | on a reachable board a move succeeds exactly when `valid_move` finds a target. Then it writes score + 1 without wrapping, keeps the invariant and raises the score by one |
| Invariant.StartAtKeepsInv | src/lib.rs:208-210 | starting a reachable board keeps the invariant and sets the score to 1 |
| Invariant.StartFresh | src/lib.rs:208-210 | starting a fresh board of size 5..15 always succeeds. The result is the empty grid with label 1 written at (x, y) and the cursor moved there |
| Invariant.StartLeavesOneLabel | src/lib.rs:208-210 | after starting a fresh board, label 1 sits under the cursor and every other cell is empty. The board is started, scores 1 and is not won |
| Invariant.LoneLabelMoves | src/lib.rs:153-182 | on a started board whose only label is under the cursor, a direction is a possible move exactly when its jump stays on the board |
| Invariant.StartMovesAreInBounds | src/lib.rs:153-210 | right after starting a fresh board of size 5..15 at (x, y), a direction is a possible move exactly when its jump from (x, y) stays on the board |
| Invariant.UpdateCounts | src/lib.rs:243 | overwriting one cell removes one occurrence of its old label from the board's label counts and adds one of the new |
| Invariant.Advance | src/lib.rs:317-326 | applying moves in order, as the test loop does, yields a valid board of the same size |
| Invariant.AdvanceSnoc | src/lib.rs:317-326 | running the moves and then one more is the run followed by one `next_move`, and an error stops the run |
| Invariant.Play | src/lib.rs:311-313 | a new board of the given size started at (x, y), then the moves; a board it returns is valid, keeps the clamped size, and is narrower than 16 |
| Invariant.AdvanceKeepsLabels | src/lib.rs:213-243 | across any run of successful moves a labelled cell keeps its label, so a labelled cell is never rewritten |
| Invariant.AdvanceKeepsInv | src/lib.rs:317-326 | a run of successful moves keeps the invariant and raises the score by the number of moves |
| Invariant.Reachable | src/lib.rs:208-221 | a board reached by `new`, `start_at` and successful moves satisfies the invariant, is started, scores moves + 1, is narrower than 16, and cannot be started again |
| Invariant.Size16NeverStarts | src/lib.rs:234-236 | on a board requested with size 16 or more, starting at any on-board cell fails with TooLarge, because 256 truncates to 0 |
| Invariant.LabelsAreDistinct | src/lib.rs:231-239 | on a reachable board no nonzero label sits on two cells, and the nonzero labels present are exactly 1..score |
| Invariant.WonIffFull | src/lib.rs:187-190 | on a reachable board, won holds exactly when the score equals the cell count |
| Tours.PrefixIsSnapshot | src/lib.rs:311-324 | starting on label 1 and making the tour's first n - 1 moves succeeds and reaches the board after label n: the grid with every label above n cleared, the cursor on label n |
| Tours.TourMidGame | src/lib.rs:317-321 | after the tour's first n - 1 moves (n below 25), the board the game holds scores n, is started, offers the tour's next move, and is neither won nor blocked |
| Tours.SnapshotStep | src/lib.rs:322-324 | each move of a tour turns the board after label n into the board after label n + 1 |
| Tours.TourWins | src/lib.rs:311-335 | replaying a complete 5 x 5 tour is accepted move by move. It ends on exactly the tour's grid, won, at full score, and blocked |
| Scenarios.EveryJumpValid | src/lib.rs:153-155 | when every jump is valid, the possible moves are the whole enumeration in order |
| Scenarios.NewBoardTest | src/lib.rs:254-267 | a fresh 10 x 10 board has 100 cells, scores 0, and is neither started nor won. It has no possible move |
| Scenarios.StartedBoardTest | src/lib.rs:268-279 | starting it at (5, 5) puts 1 in flat cell 55 and scores 1. All eight moves are available and the board is not won |
| Scenarios.Win5IsTour | src/lib.rs:284-301 | the test's 24 moves, its final grid and the label positions describe one consistent tour |
| Scenarios.Win5MidGame | src/lib.rs:317-321 | before each of the test's 24 moves, the board reached by the moves so far exists, its score is the move number, the test's next move is among its possible moves, and it is neither won nor blocked |
| Scenarios.Win5 | src/lib.rs:311-335 | the test's game from (0, 0) is accepted and ends with the test's grid, won, scoring 25 = cells, and blocked |

## Left out

- Error messages: the Rust `BoardError` is one struct carrying a formatted message. The model replaces it with a datatype that has one constructor per site that raises an error. The message text, `fmt::Display` for `BoardError` and `Direction`, and the `std::error::Error` impl are not modelled.
- `Direction::iterator`: the static slice iterator is modelled as the constant sequence `Directions.All`, in the same order.
- `src/main.rs` only prints a greeting. The `board` module it declares is not part of this model.
- Boards.ValueAt: requires `x < size` and `y < size`. The Rust code indexes the flat vector, so it would also read some other cell when `x >= size` but `y * size + x` is still in range. It panics only past the end.
- Boards.NextMove: the `u8` addition is modelled as wrapping, which is release-build behaviour. A debug build would panic instead. The two differ only when the cursor holds 255, and no reachable board has that.
- Scenarios.Win5MidGame: the test also checks the exact number of possible moves before each move (3, 2, 2, 1, ...). The model does not reproduce these counts. It proves instead that the test's next move is among the possible moves, so the board is not blocked. `Scenarios.Win5` proves the final count is 0.
- Tours.TourWins: the generic replay covers 5 x 5 tours only. That is the size of the repository's complete game, and it keeps all index arithmetic linear.
- The puzzle search that the crate's doc comment describes does not exist in the code, so it is not modelled.
