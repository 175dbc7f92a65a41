# 2048 in Rust: the move, the spawn and the loss test

This project models the game logic of `2048-rust/src/main.rs`, a terminal
2048 game. The board is a vector of 16 cells, where cell (x, y) sits at
`y * 4 + x`. The project covers four parts:

- **The move** (`do_game_step`). For each of Up, Left, Down and Right, every
  column or row is processed by three nested loops.
  - The outer loop picks the line.
  - The middle loop picks a *target* cell, starting at the edge the move
    pushes toward.
  - The inner loop scans the *source* cells behind the target:
    - an empty target takes the first tile found, and the scan goes on;
    - a tile equal to the target merges into it, the merged value is added
      to the score, and the scan ends;
    - any other tile ends the scan.
  - `Quit` is refused with the error "Invalid input.".
- **The spawn** (`gen_rand_cell`). Random numbers are drawn until one aims at
  an empty cell. That cell receives a 4 when the number is a multiple of 10,
  and a 2 otherwise.
- **The loss test** in `main`. Up, Left, Down and Right are tried on copies of
  the board. The game is over when none of them changes the board.
- **`index`**, the mapping from (x, y) to a position.

## How the model is built

- `Line` defines what a move does to one line of four cells, listed from the
  edge the move pushes toward.
  - `Compact` drops the empty cells.
  - `Merged` merges equal neighbours pairwise, front to back.
  - `Slide` pads the result with empty cells.
  - `Gain` and `Merges` are the score and the number of merges.
  - These are reference definitions written independently of the loops.
    `Line` also holds the lemmas that state what one branch of the scan
    does to them.
- `Grid` maps line k, slot i of each direction to a board cell.
  - Up runs down column k.
  - Down runs up column k.
  - Left runs along row k from the left.
  - Right runs along row k from the right.

  `MoveBoard(d, b)` is the board with every line of direction d slid.
  `BoardGain(d, b)` is the score the move adds.
- `GameStep` keeps the source's loops as methods on an `array<nat>` of 16
  cells. There is one method per loop level, with their invariants:
  - `ScanSource` is one turn of the innermost loop;
  - `ScanTarget` is the innermost loop;
  - `ShiftLine` is the target loop;
  - `ShiftBoard` is the line loop;
  - `DoGameStep` is the dispatch on the move.

  The loop on a line works on the line's four board positions, front first.
  - For Right and Down, the source counts the target and source indices down
    from 3. Under `Grid.Cell`, that is slots counted up from 0 on a line
    listed from the right or bottom edge.
  - So the same `ShiftLine` serves all four arms.

  Each method is proved against `Slide` and `Gain`:
  - a line's cells end up as `Slide` of the line, and the score grows by its
    `Gain`, the sum of the tiles its merges produce;
  - at board level, the array ends as `MoveBoard(d, old board)`, and the
    score grows by exactly `BoardGain(d, old board)`.
- `LineProperties` and `BoardProperties` prove what the rule promises about
  those definitions:
  - the sum is kept;
  - one tile disappears per merge;
  - every tile takes part in at most one merge;
  - lines end compacted;
  - the score gained is at most the sum of the tiles, and 0 exactly when
    nothing merges;
  - a move leaves the board unchanged exactly when every line is settled;
  - a changing move leaves an empty cell.
- `Spawn` models the drawing loop, with the random numbers given as a
  sequence.
- `Loss` models the test:
  - as written, in `LossCheck`;
  - as evidently intended, in `CheckLost`;
  - as the game-over condition `GameOver`, with its characterisation:
    the board is empty, or it is full with no equal neighbours.

Sliding a line twice is not the same as sliding it once.
`LineProperties.MergedTileWaitsForNextMove` shows this: `[2, 2, 4, 0]` slides
to `[4, 4, 0, 0]`, and that slides to `[8, 0, 0, 0]`. A tile made by a merge
does not merge again in the same move, but it can on the next one. So the
rule is not idempotent, and the model follows the code in this.

## Model

| member | source | states |
|---|---|---|
| Grid.Index | 2048-rust/src/main.rs:13-15 | For x < 4, the position gives back x as `r % 4` and y as `r / 4`, so distinct cells have distinct positions. For x, y < 4 it is below 16, so every access of the moves is in bounds. |
| Grid.Cell | 2048-rust/src/main.rs:134-221 | Slot i of line k of a direction is a board position below 16, and it lies on line k at slot i. |
| Grid.CellOfPosition | 2048-rust/src/main.rs:134-221 | Every position is the cell of its own line and slot, so the four lines of a direction cover the board. |
| Line.ScanMove | 2048-rust/src/main.rs:139-141 | A tile moved into an empty target, past empty cells, leaves the tiles of the rest of the line in the same order. |
| Line.ScanMerge | 2048-rust/src/main.rs:142-147 | After a merge into the target, the cells up to the target are final: the prefix plus `Slide` of the rest is the `Slide` of the line before the step. |
| Line.ScanBlocked | 2048-rust/src/main.rs:148-150 | A different tile behind a tile ends the scan with the target final, and the prefix plus the slid rest is unchanged. |
| Line.ScanExhausted | 2048-rust/src/main.rs:137-152 | When only empty cells are behind the target, the target is final as it is. |
| LineProperties.SlideSum | 2048-rust/src/main.rs:142-147 | A move keeps the sum of the tiles on a line. |
| LineProperties.SlideCompacted | 2048-rust/src/main.rs:156-177 | After a move, no empty cell is in front of a tile. The tiles are the line's tiles with equal neighbours merged pairwise, front first. |
| LineProperties.SlideCount | 2048-rust/src/main.rs:142-147 | The number of tiles drops by exactly the number of merges, and at most half of the tiles take part in merges. |
| LineProperties.MergedOnce | 2048-rust/src/main.rs:142-147 | `Merged` builds its result block by block from the tile list (`MergesOnce`): each block is one tile, kept, or two equal tiles, summed. So no tile takes part in two merges, and a merged tile is not merged again in the same move; the `break` after a merge gives this. |
| LineProperties.SlideMergesOnce | 2048-rust/src/main.rs:137-151 | The tiles a move leaves on a line come from the line's tiles block by block in that way, so every tile merges at most once per move. |
| LineProperties.GainBound | 2048-rust/src/main.rs:142-147 | The score added is at most the line's sum, and it is 0 exactly when nothing merges. |
| LineProperties.SlideFixedIff | 2048-rust/src/main.rs:137-151 | A move leaves a line unchanged if and only if the line is compacted with no two equal neighbouring tiles. |
| LineProperties.SettledNoGain | 2048-rust/src/main.rs:142-147 | A line that a move leaves unchanged scores nothing and merges nothing. |
| LineProperties.SlideChangedFreesBack | 2048-rust/src/main.rs:137-151 | A move that changes a line leaves its back cell empty. |
| LineProperties.NoMergeIff | 2048-rust/src/main.rs:142-150 | On a list of tiles, no merge happens exactly when no two neighbours are equal; then the tiles stay as they are. |
| LineProperties.MergeGainBound | 2048-rust/src/main.rs:142-147 | The merged values sum to at most the tiles' sum, are 0 exactly when there is no merge, and there are at most half as many merges as tiles. |
| LineProperties.CompactedForm | 2048-rust/src/main.rs:137-151 | A compacted line is its tiles followed by empty cells. |
| LineProperties.FormCompacted | 2048-rust/src/main.rs:137-151 | Tiles followed by empty cells form a compacted line whose tiles are those tiles. |
| LineProperties.ExampleFourEqual | 2048-rust/src/main.rs:156-177 | Row [2,2,2,2] moved Left becomes [4,4,0,0], with score +8. |
| LineProperties.ExampleMergeBehindTile | 2048-rust/src/main.rs:156-177 | Row [4,2,2,0] moved Left becomes [4,4,0,0], with score +4. |
| LineProperties.ExampleMergeAtBack | 2048-rust/src/main.rs:156-177 | Row [0,0,2,2] moved Left becomes [4,0,0,0], with score +4. |
| LineProperties.MergedTileWaitsForNextMove | 2048-rust/src/main.rs:164-169 | A merged tile does not merge again in the same move: [2,2,4,0] becomes [4,4,0,0], and only the next move makes [8,0,0,0]. |
| GameStep.AddInto | 2048-rust/src/main.rs:139-147 | The two writes of the move and merge branches: on the line, the source is added into the target and the source is emptied. No other cell changes. |
| GameStep.StepMerge | 2048-rust/src/main.rs:142-147 | After a merge, the target is final and the score plus what the rest of the line will gain is still the score plus the gain of the whole line. |
| GameStep.ScanSource | 2048-rust/src/main.rs:138-151 | One turn of the source loop keeps the scan invariant. If it ends the scan, the target is final; otherwise the cells up to the source are empty. Cells off the line keep their values. |
| GameStep.ScanTarget | 2048-rust/src/main.rs:137-152 | The source loop settles one more target cell of the line and adds the merged value, if any, to the score. Cells off the line keep their values. |
| GameStep.ShiftLine | 2048-rust/src/main.rs:136-153 | The target loop leaves the line's cells as `Slide` of the line and adds the line's `Gain` to the score. Cells off the line keep their values. |
| GameStep.ShiftLineOf | 2048-rust/src/main.rs:135-154 | One turn of the line loop: line k becomes its slid line and its gain is added, while lines not yet reached still hold the original board. |
| GameStep.ShiftBoard | 2048-rust/src/main.rs:134-221 | The loops of one arm leave the board as `MoveBoard(d, b)` and add `BoardGain(d, b)` to the score. |
| GameStep.DoGameStep | 2048-rust/src/main.rs:128-226 | A direction gives `Pass`, the moved board and the score plus the move's gain. `Quit` gives `Fail("Invalid input.")` and changes neither the board nor the score. |
| BoardProperties.MoveLines | 2048-rust/src/main.rs:134-221 | Line k of the moved board is `Slide` of line k of the board, and it is compacted toward the edge of the move. |
| BoardProperties.MoveRows | 2048-rust/src/main.rs:156-221 | Left slides each row. Right slides the reversed row and reverses the result. |
| BoardProperties.MoveColumns | 2048-rust/src/main.rs:134-199 | Up slides each column. Down slides the reversed column and reverses the result. |
| BoardProperties.BoardGainLines | 2048-rust/src/main.rs:134-221 | The score of a move is the sum of the scores of its four lines. |
| BoardProperties.LinesSum | 2048-rust/src/main.rs:134-221 | The sum of the board is the sum of the sums of the four lines of any direction. |
| BoardProperties.LinesCount | 2048-rust/src/main.rs:134-221 | The number of tiles on the board is the sum of the tile counts of the four lines of any direction. |
| BoardProperties.MoveSum | 2048-rust/src/main.rs:134-221 | A move keeps the sum of all tiles on the board. |
| BoardProperties.MoveCount | 2048-rust/src/main.rs:134-221 | A move removes exactly one tile per merge. |
| BoardProperties.MoveGain | 2048-rust/src/main.rs:134-221 | The score a move adds is at most the sum of the tiles, and it is 0 exactly when nothing merges. |
| BoardProperties.MoveUnchangedIff | 2048-rust/src/main.rs:134-221 | A move leaves the board unchanged if and only if every one of its lines is settled. |
| BoardProperties.NoChangeNoGain | 2048-rust/src/main.rs:134-221 | A move that leaves the board unchanged adds nothing to the score and merges nothing. |
| BoardProperties.MoveChangedLeavesEmpty | 2048-rust/src/main.rs:134-221 | A move that changes the board leaves at least one empty cell, so the next spawn has a place. |
| Spawn.SpawnCell | 2048-rust/src/main.rs:276-277 | The cell a draw aims at is on the board: column `(rnd / 4) % 4`, row `rnd % 4`. |
| Spawn.SpawnReachesEveryCell | 2048-rust/src/main.rs:276-277 | Every cell of the board is aimed at by some draw below 16. |
| Spawn.GenRandCell | 2048-rust/src/main.rs:274-297 | See the details below the table. |
| Loss.TrialMove | 2048-rust/src/main.rs:310 | The trials run in the order Up, Left, Down, Right, and Right is the last. |
| Loss.GameOverMoves | 2048-rust/src/main.rs:310-333 | The game is over exactly when Up, Left, Down and Right each leave the board unchanged. |
| Loss.Trial | 2048-rust/src/main.rs:311-316 | A trial on a fresh copy of the board leaves the copy moved and the board itself untouched. The score it returns has the move's gain added. |
| Loss.TrialChanges | 2048-rust/src/main.rs:311-320 | A trial followed by the comparison reports whether the move changes the board. The returned score grows by the move's gain only when it does. |
| Loss.LossCheck | 2048-rust/src/main.rs:310-333 | See the details below the table. |
| Loss.CheckLost | 2048-rust/src/main.rs:310-333 | The test with a scratch score reports exactly `GameOver` of the board, and the game's score is untouched. |
| Loss.ExampleUpMove | 2048-rust/src/main.rs:134-155 | Two 2s at the top of column 0, and no other tile, merge under Up for a score of 4, which changes the board. |
| Loss.LossCheckInflatesScore | 2048-rust/src/main.rs:313 | For the board with 2s at cells 0 and 4 and nothing else, the game is not over, yet the test as written adds 4 to the score. |
| Loss.EmptySpreads | 2048-rust/src/main.rs:310-333 | When every line of every direction is settled, one empty cell means the whole board is empty. |
| Loss.GameOverSettled | 2048-rust/src/main.rs:310-333 | The game is over exactly when every line of every direction is settled. |
| Loss.FullSettled | 2048-rust/src/main.rs:310-333 | A full board with no equal neighbours has every line settled. |
| Loss.SettledFull | 2048-rust/src/main.rs:310-333 | A non-empty board with every line settled is full and has no equal neighbours. |
| Loss.GameOverIff | 2048-rust/src/main.rs:310-333 | The game is over exactly when the board is empty, or when it is full with no two equal tiles side by side or one above the other. |

Details for the longer rows:

- **Spawn.GenRandCell.** The drawing loop runs over the given draws.
  - It places a tile only at the cell its draw aims at, and only if that
    cell was empty. The tile is 4 when the draw is a multiple of 10, and 2
    otherwise.
  - It fails with "Index out of range." at a draw that aims outside the
    board, which can happen only on a board shorter than 16 cells.
  - Every draw before the one it places at or fails on aimed at an
    occupied cell inside the board. When it runs out of draws, every draw
    did.
  - When it fails or runs out of draws, the board is unchanged.
- **Loss.LossCheck.** This is the test as written.
  - `lost` is exactly `GameOver` of the board.
  - The score grows by the gain of the first trial that changes the board,
    and by nothing when none does.

## Left out

- `print_board` and `print_game` (lines 17-126) are output formatting; they
  are not modelled.
- `get_user_move` (lines 228-272) is not modelled: it reads the terminal and
  sleeps. The model takes the move as a `Move` value.
- The outer game loop and the re-prompt loop of `main` (lines 304-371) are
  not modelled. They interleave the modelled operations with terminal I/O.
  The panics on an error result are not modelled either.
- Spawn.GenRandCell: the source draws numbers from `rand::random` until one
  aims at an empty cell, and it may loop forever on a full board. The model
  takes the draws as a finite sequence and returns `OutOfDraws` when they
  are used up, so it does not model the unbounded loop or the random source.
- GameStep.DoGameStep: tile values and the score are `nat`. The `usize`
  overflow of `+=` and `add_assign` (a panic or a wrap-around in the source)
  is not modelled.
- The nested loops of each arm are split over the methods `ShiftBoard`,
  `ShiftLineOf`, `ShiftLine`, `ScanTarget` and `ScanSource`. The source has
  all three loops in one body, and one copy per direction. The model's one
  `ShiftLine` serves all four arms, through the line positions of `Grid`.

## Findings

| source | as written | input that shows it | evidently intended | confidence | as-written member | corrected member |
|---|---|---|---|---|---|---|
| 2048-rust/src/main.rs:313 | Each trial move of the loss test is given the game's real score (`&mut score`). A trial that changes its copy of the board adds its merges to the score, although the board itself is not moved. | A board whose only tiles are 2s at positions 0 and 4: the Up trial merges them on the copy, the test ends with the game not over, and the score has grown by 4. | The test should leave the score alone, running its trials with a scratch score. | not executed | Loss.LossCheck (with Loss.LossCheckInflatesScore) | Loss.CheckLost |
