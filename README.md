# 2048 rules engine in Dafny

This project models the rules engine of the puzzle game 2048 as written in
`proj0/game2048/Model.java`, and proves what its tilt and game-over logic
promise.

A game is a `Model`: a square board of slots, a score, a best score and a
game-over flag. A slot is empty (0) or holds a tile of some value. Four
operations change the game:

- A tilt toward one side slides every tile toward that side. Two equal
  neighbouring tiles merge into one tile of twice the value, and that value
  is added to the score. A tile made by a merge takes no part in another
  merge during the same tilt.
- `gameOver()` decides whether the game has ended, and then brings the best
  score up to date.
- `clear()` empties the board.
- `addTile()` places a tile.

The game has ended when some tile has the winning value 2048, or when no
move is left. A move is left when some slot is empty or two orthogonally
adjacent tiles are equal.

The engine tilts in one direction only: toward row 3 of each column. It
first turns the board's viewing perspective so that the requested side is
"up". It then handles one column at a time, with hand-written branch code
for each number of empty slots (0 to 4).

## Modules

- `column.dfy`, module `Column`: the rule one tilt applies to one column.
  - `Slide` is the reference definition: pack the tiles toward the edge,
    then merge equal pairs scanning from the edge inward.
  - `SlideGain` is the score the tilt adds.
  - The lemmas state the tilt's promises about one column.
  - `TiltedFour` writes the rule out case by case for four rows.
- `grid.dfy`, module `Grid`: the board as a value.
  - The four sides and the quarter turns that view a board from a side.
  - The game-over questions as predicates: `HasEmptySlot`, `HasMaxTile`,
    `HasEqualNeighbours`, `HasMove` and `IsOver`.
  - Proofs that the answers do not depend on the perspective.
- `tilt.dfy`, module `Tilt`: the tilt of a whole board as a function of
  the board and a side (`TiltGrid`, `TiltGain`), and its properties.
- `boards.dfy`, module `Boards`: the board object the engine calls. It
  holds the view from its current perspective, which `SetViewingPerspective`
  changes. `Move` moves one tile, merging it into an equal tile at the target
  slot.
- `model.dfy`, module `Game`: the engine itself.
  - The `Model` class holds the score, best score and game-over flag.
  - The tilt transcribes the branch code, down to each `move` call and
    score update. It is proved to agree with `Slide` on every column.
  - The three scans are loop methods, proved against the predicates of
    `Grid`.

`Board.java` is not part of this model. Its behaviour is inferred from the
calls `Model.java` makes: `tile`, `move`, `setViewingPerspective`, `clear`
and `addTile`. The board keeps the view from its current perspective, and
its physical layout is computed from that (`Board.Cells`). This choice of
representation is free, because the board's own storage is not visible.

Two comments in `Model.java` say more than the code does. The model
follows the code:
- Lines 30-33 say that `board.tile(c, r)` is column c, row r, with (0, 0)
  the lower-left corner. That holds only while the board is viewed from the
  north. The tilt at lines 344-350 puts the north perspective back only when
  the board changed, so a tilt that changes nothing leaves the board turned.
  See Findings.
- Line 22 says the best score is "updated when game ends". The code at
  lines 84-90 updates it on every `gameOver()` call that finds the game
  over, not once at the moment the game ends.

## Model

| member | source | states |
|---|---|---|
| Column.SlidePacked | proj0/game2048/Model.java:127-137 | After a tilt, a column holds no negative value and no tile lies farther from the edge than an empty slot. |
| Column.MergedCount | proj0/game2048/Model.java:129-131 | Every merge turns two tiles into one: tiles after the merge pass plus merges equals tiles before. |
| Column.NoMergeIff | proj0/game2048/Model.java:129-131 | The merge pass merges nothing exactly when no two neighbouring tiles are equal. |
| Column.MergedIdentity | proj0/game2048/Model.java:129-131 | Tiles with no equal neighbours come out of the merge pass unchanged. |
| Column.MergedFuses | proj0/game2048/Model.java:132-134 | Each tile takes part in at most one merge: read from the edge, every tile of the merged column is either one original tile or the sum of two equal neighbouring original tiles, and every original tile is used exactly once. |
| Column.MergedAtMostOnce | proj0/game2048/Model.java:132-134 | Consequences of merging at most once: at least half as many tiles remain as there were, and none is more than twice the largest original value. |
| Column.MergedSum | proj0/game2048/Model.java:129-131 | The merge pass keeps the total value of the tiles. |
| Column.GainBounds | proj0/game2048/Model.java:129-131 | The score a merge pass adds is at least 2 per merge, at most the total value, and 0 when nothing merges. |
| Column.PackedForm | proj0/game2048/Model.java:186-188 | A packed column is its empty slots followed by its tiles. |
| Column.SlideShape | proj0/game2048/Model.java:127-137 | After a tilt, the column's tiles, in order, are exactly the merged tiles. |
| Column.SlideTileCount | proj0/game2048/Model.java:132-134 | A column's tilt removes exactly one tile per merge and adds none. |
| Column.SlideSum | proj0/game2048/Model.java:129-131 | A column's tilt neither creates nor destroys value. |
| Column.SlideGainSign | proj0/game2048/Model.java:129-131 | A column's tilt never lowers the score, and raises it exactly when some pair merges. |
| Column.SettledIff | proj0/game2048/Model.java:186-188 | A tilt leaves a column alone exactly when it is packed toward the edge and has no two equal neighbouring tiles. |
| Column.EdgePairMerges | proj0/game2048/Model.java:162-164 | When the two tiles nearest the edge have value V, the edge slot ends up with 2V, and the tilt scores 2V on top of what the tiles behind the pair score. |
| Column.LeadingPairMerges | proj0/game2048/Model.java:135-137 | With three equal tiles V before a different tile W, the two nearest the edge merge into 2V, the third moves up unmerged, and 2V is scored. |
| Column.FourEqualMergePairwise | proj0/game2048/Model.java:132-134 | Four equal tiles V become two tiles 2V, never one tile 4V, and 4V is scored. |
| Column.TwoTwoTwoFour | proj0/game2048/Model.java:135-137 | Rows 0 to 3 holding 2, 2, 2, 4 become 0, 2, 4, 4, and 4 is scored. |
| Column.TiltedFourAgrees | proj0/game2048/Model.java:161-341 | On a four-row column, the reference rule and its score equal the case-by-case table `TiltedFour`/`GainedFour` on the column's tiles. |
| Grid.UnviewView | proj0/game2048/Model.java:145 | Viewing a board from a side and turning it back gives the same board: a perspective changes coordinates, never contents. |
| Grid.ViewUnview | proj0/game2048/Model.java:347 | Turning a view back to the physical board and viewing it again from the same side gives the same view. |
| Grid.EqualNeighbourScan | proj0/game2048/Model.java:424-452 | On a full board, the four-direction check at each slot finds an equal pair exactly when two orthogonally adjacent tiles are equal. |
| Grid.EmptySlotIgnoresView | proj0/game2048/Model.java:372-386 | A board has an empty slot exactly when its view from any side has one. |
| Grid.MaxTileIgnoresView | proj0/game2048/Model.java:393-410 | A board holds the winning tile exactly when its view from any side does. |
| Grid.EqualNeighboursIgnoreView | proj0/game2048/Model.java:418-455 | A board has two equal adjacent tiles exactly when its view from any side has. |
| Grid.IsOverIgnoresView | proj0/game2048/Model.java:344 | The game-over answer taken on the turned board, before the perspective is put back, is the answer for the physical board. |
| Tilt.TiltView | proj0/game2048/Model.java:145-147 | Viewed from the side tilted toward, the tilted board is the column rule applied to every column. |
| Tilt.TiltNoOpIff | proj0/game2048/Model.java:139-351 | A tilt leaves the board unchanged exactly when every column, viewed from that side, is packed toward the edge with no two equal neighbouring tiles. |
| Tilt.TiltChangedIff | proj0/game2048/Model.java:139-351 | A tilt changes the board exactly when it changes some column of the view from that side. |
| Tilt.SettledNoGain | proj0/game2048/Model.java:161-341 | Columns that are already packed toward the edge with no two equal neighbours add nothing to the score. |
| Tilt.NoOpNoGain | proj0/game2048/Model.java:139-351 | A tilt that leaves the board unchanged adds nothing to the score. |
| Tilt.TiltGainSign | proj0/game2048/Model.java:161-341 | A tilt never lowers the score, and raises it exactly when some pair of tiles merges. |
| Tilt.TiltTileCount | proj0/game2048/Model.java:161-341 | A tilt removes one tile per merge, adds none, and keeps the total value of the tiles. |
| Boards.Board.constructor | proj0/game2048/Model.java:45 | A new board is empty and viewed from the north. |
| Boards.Board.FromGrid | proj0/game2048/Model.java:57 | A board built from given contents holds exactly them, viewed from the north. |
| Boards.Board.SetViewingPerspective | proj0/game2048/Model.java:145 | Changing the perspective keeps the physical contents; the view becomes the board as seen from the new side. |
| Boards.Board.Move | proj0/game2048/Model.java:163 | Moving a tile empties its old slot and puts it at the target. A target holding an equal tile ends up with one tile of twice the value. Only the one or two columns involved change. |
| Boards.Board.Clear | proj0/game2048/Model.java:112 | Clearing leaves every slot empty. |
| Boards.Board.AddTile | proj0/game2048/Model.java:121 | Adding a tile sets exactly its physical slot, which was empty, to its value. |
| Game.Model.constructor | proj0/game2048/Model.java:44-48 | A new game has an empty board viewed from the north, score 0, best score 0, and is not over. |
| Game.Model.FromGrid | proj0/game2048/Model.java:55-61 | A game built from given contents, score, best score and flag holds exactly those. |
| Game.Model.Tile | proj0/game2048/Model.java:68-70 | The value at (c, r) is the physical slot that the current perspective turns (c, r) into; viewed from the north, it is slot (c, r) itself. |
| Game.Model.GameOver | proj0/game2048/Model.java:84-90 | Reports and records whether the game is over. When it is, the best score becomes the larger of score and best score; the best score never decreases. |
| Game.Model.Clear | proj0/game2048/Model.java:109-114 | The board is emptied, the score is 0, the game is not over, and the best score is kept. |
| Game.Model.AddTile | proj0/game2048/Model.java:120-124 | Exactly the tile's slot is filled, and the game-over flag is re-decided for the new board. |
| Game.Model.Tilt | proj0/game2048/Model.java:139-351 | The board becomes the reference tilt of the old board toward the side, the score rises by that tilt's gain, `changed` reports whether the board changed, the score is unchanged when the board is, the game-over flag is re-decided, and the board is viewed from the north again. |
| Game.Model.TiltAsWritten | proj0/game2048/Model.java:344-350 | As `Tilt`, except that the board stays viewed from the side tilted toward when nothing changed. |
| Game.Model.TiltColumns | proj0/game2048/Model.java:145-344 | Turning to the side, tilting every column and re-deciding game-over give the reference tilt and gain, and `changed` is whether the board changed. |
| Game.Model.TiltEveryColumn | proj0/game2048/Model.java:147-342 | The loop over the columns applies the column rule to every column, adds the sum of the columns' gains to the score, and reports whether any column changed. |
| Game.Model.TiltColumn | proj0/game2048/Model.java:147-341 | Counting the empty slots and running the matching branch turns one column into the reference rule's result and adds its gain to the score. Other columns are untouched, and `moved` is whether the column changed. |
| Game.Model.TiltNoEmpty | proj0/game2048/Model.java:161-192 | The branch for a full column produces the four-row rule's column and score, changes no other column, and reports whether the column changed. |
| Game.Model.TiltOneEmpty | proj0/game2048/Model.java:193-261 | The branch for one empty slot produces the four-row rule's column and score, changes no other column, and reports whether the column changed. |
| Game.Model.TiltTwoEmpty | proj0/game2048/Model.java:262-321 | The branch for two empty slots produces the four-row rule's column and score, changes no other column, and reports whether the column changed. |
| Game.Model.TiltThreeEmpty | proj0/game2048/Model.java:322-338 | The branch for three empty slots moves the single tile to the edge, changes no other column, and reports whether it moved. |
| Game.Model.CheckGameOver | proj0/game2048/Model.java:357-359 | The game-over flag becomes whether the board as viewed is over. |
| Game.CheckGameOverOf | proj0/game2048/Model.java:364-366 | A board is over exactly when it holds a winning tile or has no move left. |
| Game.EmptySpaceExists | proj0/game2048/Model.java:372-386 | The scan reports true exactly when some slot is empty. |
| Game.MaxTileExists | proj0/game2048/Model.java:393-410 | The scan reports true exactly when some tile has value 2048. |
| Game.AtLeastOneMoveExists | proj0/game2048/Model.java:418-455 | The scan reports true exactly when some slot is empty or two orthogonally adjacent tiles, within the board, are equal. |
| Game.NoOpTiltLeavesBoardTurned | proj0/game2048/Model.java:344-350 | A board with one tile of value 2 in the lower-left corner is unchanged by a west tilt, yet its west view shows slot (0, 0) empty while the corner holds the tile. |

## Left out

- The `Observable` notifications (`setChanged`, lines 113, 123 and 346) are left out. They only inform the user interface.
- `toString`, `equals` and `hashCode` (lines 458-494) are left out. They are debug text and text-based equality.
- The accessors `score()`, `maxScore()` and `size()` are not separate members. They are fields of `Model` and `Board`.
- `Board.java`, `Tile.java` and `Side.java` are not part of this model. `Board` is modelled only through the calls the engine makes.
  - The quarter-turn formulas of the four perspectives are this model's own choice. Each one puts logical row `size - 1` on the named side.
  - A tile is a value. `move` identifies the moving tile by the slot it was read from; the branch code moves each tile at most once, so that slot still holds it.
  - `tile(c, r)` returns the value, 0 for an empty slot, instead of a `Tile` object or null.
  - `addTile` takes a `NewTile` value: the tile's value and the physical slot it goes to.
- Boards.Board.FromGrid: takes its contents in physical (column, row) layout. How `Board` converts the raw `int[][]` of lines 55-61, indexed (row, column), is not visible.
- Game.Model.Tilt: requires a board of side 4. Rows 0 to 3 are hard-coded at lines 157-160, so other sizes are not supported.
- Game.Model.Tilt: the score is an unbounded integer, so Java's 32-bit `int` wrap-around of `score` is not modelled.
- Tilt.TiltTileCount: counts tiles and merges column by column in the view from the tilted side, not in the physical layout. A perspective only renames slots.
- Random tile spawning is left out: it is done by the caller, and `addTile` only places the tile it is given.

## Findings

| source | as written | input that shows it | evidently intended | confidence | as-written member | corrected member |
|---|---|---|---|---|---|---|
| proj0/game2048/Model.java:344-350 | The north perspective is put back only when the tilt changed the board. | A board with a single 2 in the lower-left corner, tilted west: nothing moves, the board stays viewed from the west, and `tile(0, 0)` then reads an empty slot although the corner holds the 2. | The north perspective is put back after every tilt, so later `tile` reads use north coordinates. | high (not executed) | Game.Model.TiltAsWritten, Game.NoOpTiltLeavesBoardTurned | Game.Model.Tilt |
