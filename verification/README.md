# 2048 rules engine, modelled in Dafny

This project models the rules engine of a 2048 game (`src/games/2048`), for a 4 by 4 board. It covers:

- the board of tiles: id, value, x, y, `merged`, `isRemoved`;
- the free cells and spawning a tile (`getAllFreePositions`, `getRandomPosition`, `createNewTile`);
- the collapse of one move (`moveTiles`), both in the functional form of `move.ts` and in the in-place form of `engine.ts`;
- the turn-scoped cleanups (`resetMergedState`, `clearRemovedTiles`);
- generating a board (`generateTiles`, `resetGame`);
- the one-turn driver (`gameTilesMoveActionHandler`), plus a fold of it over a sequence of turns.

Modules:

- `Tiles` (tiles.dfy, modelling types.ts): tiles, cells, directions, and the counting functions used in the properties.
- `Move` (move.dfy, modelling move.ts): the direction table, the line order, the merge pass and the compaction pass, and the whole-board collapse.
  - `MoveTilesOfSize` works for any board size.
  - `MoveTiles` fixes the size at `GAME_FIELD_SIZE` = 4.
  - The board is an immutable value, so the copy that `move.ts` makes at line 47 is implicit: the caller's tiles are never changed.
- `MoveLineLemmas`, `MoveBoardLemmas` and `MoveTheorems` (move_lines.dfy, move_board.dfy, move_theorems.dfy): what one line and one whole move promise.
- `EngineMove` (engine_move.dfy, modelling engine.ts `moveTiles`): the two `forEach` loops written as loops over a line. They overwrite the line in place, and the line is written back to the tiles it came from. Each loop is proved to compute the functional definition, so the two `moveTiles` of the repository agree.
- `Engine` (engine.dfy, modelling the rest of engine.ts): free cells, spawning, the cleanups, generation and the turn.

`Math.random()` is not modelled as a source of randomness. Each call becomes a parameter (a "draw"): a real in [0, 1). The rest of the code is kept literally:

- the cell index is `floor(u * n)`;
- the value is 2 when the draw is below 0.9, else 4.

A thrown `Error('No free positions')` becomes `Failure(NoFreePositions)` of a `Result`.

In three places the code differs from common 2048 rules, and the model follows the code:

- **Ids.** A new tile's id is the id of the LAST tile of the array plus one, or 1 when the array is empty or that id is 0. A common rule gives the maximum id plus one. `Engine.LegalSnoc` and `Engine.PlayLegal` show that the two coincide on every board the game produces, because ids stay positive and ascending along the array.
- **Sums.** A merged-away tile keeps its value until it is swept. So what a move conserves is the sum over tiles not marked removed (`LiveSum`), not the sum over all tiles.
- **Score.** In common 2048 rules a merge adds to a score. The code computes no score, so none is modelled.

## Model

| member | source | states |
|---|---|---|
| Engine.FreePositions | src/games/2048/engine.ts:3-12 | getAllFreePositions as a function. It has no contract of its own; FreePositionsSpec states what it lists and in which order. |
| Engine.FreeFrom | src/games/2048/engine.ts:5-10 | The two nested loops as a recursion over (x, y). It has no contract of its own; FreeFromMembers and FreeFromOrdered state its members and order. |
| Engine.FreePositionsSpec | src/games/2048/engine.ts:3-12 | A cell is listed exactly when it is on the 4 by 4 board and no tile sits on it, removed tiles included. The list is strictly ordered by x, then by y, so no cell appears twice. |
| Engine.FreeFromMembers | src/games/2048/engine.ts:5-9 | The cells listed from (x, y) on are exactly the free on-board cells not enumerated before (x, y). |
| Engine.FreeFromOrdered | src/games/2048/engine.ts:5-9 | The enumeration lists cells in x-major order. |
| Engine.GetAllFreePositions | src/games/2048/engine.ts:3-12 | The two nested loops return exactly FreePositions. |
| Engine.ScanColumn | src/games/2048/engine.ts:6-9 | The inner loop appends the free cells of column x, in y order. |
| Engine.AnyTileAt | src/games/2048/engine.ts:7 | `tiles.some(...)` is true iff some tile, removed or not, sits on (x, y). |
| Engine.FreeCount | src/games/2048/engine.ts:3-12 | With tiles on distinct cells of the board, exactly 16 minus the number of tiles are free. |
| Engine.PickIndex | src/games/2048/engine.ts:19 | For a draw in [0, 1), `Math.floor(u * n)` is a valid index below n. |
| Engine.GetRandomPosition | src/games/2048/engine.ts:14-20 | Fails with NoFreePositions exactly when no cell is free. Otherwise returns a free cell of the board. |
| Engine.GetRandomPositionCovers | src/games/2048/engine.ts:19 | Every free cell is returned for some draw (the draw i/n picks the i-th free cell). |
| Engine.CreateNewTile | src/games/2048/engine.ts:22-35 | Fails exactly when the board has no free cell. Otherwise the tile sits on a free cell, has value 2 or 4, has both flags false, and gets the next id. |
| Engine.NextIdCounts | src/games/2048/engine.ts:24-27 | On an array numbered 1..n in order, the next id is n + 1. |
| Engine.NextId | src/games/2048/engine.ts:24-27 | The new id always exceeds the id of the last tile, and is at least 1 unless that id is negative. |
| Engine.SpawnValue | src/games/2048/engine.ts:28 | A spawned value is 2 or 4, and it is 4 exactly when the draw is at least 0.9. |
| Engine.ResetMerged | src/games/2048/engine.ts:131-133 | Same length. Every tile has `merged` false and is otherwise unchanged. |
| Engine.ResetMergedIdempotent | src/games/2048/engine.ts:131-133 | Resetting twice is resetting once. |
| Engine.ResetMergedLiveSum | src/games/2048/engine.ts:131-133 | The reset keeps the sum of live values. |
| Engine.ClearRemoved | src/games/2048/engine.ts:127-129 | The result holds no removed tile. Its length is the number of live tiles. A tile is in it iff it is a live tile of the input. |
| Engine.ClearRemovedOrder | src/games/2048/engine.ts:127-129 | The kept tiles come from strictly increasing positions of the input, and every live position is among them: a stable filter. |
| Engine.ClearRemovedKeeps | src/games/2048/engine.ts:127-129 | A board without removed tiles is left as it is. |
| Engine.ClearRemovedIdempotent | src/games/2048/engine.ts:127-129 | Filtering twice is filtering once. |
| Engine.CleanupsCommute | src/games/2048/engine.ts:127-133 | Resetting the flags and dropping removed tiles commute. |
| Engine.ClearRemovedLiveSum | src/games/2048/engine.ts:127-129 | The total of the kept tiles is the live sum of the input. |
| Engine.Cleanup | src/games/2048/engine.ts:144-145 | After the turn's cleanup no tile is marked removed and no tile is marked merged. |
| Engine.CleanupSources | src/games/2048/engine.ts:144-145 | Each tile after the turn's cleanup is a live input tile with the same cell and id, taken in input order. |
| Engine.CleanupPlaced | src/games/2048/engine.ts:144-145 | The cleanup keeps every tile on the board and live tiles on distinct cells. |
| Engine.CleanupLegal | src/games/2048/engine.ts:144-145 | The cleanup keeps a legal board legal (distinct live cells, on board, ascending ids). |
| Engine.GenerateTiles | src/games/2048/engine.ts:135-141 | Succeeds iff count <= 16, and otherwise fails with NoFreePositions. On success it returns max(count, 0) tiles, numbered 1.., on distinct board cells, valued 2 or 4, with both flags false. |
| Engine.FreshSnoc | src/games/2048/engine.ts:137-139 | Appending a created tile keeps a generated board fresh. |
| Engine.ResetGame | src/games/2048/engine.ts:155-158 | Hands two fresh, legal tiles to the callback; it never fails. |
| Engine.HandleMove | src/games/2048/engine.ts:143-153 | Fails exactly when the move changed something and left no free cell for createNewTile, and then with NoFreePositions. On success the callback receives as many tiles as the cleanup kept, plus one exactly when something moved. |
| Engine.HandleNoSpawn | src/games/2048/engine.ts:149 | When live tiles sit on distinct board cells, a turn that moves nothing returns the cleaned-up tiles unchanged and spawns nothing. |
| Engine.HandleSpawnsOne | src/games/2048/engine.ts:151-152 | A turn that moves returns the moved tiles plus exactly one tile at the end. That tile has the next id, value 2 or 4, both flags false, and a cell no moved tile takes. |
| Engine.HandleNeverFails | src/games/2048/engine.ts:143-153 | When live tiles sit on distinct board cells, the turn never reaches the 'No free positions' failure. |
| Engine.LegalSnoc | src/games/2048/engine.ts:151-152 | Appending a tile with the next id on a free board cell keeps the board legal. |
| Engine.MoveLegal | src/games/2048/engine.ts:147 | The move keeps a legal board legal. |
| Engine.HandleLegal | src/games/2048/engine.ts:143-153 | The turn succeeds and keeps the board legal. |
| Engine.HandleLiveSum | src/games/2048/engine.ts:143-153 | After a turn, the live sum equals the old live sum plus the spawned tile's value, if a tile was spawned. |
| Engine.Play | src/games/2048/thread.ts:7-9 | Stands in for the promise chain that applies turns one after another: a left fold of HandleMove over the turns. It has no contract of its own; PlayLegal states that it succeeds and stays legal. |
| Engine.PlayLegal | src/games/2048/engine.ts:143-153 | From a legal board, any sequence of turns succeeds and ends on a legal board. |
| Move.ConfigOf | src/games/2048/move.ts:18-43 | UP and DOWN slide along y, LEFT and RIGHT along x; UP and LEFT slide toward coordinate 1, DOWN and RIGHT toward the far edge. The table of engine.ts (lines 57-82) is the same, with the literal 4. |
| Move.TileMoving | src/games/2048/move.ts:18-43 | calculateTileMoving: the coordinate given to rank `index` lies `index` cells from the destination edge (Rank inverts it), and ranks below `size` land on the board. |
| Move.LineIndex | src/games/2048/move.ts:18-43 | getLineIndex: x when the tile slides along y (UP, DOWN), y when it slides along x (LEFT, RIGHT). |
| Move.Moving | src/games/2048/move.ts:18-43 | movingCoordinate: y for UP and DOWN, x for LEFT and RIGHT. |
| Move.Compare | src/games/2048/move.ts:18-43 | sortComparator: negative exactly when the first tile is nearer the destination edge, zero exactly when both share the moving coordinate. |
| Move.LineMembers | src/games/2048/move.ts:52 | The filter: an index is kept iff its tile belongs to line i. |
| Move.LineOrder | src/games/2048/move.ts:52 | `tilesInLine`: exactly the indices of the tiles of line i. |
| Move.LineOrderDistinct | src/games/2048/move.ts:52 | No index appears twice in the line. |
| Move.Gather | src/games/2048/move.ts:52 | The tiles of `tilesInLine`: one per index, the j-th being the board's tile at the j-th index. |
| Move.SortLine | src/games/2048/move.ts:52 | The sort is a permutation: the output holds the same indices, each as often as in the input. |
| MoveBoardLemmas.SortLineSorted | src/games/2048/move.ts:18-42 | The sorted line is ordered by the comparator of the direction, nearer the destination edge first. |
| MoveBoardLemmas.InsertSorted | src/games/2048/move.ts:52 | Stable insertion keeps a line ordered. |
| Move.Scatter | src/games/2048/move.ts:54-89 | Writing a line back changes no tile outside the line. |
| Move.ScatterAt | src/games/2048/move.ts:54-89 | With distinct indices, every written tile lands at its own index: in-place mutation through aliases. |
| Move.MergeFrom | src/games/2048/move.ts:54-66 | The merge forEach from one tile on: one more tile than the rest, the current tile's removed flag kept, and every id and cell unchanged. MergePassRule gives the full rule. |
| Move.MergePass | src/games/2048/move.ts:54-66 | The merge keeps the line's length and every tile's id and cell, and never changes the first tile's removed flag. |
| MoveLineLemmas.MergePassRule | src/games/2048/move.ts:54-66 | The full rule. A tile is removed iff its predecessor is not removed and had the same value. A tile's value doubles, and it becomes merged, iff its successor is removed. |
| MoveLineLemmas.TripleMerge | src/games/2048/move.ts:54-66 | [2, 2, 2] gives [4 (merged), removed, 2]: only the first pair merges. |
| MoveLineLemmas.QuadrupleMerge | src/games/2048/move.ts:54-66 | [2, 2, 2, 2] gives [4, removed, 4, removed]. |
| MoveLineLemmas.MergePassLiveSum | src/games/2048/move.ts:61-65 | The merge keeps the live sum of the line. |
| Move.CompactFrom | src/games/2048/move.ts:68-89 | The compaction keeps the line's length and changes only each tile's moving coordinate. |
| Move.Compact | src/games/2048/move.ts:68-89 | The compaction forEach from the head of the line: same length, only moving coordinates change. CompactPlaces and CompactMoved state where tiles go and when `moved` is set. |
| MoveLineLemmas.CompactPlaces | src/games/2048/move.ts:68-89 | The j-th survivor goes to calculateTileMoving(j): j+1 toward the start, size-j toward the far edge. A removed tile takes its predecessor's new coordinate. |
| MoveLineLemmas.CompactMoved | src/games/2048/move.ts:81-83 | The line's `moved` is true iff some tile's moving coordinate changed. |
| Move.CollapseLine | src/games/2048/move.ts:54-89 | Both passes keep each tile's id and line coordinate. |
| MoveLineLemmas.CollapseSurvivorsApart | src/games/2048/move.ts:68-85 | Survivors of a collapsed line stand on different cells. |
| MoveLineLemmas.CollapseRanks | src/games/2048/move.ts:68-85 | On a legal line, every tile ends within the first LiveCount places from the edge, and there are at most `size` of them. |
| MoveLineLemmas.CollapseMovedRoom | src/games/2048/move.ts:54-89 | A line that reports a move keeps fewer than `size` survivors, so its far cell is free. |
| MoveLineLemmas.CollapseUnmoved | src/games/2048/move.ts:54-89 | On a legal line, a collapse that reports no move leaves the line exactly as it was: no merge happened. |
| MoveLineLemmas.CollapseLiveSum | src/games/2048/move.ts:54-89 | The collapse keeps the line's live sum. |
| MoveLineLemmas.CollapseMovedIff | src/games/2048/move.ts:81-83 | The collapse reports a move iff some moving coordinate changed. |
| Move.ProcessLine | src/games/2048/move.ts:51-89 | One outer iteration: its own contract gives only the board's length. ProcessLineFrame, ProcessLineLiveSum, ProcessLineMovedIff, ProcessLineApart and ProcessLineRoom state its behaviour. |
| Move.ProcessLineFrame | src/games/2048/move.ts:51-89 | One line's iteration keeps every tile's id and line, and leaves the tiles of the other lines untouched. |
| MoveBoardLemmas.ProcessLineLiveSum | src/games/2048/move.ts:51-89 | One line's iteration keeps the board's live sum. |
| MoveBoardLemmas.ProcessLineMovedIff | src/games/2048/move.ts:81-83 | One line's iteration reports a move iff some tile's moving coordinate changed. |
| MoveBoardLemmas.ProcessLineUnmoved | src/games/2048/move.ts:51-89 | On a legal board, an iteration that reports no move leaves the board unchanged. |
| MoveBoardLemmas.ProcessLineApart | src/games/2048/move.ts:51-89 | An iteration keeps tiles on the board and live tiles on distinct cells. |
| MoveBoardLemmas.ProcessLineRoom | src/games/2048/move.ts:51-89 | An iteration that reports a move leaves a free cell in its line. |
| Move.MoveLines | src/games/2048/move.ts:51-90 | The outer loop from line i: its own contract gives only the board's length. The MoveLines* rows below state its behaviour. |
| MoveBoardLemmas.MoveLinesFrame | src/games/2048/move.ts:51-90 | Lines i..size keep ids and line coordinates, and the other lines are untouched. |
| MoveBoardLemmas.MoveLinesLiveSum | src/games/2048/move.ts:51-90 | The outer loop keeps the live sum. |
| MoveBoardLemmas.MoveLinesMovedIff | src/games/2048/move.ts:51-90 | The OR of the lines' flags is true iff some moving coordinate changed. |
| MoveBoardLemmas.MoveLinesApart | src/games/2048/move.ts:51-90 | The outer loop keeps every tile on the board and live tiles on distinct cells. |
| MoveBoardLemmas.MoveLinesUnmoved | src/games/2048/move.ts:51-90 | On a legal board, no reported move means no change. |
| MoveBoardLemmas.MoveLinesRoom | src/games/2048/move.ts:51-90 | A reported move leaves a free cell on the board. |
| MoveTheorems.MoveFrame | src/games/2048/move.ts:46-93 | Length, order, every id, and every line coordinate are unchanged. |
| MoveTheorems.MoveLiveSum | src/games/2048/move.ts:46-93 | The live sum after a move equals the total of the input. |
| MoveTheorems.MoveMovedIff | src/games/2048/move.ts:46-93 | `moved` is true iff some tile's moving coordinate changed. |
| MoveTheorems.MoveUnmoved | src/games/2048/move.ts:46-93 | On a legal board, a move that reports nothing returns the board unchanged. |
| MoveTheorems.MoveApart | src/games/2048/move.ts:46-93 | Every tile stays on the board, and no two live tiles share a cell. |
| MoveTheorems.MoveRoom | src/games/2048/move.ts:46-93 | A move that reports a change leaves a board cell that no tile, removed or not, takes. |
| Move.MoveTilesOfSize | src/games/2048/move.ts:46-93 | moveTiles for a board of any size keeps the number of tiles. The rest of what it promises is stated by the MoveTheorems rows above. |
| Move.MoveTiles | src/games/2048/move.ts:46-93 | moveTiles with GAME_FIELD_SIZE = 4 keeps the number of tiles. The rest is stated by the MoveTheorems rows above. |
| MoveTheorems.CollapseLone | src/games/2048/move.ts:54-89 | A line holding one live tile merges nothing: the tile slides to the edge cell, calculateTileMoving(0). |
| MoveTheorems.ProcessLineLone | src/games/2048/move.ts:51-89 | With at most one tile per line, one line's iteration marks nothing removed and puts that line's tile on the edge cell. |
| MoveTheorems.MoveLinesLone | src/games/2048/move.ts:51-90 | With at most one tile per line, the outer loop puts every tile of the lines it visits on the edge cell. |
| MoveTheorems.MoveLone | src/games/2048/move.ts:46-93 | With at most one tile per line, the move merges nothing and every tile ends on the edge cell of its line. |
| MoveTheorems.MoveRecollapse | src/games/2048/move.ts:46-93 | With at most one tile per line, collapsing the collapsed board again reports no move and returns the same tiles. |
| EngineMove.MergeLineInPlace | src/games/2048/engine.ts:91-103 | The in-place merge loop computes the merge pass. |
| EngineMove.MergeAdvanceMerge | src/games/2048/engine.ts:98-102 | A merging step advances the merge pass by one tile. |
| EngineMove.MergeAdvanceKeep | src/games/2048/engine.ts:92-97 | A non-merging step advances the merge pass by one tile. |
| EngineMove.CompactLineInPlace | src/games/2048/engine.ts:105-121 | The in-place compaction loop computes the compaction, including its `moved` flag. |
| EngineMove.CompactAdvance | src/games/2048/engine.ts:106-120 | Placing one tile advances the compaction by one tile. |
| EngineMove.LineStep | src/games/2048/engine.ts:88-122 | One iteration of the outer loop is one line of the functional move. |
| EngineMove.MoveTilesInPlace | src/games/2048/engine.ts:84-125 | engine.ts moveTiles returns exactly what move.ts moveTiles returns for a copy of the same tiles. |

## Left out

- `Math.random()`: each call is a parameter in [0, 1), so uniformity of the chosen cell and the 90/10 value ratio are not modelled. Only reachability of every cell is (`Engine.GetRandomPositionCovers`).
- Move.MoveTiles: requires that no tile is marked removed. On a removed tile that sorts first in its line, move.ts catches the TypeError and logs it (move.ts:86-88); that path is not modelled. Nothing in the repository calls move.ts `moveTiles`, so the requirement is a modelling choice. It matches what engine.ts guarantees for its own `moveTiles`, whose only caller passes the output of clearRemovedTiles (engine.ts:145-147).
- Move.MoveTilesOfSize and Move.MoveTiles: their own contracts state only the number of tiles. The behaviour of the move is stated by the MoveTheorems lemmas about them (frame, live sum, `moved`, distinct cells, room for a spawn, re-collapse), which keeps the definitions cheap to unfold.
- EngineMove.MoveTilesInPlace: requires that no tile is marked removed, for the same reason. When a removed tile sorts first in its line, engine.ts reads the coordinate of the missing entry before it (engine.ts:112-113) and throws, with no try/catch; a removed tile elsewhere in a line is handled. engine.ts `moveTiles` overwrites the coordinates of the tile objects it is given (engine.ts:84-121). The handler never observes that, because resetMergedState has already copied every tile (engine.ts:131-133, 144). So the model compares it with move.ts `moveTiles` applied to a copy of the same tiles.
- The console logging inside the try/catch of move.ts is not modelled.
- The `merged` and `isRemoved` fields are optional in `Tile`. An absent flag reads as false, which is how the model's booleans treat it.
- JavaScript numbers are modelled as unbounded integers. Tile values never approach 2^53 in a 16-cell game.
- constants.ts is not part of this model: `GAME_FIELD_SIZE` is taken to be 4 (`Move.GameFieldSize`), the same as the literal 4 of engine.ts.
- thread.ts (the promise chain that serialises turns), the React component, utils.tsx and styles.ts are not part of this model. `Engine.Play` folds turns in order in their place.
- The callbacks of the handler and of `resetGame` are modelled as return values.
- `Move.SortLine` is a stable insertion sort, as Array.prototype.sort is. Its stability is built in but not stated as a lemma. On a legal board the keys in a line are distinct, so stability does not affect the result.
