/** What one call of moveTiles promises about the whole board
    (src/games/2048/move.ts:46-93 and src/games/2048/engine.ts:84-125),
    for any board size and for the 4 by 4 board of the game. */
module MoveTheorems {
  import opened Tiles
  import opened Move
  import opened MoveBoardLemmas

  lemma AllLinesLive(tiles: seq<Tile>, cfg: MoveConfig, size: int)
    requires NoneRemoved(tiles)
    ensures LinesLive(tiles, cfg, 1, size)
  {
  }

  /** The move keeps the array's length and order, every tile's id and
      every tile's line coordinate (x for UP/DOWN, y for LEFT/RIGHT). */
  lemma MoveFrame(tiles: seq<Tile>, d: Direction, size: int)
    requires NoneRemoved(tiles)
    ensures |MoveTilesOfSize(tiles, d, size).tiles| == |tiles|
    ensures forall k :: 0 <= k < |tiles| ==> MoveTilesOfSize(tiles, d, size).tiles[k].id == tiles[k].id
    ensures forall k :: 0 <= k < |tiles| ==>
      Coord(MoveTilesOfSize(tiles, d, size).tiles[k], LineAxis(ConfigOf(d))) == Coord(tiles[k], LineAxis(ConfigOf(d)))
  {
    AllLinesLive(tiles, ConfigOf(d), size);
    MoveLinesFrame(tiles, ConfigOf(d), size, 1);
  }

  /** Merging only moves value between tiles: the values of the tiles not
      marked removed add up to the total of the input. */
  lemma MoveLiveSum(tiles: seq<Tile>, d: Direction, size: int)
    requires NoneRemoved(tiles)
    ensures LiveSum(MoveTilesOfSize(tiles, d, size).tiles) == TotalValue(tiles)
  {
    AllLinesLive(tiles, ConfigOf(d), size);
    MoveLinesLiveSum(tiles, ConfigOf(d), size, 1);
    NoneRemovedLiveSum(tiles);
  }

  /** `moved` is reported exactly when some tile's moving coordinate
      changed. */
  lemma MoveMovedIff(tiles: seq<Tile>, d: Direction, size: int)
    requires NoneRemoved(tiles)
    ensures MoveTilesOfSize(tiles, d, size).moved <==>
      exists k :: 0 <= k < |tiles| &&
        Moving(ConfigOf(d), MoveTilesOfSize(tiles, d, size).tiles[k]) != Moving(ConfigOf(d), tiles[k])
  {
    AllLinesLive(tiles, ConfigOf(d), size);
    MoveLinesMovedIff(tiles, ConfigOf(d), size, 1);
  }

  /** On a board whose tiles sit on distinct cells, a move that reports
      nothing leaves every tile exactly as it was: no merge happened. */
  lemma MoveUnmoved(tiles: seq<Tile>, d: Direction, size: int)
    requires NoneRemoved(tiles) && LiveDistinct(tiles) && AllOnBoard(tiles, size)
    requires !MoveTilesOfSize(tiles, d, size).moved
    ensures MoveTilesOfSize(tiles, d, size).tiles == tiles
  {
    AllLinesLive(tiles, ConfigOf(d), size);
    MoveLinesUnmoved(tiles, ConfigOf(d), size, 1);
  }

  /** The move keeps every tile on the board and no two tiles not marked
      removed on the same cell. */
  lemma MoveApart(tiles: seq<Tile>, d: Direction, size: int)
    requires NoneRemoved(tiles) && LiveDistinct(tiles) && AllOnBoard(tiles, size)
    ensures AllOnBoard(MoveTilesOfSize(tiles, d, size).tiles, size)
    ensures LiveDistinct(MoveTilesOfSize(tiles, d, size).tiles)
  {
    AllLinesLive(tiles, ConfigOf(d), size);
    MoveLinesApart(tiles, ConfigOf(d), size, 1);
  }

  /** A move that reports a change leaves a cell of the board that no tile,
      removed or not, occupies. */
  lemma MoveRoom(tiles: seq<Tile>, d: Direction, size: int) returns (free: Pos)
    requires NoneRemoved(tiles) && LiveDistinct(tiles) && AllOnBoard(tiles, size)
    requires MoveTilesOfSize(tiles, d, size).moved
    ensures OnBoard(free, size) && !Occupied(MoveTilesOfSize(tiles, d, size).tiles, free)
  {
    AllLinesLive(tiles, ConfigOf(d), size);
    free := MoveLinesRoom(tiles, ConfigOf(d), size, 1);
  }

  // ---------------------------------------------------------------------
  // Boards with at most one tile per line

  /** No two tiles share a line of the direction: a column for UP and
      DOWN, a row for LEFT and RIGHT. */
  predicate OnePerLine(tiles: seq<Tile>, cfg: MoveConfig) {
    forall k, l :: 0 <= k < l < |tiles| ==> LineIndex(cfg, tiles[k]) != LineIndex(cfg, tiles[l])
  }

  /** A line holding a single tile does not merge: the tile slides to the
      edge cell and stays live. */
  lemma CollapseLone(cfg: MoveConfig, size: int, t: Tile)
    requires Live(t)
    ensures CollapseLine(cfg, size, [t]).tiles == [WithCoord(t, cfg.movingAxis, TileMoving(cfg, size, 0))]
  {
    assert MergePass([t]) == [t];
    assert [t][1..] == [];
  }

  /** On a board with at most one tile per line, one iteration of the outer
      loop slides the tile of line `i` to the edge and marks nothing removed. */
  lemma ProcessLineLone(b: seq<Tile>, cfg: MoveConfig, size: int, i: int)
    requires NoneRemoved(b) && OnePerLine(b, cfg)
    ensures NoneRemoved(ProcessLine(b, cfg, size, i).tiles)
    ensures forall k :: 0 <= k < |b| && LineIndex(cfg, b[k]) == i ==>
      ProcessLine(b, cfg, size, i).tiles[k] == WithCoord(b[k], cfg.movingAxis, TileMoving(cfg, size, 0))
  {
    var r := ProcessLine(b, cfg, size, i).tiles;
    ProcessLineFrame(b, cfg, size, i);
    forall k | 0 <= k < |b| && LineIndex(cfg, b[k]) == i
      ensures r[k] == WithCoord(b[k], cfg.movingAxis, TileMoving(cfg, size, 0))
    {
      var j := LineSlot(b, cfg, size, i, k);
      var order := LineOrder(b, cfg, i);
      LineOrderDistinct(b, cfg, i);
      forall p | 0 <= p < |order| ensures order[p] == k {
        assert order[p] in order;
      }
      if |order| > 1 {
        assert false;
      }
      var line := LineTiles(b, cfg, i);
      assert line == [b[k]];
      CollapseLone(cfg, size, b[k]);
    }
  }

  /** The outer loop from line `i` on, on a board with at most one tile per
      line: every tile of lines `i..size` ends at the edge cell. */
  lemma {:induction false} MoveLinesLone(b: seq<Tile>, cfg: MoveConfig, size: int, i: int)
    requires NoneRemoved(b) && OnePerLine(b, cfg)
    ensures NoneRemoved(MoveLines(b, cfg, size, i).tiles)
    ensures forall k :: 0 <= k < |b| && i <= LineIndex(cfg, b[k]) <= size ==>
      MoveLines(b, cfg, size, i).tiles[k] == WithCoord(b[k], cfg.movingAxis, TileMoving(cfg, size, 0))
    decreases size - i
  {
    if i <= size {
      MoveLinesStep(b, cfg, size, i);
      var p := ProcessLine(b, cfg, size, i).tiles;
      ProcessLineLone(b, cfg, size, i);
      ProcessLineFrame(b, cfg, size, i);
      assert OnePerLine(p, cfg);
      MoveLinesLone(p, cfg, size, i + 1);
      MoveLinesFrame(p, cfg, size, i + 1);
      LoneCompose(cfg, size, i, b, p, MoveLines(p, cfg, size, i + 1).tiles, TileMoving(cfg, size, 0));
    } else {
      MoveLinesDone(b, cfg, size, i);
    }
  }

  /** Line `i` settled by one iteration (`b` to `p`) and lines `i+1..size`
      by the rest of the loop (`p` to `q`) make lines `i..size` settled. */
  lemma LoneCompose(cfg: MoveConfig, size: int, i: int, b: seq<Tile>, p: seq<Tile>, q: seq<Tile>, edge: int)
    requires |p| == |b| && |q| == |b|
    requires forall k :: 0 <= k < |b| ==> LineIndex(cfg, p[k]) == LineIndex(cfg, b[k])
    requires forall k :: 0 <= k < |b| && LineIndex(cfg, b[k]) == i ==> p[k] == WithCoord(b[k], cfg.movingAxis, edge)
    requires forall k :: 0 <= k < |b| && LineIndex(cfg, b[k]) != i ==> p[k] == b[k]
    requires forall k :: 0 <= k < |p| && i + 1 <= LineIndex(cfg, p[k]) <= size ==> q[k] == WithCoord(p[k], cfg.movingAxis, edge)
    requires forall k :: 0 <= k < |p| && !(i + 1 <= LineIndex(cfg, p[k]) <= size) ==> q[k] == p[k]
    ensures forall k :: 0 <= k < |b| && i <= LineIndex(cfg, b[k]) <= size ==> q[k] == WithCoord(b[k], cfg.movingAxis, edge)
  {
  }

  /** On a board with at most one tile per line of the direction, the move
      merges nothing and puts every tile on the edge cell of its line. */
  lemma MoveLone(tiles: seq<Tile>, d: Direction, size: int)
    requires NoneRemoved(tiles) && AllOnBoard(tiles, size) && OnePerLine(tiles, ConfigOf(d))
    ensures NoneRemoved(MoveTilesOfSize(tiles, d, size).tiles)
    ensures forall k :: 0 <= k < |tiles| ==>
      MoveTilesOfSize(tiles, d, size).tiles[k] ==
        WithCoord(tiles[k], ConfigOf(d).movingAxis, TileMoving(ConfigOf(d), size, 0))
  {
    var cfg := ConfigOf(d);
    MoveLinesLone(tiles, cfg, size, 1);
    forall k | 0 <= k < |tiles| ensures 1 <= LineIndex(cfg, tiles[k]) <= size {
      assert OnBoard(PosOf(tiles[k]), size);
    }
  }

  /** Collapsing the result of a collapse again reports no move and
      returns the same tiles, on a board with at most one tile per line. */
  lemma MoveRecollapse(tiles: seq<Tile>, d: Direction, size: int)
    requires NoneRemoved(tiles) && AllOnBoard(tiles, size) && OnePerLine(tiles, ConfigOf(d))
    ensures NoneRemoved(MoveTilesOfSize(tiles, d, size).tiles)
    ensures !MoveTilesOfSize(MoveTilesOfSize(tiles, d, size).tiles, d, size).moved
    ensures MoveTilesOfSize(MoveTilesOfSize(tiles, d, size).tiles, d, size).tiles == MoveTilesOfSize(tiles, d, size).tiles
  {
    var cfg := ConfigOf(d);
    var once := MoveTilesOfSize(tiles, d, size);
    MoveLone(tiles, d, size);
    assert OnePerLine(once.tiles, cfg);
    assert AllOnBoard(once.tiles, size) by {
      forall k | 0 <= k < |once.tiles| ensures OnBoard(PosOf(once.tiles[k]), size) {
        assert OnBoard(PosOf(tiles[k]), size);
      }
    }
    MoveLone(once.tiles, d, size);
    var twice := MoveTilesOfSize(once.tiles, d, size);
    assert twice.tiles == once.tiles;
    MoveMovedIff(once.tiles, d, size);
  }
}
