/** moveTiles of engine.ts (src/games/2048/engine.ts:84-125): the same
    collapse as move.ts, written as loops that overwrite the tiles of each
    line in place. Each loop is shown to compute the functional definition
    of the Move module, so the two moveTiles of the repository agree. */
module EngineMove {
  import opened Tiles
  import opened Move
  import opened MoveBoardLemmas

  /** Visiting the tile at `index` advances the merge pass by one tile:
      the tile merges into its predecessor. */
  lemma MergeAdvanceMerge(line: seq<Tile>, out: seq<Tile>, index: int, next: seq<Tile>)
    requires 1 <= index < |line| == |out| && out[index..] == line[index..]
    requires !out[index - 1].isRemoved && out[index - 1].value == out[index].value
    requires next == out[index - 1 := out[index - 1].(value := out[index - 1].value * 2, merged := true)]
                        [index := out[index].(isRemoved := true)]
    ensures next[index + 1..] == line[index + 1..]
    ensures out[..index - 1] + MergeFrom(out[index - 1], line[index..]) ==
      next[..index] + MergeFrom(next[index], line[index + 1..])
  {
    var rest := line[index..];
    assert rest[0] == out[index] && rest[1..] == line[index + 1..];
    var m := MergeFrom(next[index], line[index + 1..]);
    assert MergeFrom(out[index - 1], rest) == [next[index - 1]] + m;
    assert next[..index] == out[..index - 1] + [next[index - 1]];
    assert next[index + 1..] == out[index + 1..];
  }

  /** Visiting the tile at `index` advances the merge pass by one tile:
      the tile stays as it is. */
  lemma MergeAdvanceKeep(line: seq<Tile>, out: seq<Tile>, index: int)
    requires 1 <= index < |line| == |out| && out[index..] == line[index..]
    requires !(!out[index - 1].isRemoved && out[index - 1].value == out[index].value)
    ensures out[index + 1..] == line[index + 1..]
    ensures out[..index - 1] + MergeFrom(out[index - 1], line[index..]) ==
      out[..index] + MergeFrom(out[index], line[index + 1..])
  {
    var rest := line[index..];
    assert rest[0] == out[index] && rest[1..] == line[index + 1..];
    var m := MergeFrom(out[index], line[index + 1..]);
    assert MergeFrom(out[index - 1], rest) == [out[index - 1]] + m;
    assert out[..index] == out[..index - 1] + [out[index - 1]];
  }

  /** The first `forEach` of a line: each tile looks at its predecessor,
      already updated, and merges into it when that predecessor is not
      removed and has the same value. */
  method MergeLineInPlace(line: seq<Tile>) returns (out: seq<Tile>)
    ensures out == MergePass(line)
  {
    out := line;
    if |line| == 0 {
      return;
    }
    var index := 1;
    while index < |out|
      invariant 1 <= index <= |line| == |out|
      invariant out[index..] == line[index..]
      invariant out[..index - 1] + MergeFrom(out[index - 1], line[index..]) == MergePass(line)
    {
      var prev := out[index - 1];
      var tile := out[index];
      if !prev.isRemoved && prev.value == tile.value {
        var next := out[index - 1 := prev.(value := prev.value * 2, merged := true)][index := tile.(isRemoved := true)];
        MergeAdvanceMerge(line, out, index, next);
        out := next;
      } else {
        MergeAdvanceKeep(line, out, index);
      }
      index := index + 1;
    }
    assert out[..index - 1] + [out[index - 1]] == out;
  }

  /** The moving coordinate the tile before `index` was given, if any. */
  function PrevPlaced(cfg: MoveConfig, out: seq<Tile>, index: int): Option<int>
    requires 0 <= index <= |out|
  {
    if index == 0 then None else Some(Moving(cfg, out[index - 1]))
  }

  /** What is left of the compaction of a line once its first `index`
      tiles are placed in `out`, `count` of them survivors. */
  function CompactRest(cfg: MoveConfig, size: int, line: seq<Tile>, out: seq<Tile>, index: int, count: nat): Moved
    requires 0 <= index <= |line| == |out|
    requires index == 0 ==> line == [] || Live(line[0])
  {
    CompactFrom(cfg, size, line[index..], count, PrevPlaced(cfg, out, index))
  }

  /** Placing the tile at `index` at coordinate `c` advances the
      compaction by one tile. */
  lemma CompactAdvance(cfg: MoveConfig, size: int, line: seq<Tile>, out: seq<Tile>, index: int, count: nat, c: int)
    requires 0 <= index < |line| == |out| && out[index] == line[index]
    requires index == 0 ==> Live(line[0])
    requires c == if line[index].isRemoved then Moving(cfg, out[index - 1]) else TileMoving(cfg, size, count)
    ensures var placed := WithCoord(line[index], cfg.movingAxis, c);
      var next := CompactRest(cfg, size, line, out[index := placed], index + 1,
                              if line[index].isRemoved then count else count + 1);
      && out[..index] + CompactRest(cfg, size, line, out, index, count).tiles ==
         out[index := placed][..index + 1] + next.tiles
      && CompactRest(cfg, size, line, out, index, count).moved == (c != Moving(cfg, line[index]) || next.moved)
  {
    var placed := WithCoord(line[index], cfg.movingAxis, c);
    assert line[index..][1..] == line[index + 1..];
    assert PrevPlaced(cfg, out[index := placed], index + 1) == Some(c);
    assert out[index := placed][..index + 1] == out[..index] + [placed];
  }

  /** The second `forEach` of a line: survivors take the next slot from
      the edge, removed tiles follow their predecessor, and `moved`
      records any changed coordinate. */
  method CompactLineInPlace(cfg: MoveConfig, size: int, line: seq<Tile>) returns (out: seq<Tile>, moved: bool)
    requires line == [] || Live(line[0])
    ensures Moved(out, moved) == Compact(cfg, size, line)
  {
    out := line;
    moved := false;
    var count: nat := 0;
    var index := 0;
    while index < |out|
      invariant 0 <= index <= |line| == |out|
      invariant out[index..] == line[index..]
      invariant Compact(cfg, size, line).tiles == out[..index] + CompactRest(cfg, size, line, out, index, count).tiles
      invariant Compact(cfg, size, line).moved == (moved || CompactRest(cfg, size, line, out, index, count).moved)
    {
      var tile := out[index];
      assert tile == line[index];
      var c: int;
      if !tile.isRemoved {
        c := TileMoving(cfg, size, count);
      } else {
        c := Moving(cfg, out[index - 1]);
      }
      CompactAdvance(cfg, size, line, out, index, count, c);
      if c != Moving(cfg, tile) {
        moved := true;
      }
      if !tile.isRemoved {
        count := count + 1;
      }
      out := out[index := WithCoord(tile, cfg.movingAxis, c)];
      index := index + 1;
    }
    assert out[..index] == out;
  }

  /** One iteration of the outer loop, as the Move module defines it. */
  lemma LineStep(r: seq<Tile>, cfg: MoveConfig, i: int, order: seq<nat>, line: seq<Tile>, lineMoved: bool)
    requires 1 <= i <= GameFieldSize && LinesLive(r, cfg, i, GameFieldSize)
    requires order == LineOrder(r, cfg, i)
    requires Gather(r, order) == [] || Live(Gather(r, order)[0])
    requires Moved(line, lineMoved) == CollapseLine(cfg, GameFieldSize, Gather(r, order))
    ensures LinesLive(Scatter(r, order, line), cfg, i + 1, GameFieldSize)
    ensures MoveLines(r, cfg, GameFieldSize, i) ==
      Moved(MoveLines(Scatter(r, order, line), cfg, GameFieldSize, i + 1).tiles,
            lineMoved || MoveLines(Scatter(r, order, line), cfg, GameFieldSize, i + 1).moved)
  {
    MoveLinesStep(r, cfg, GameFieldSize, i);
    assert ProcessLine(r, cfg, GameFieldSize, i) == Moved(Scatter(r, order, line), lineMoved);
  }

  /** The first tile of a line is not removed. */
  lemma LineHeadLive(r: seq<Tile>, cfg: MoveConfig, i: int)
    requires LineLive(r, cfg, i)
    ensures Gather(r, LineOrder(r, cfg, i)) == [] || Live(Gather(r, LineOrder(r, cfg, i))[0])
  {
    var order := LineOrder(r, cfg, i);
    if order != [] {
      assert order[0] in order;
    }
  }

  /** moveTiles of engine.ts: for each line 1..4, filter and sort its
      tiles, run both passes over them and write them back. The result is
      the functional moveTiles of the Move module. */
  method MoveTilesInPlace(tiles: seq<Tile>, d: Direction) returns (r: seq<Tile>, moved: bool)
    requires NoneRemoved(tiles)
    ensures Moved(r, moved) == MoveTiles(tiles, d)
  {
    var cfg := ConfigOf(d);
    r := tiles;
    moved := false;
    var i := 1;
    while i <= GameFieldSize
      invariant 1 <= i <= GameFieldSize + 1
      invariant LinesLive(r, cfg, i, GameFieldSize)
      invariant MoveTiles(tiles, d) ==
        Moved(MoveLines(r, cfg, GameFieldSize, i).tiles, moved || MoveLines(r, cfg, GameFieldSize, i).moved)
    {
      var order := LineOrder(r, cfg, i);
      var line := Gather(r, order);
      LineHeadLive(r, cfg, i);
      var merged := MergeLineInPlace(line);
      var lineMoved;
      line, lineMoved := CompactLineInPlace(cfg, GameFieldSize, merged);
      LineStep(r, cfg, i, order, line, lineMoved);
      r := Scatter(r, order, line);
      moved := moved || lineMoved;
      i := i + 1;
    }
  }
}
