/** The collapse of one move: every line of the board slides toward one edge
    and equal neighbours merge once (src/games/2048/move.ts). The board is a
    value here, so the copy the source makes before working is implicit. */
module Move {
  import opened Tiles

  /** GAME_FIELD_SIZE: the board is 4 by 4. */
  const GameFieldSize: int := 4

  /** One row of the direction table: which coordinate a tile slides along
      and whether it slides toward coordinate 1 (`towardStart`) or toward
      the far edge. The line a tile belongs to is its other coordinate. */
  datatype MoveConfig = MoveConfig(movingAxis: Axis, towardStart: bool)

  /** The direction table: UP and DOWN slide along y within a column x,
      LEFT and RIGHT slide along x within a row y. */
  function ConfigOf(d: Direction): (r: MoveConfig)
    ensures r.movingAxis == Y <==> d == Up || d == Down
    ensures r.towardStart <==> d == Up || d == Left
  {
    match d
    case Up => MoveConfig(Y, true)
    case Down => MoveConfig(Y, false)
    case Left => MoveConfig(X, true)
    case Right => MoveConfig(X, false)
  }

  function LineAxis(cfg: MoveConfig): Axis {
    Other(cfg.movingAxis)
  }

  /** getLineIndex */
  function LineIndex(cfg: MoveConfig, t: Tile): (r: int)
    ensures r == (if cfg.movingAxis == Y then t.x else t.y)
  {
    Coord(t, LineAxis(cfg))
  }

  /** The tile's movingCoordinate. */
  function Moving(cfg: MoveConfig, t: Tile): (r: int)
    ensures r == (if cfg.movingAxis == Y then t.y else t.x)
  {
    Coord(t, cfg.movingAxis)
  }

  /** The value sortComparator compares: smaller goes first, that is,
      nearer the destination edge. */
  function SortKey(cfg: MoveConfig, t: Tile): int {
    if cfg.towardStart then Moving(cfg, t) else -Moving(cfg, t)
  }

  /** sortComparator: negative when `a` is ordered before `b`. */
  function Compare(cfg: MoveConfig, a: Tile, b: Tile): (r: int)
    ensures r < 0 <==> SortKey(cfg, a) < SortKey(cfg, b)
    ensures r == 0 <==> Moving(cfg, a) == Moving(cfg, b)
  {
    if cfg.towardStart then Moving(cfg, a) - Moving(cfg, b) else Moving(cfg, b) - Moving(cfg, a)
  }

  /** calculateTileMoving: the moving coordinate of the survivor with the
      given 0-based rank in its line. */
  function TileMoving(cfg: MoveConfig, size: int, index: int): (r: int)
    ensures Rank(cfg, size, r) == index
    ensures 0 <= index < size ==> 1 <= r <= size
  {
    if cfg.towardStart then index + 1 else size - index
  }

  /** The distance of a moving coordinate from the destination edge, in
      cells; the inverse of TileMoving. */
  function Rank(cfg: MoveConfig, size: int, c: int): int {
    if cfg.towardStart then c - 1 else size - c
  }

  // ---------------------------------------------------------------------
  // Selecting and ordering one line (indices into the board)

  predicate IndicesIn(b: seq<Tile>, ks: seq<nat>) {
    forall j :: 0 <= j < |ks| ==> ks[j] < |b|
  }

  predicate Distinct(ks: seq<nat>) {
    forall p, q :: 0 <= p < q < |ks| ==> ks[p] != ks[q]
  }

  /** Indices below `upto` of the tiles whose line is `i`, in board order
      (the `filter` of the source). */
  function LineMembers(b: seq<Tile>, cfg: MoveConfig, i: int, upto: nat): (r: seq<nat>)
    requires upto <= |b|
    ensures IndicesIn(b, r)
    ensures forall k: nat :: k in r <==> k < upto && LineIndex(cfg, b[k]) == i
  {
    if upto == 0 then []
    else
      var init := LineMembers(b, cfg, i, upto - 1);
      if LineIndex(cfg, b[upto - 1]) == i then init + [upto - 1] else init
  }

  lemma {:induction false} LineMembersDistinct(b: seq<Tile>, cfg: MoveConfig, i: int, upto: nat)
    requires upto <= |b|
    ensures Distinct(LineMembers(b, cfg, i, upto))
  {
    if upto > 0 {
      var init := LineMembers(b, cfg, i, upto - 1);
      LineMembersDistinct(b, cfg, i, upto - 1);
      if LineIndex(cfg, b[upto - 1]) == i {
        DistinctSnoc(init, upto - 1);
      }
    }
  }

  lemma DistinctSnoc(s: seq<nat>, k: nat)
    requires Distinct(s) && k !in s
    ensures Distinct(s + [k])
  {
    forall p, q | 0 <= p < q < |s| + 1
      ensures (s + [k])[p] != (s + [k])[q]
    {
      if q == |s| {
        assert (s + [k])[p] == s[p];
      }
    }
  }

  lemma DistinctTail(ks: seq<nat>)
    requires ks != [] && Distinct(ks)
    ensures ks[0] !in ks[1..] && Distinct(ks[1..])
  {
    forall p, q | 0 <= p < q < |ks| - 1 ensures ks[1..][p] != ks[1..][q] {
      assert ks[1..][p] == ks[p + 1] && ks[1..][q] == ks[q + 1];
    }
  }

  /** Stable insertion of index `k` into an ordered line: it goes after
      every tile the comparator does not put behind it. */
  function Insert(b: seq<Tile>, cfg: MoveConfig, k: nat, sorted: seq<nat>): (r: seq<nat>)
    requires k < |b| && IndicesIn(b, sorted)
    ensures IndicesIn(b, r)
    ensures |r| == |sorted| + 1
    ensures forall x :: x in r <==> x == k || x in sorted
    ensures multiset(r) == multiset(sorted) + multiset{k}
  {
    if sorted == [] then [k]
    else if Compare(cfg, b[k], b[sorted[0]]) < 0 then [k] + sorted
    else
      var rest := Insert(b, cfg, k, sorted[1..]);
      assert sorted == [sorted[0]] + sorted[1..];
      assert forall x :: x in sorted <==> x == sorted[0] || x in sorted[1..];
      [sorted[0]] + rest
  }

  lemma {:induction false} InsertDistinct(b: seq<Tile>, cfg: MoveConfig, k: nat, sorted: seq<nat>)
    requires k < |b| && IndicesIn(b, sorted)
    requires Distinct(sorted) && k !in sorted
    ensures Distinct(Insert(b, cfg, k, sorted))
  {
    if sorted != [] && Compare(cfg, b[k], b[sorted[0]]) >= 0 {
      var rest := Insert(b, cfg, k, sorted[1..]);
      DistinctTail(sorted);
      InsertDistinct(b, cfg, k, sorted[1..]);
      var r := [sorted[0]] + rest;
      forall p, q | 0 <= p < q < |r| ensures r[p] != r[q] {
        if p == 0 {
          assert r[q] == rest[q - 1] && r[q] in rest;
        } else {
          assert r[p] == rest[p - 1] && r[q] == rest[q - 1];
        }
      }
    } else if sorted != [] {
      var r := [k] + sorted;
      forall p, q | 0 <= p < q < |r| ensures r[p] != r[q] {
        if p == 0 {
          assert r[q] == sorted[q - 1];
        } else {
          assert r[p] == sorted[p - 1] && r[q] == sorted[q - 1];
        }
      }
    }
  }

  /** The line's `sort(sortComparator)`, stable as Array.prototype.sort is. */
  function SortLine(b: seq<Tile>, cfg: MoveConfig, ks: seq<nat>): (r: seq<nat>)
    requires IndicesIn(b, ks)
    ensures IndicesIn(b, r)
    ensures |r| == |ks|
    ensures forall x :: x in r <==> x in ks
    ensures multiset(r) == multiset(ks)
  {
    if ks == [] then []
    else
      var init := ks[..|ks| - 1];
      assert ks == init + [ks[|ks| - 1]];
      Insert(b, cfg, ks[|ks| - 1], SortLine(b, cfg, init))
  }

  lemma {:induction false} SortLineDistinct(b: seq<Tile>, cfg: MoveConfig, ks: seq<nat>)
    requires IndicesIn(b, ks) && Distinct(ks)
    ensures Distinct(SortLine(b, cfg, ks))
  {
    if ks != [] {
      var init := ks[..|ks| - 1];
      assert ks == init + [ks[|ks| - 1]];
      assert ks[|ks| - 1] !in init;
      SortLineDistinct(b, cfg, init);
      InsertDistinct(b, cfg, ks[|ks| - 1], SortLine(b, cfg, init));
    }
  }

  /** `tilesInLine`: the indices of line `i`, ordered toward the edge. */
  function LineOrder(b: seq<Tile>, cfg: MoveConfig, i: int): (r: seq<nat>)
    ensures IndicesIn(b, r)
    ensures forall k: nat :: k in r <==> k < |b| && LineIndex(cfg, b[k]) == i
  {
    SortLine(b, cfg, LineMembers(b, cfg, i, |b|))
  }

  lemma LineOrderDistinct(b: seq<Tile>, cfg: MoveConfig, i: int)
    ensures Distinct(LineOrder(b, cfg, i))
  {
    LineMembersDistinct(b, cfg, i, |b|);
    SortLineDistinct(b, cfg, LineMembers(b, cfg, i, |b|));
  }

  /** The tiles at the given indices, in that order. */
  function Gather(b: seq<Tile>, ks: seq<nat>): (r: seq<Tile>)
    requires IndicesIn(b, ks)
    ensures |r| == |ks|
    ensures forall j :: 0 <= j < |ks| ==> r[j] == b[ks[j]]
  {
    seq(|ks|, j requires 0 <= j < |ks| => b[ks[j]])
  }

  /** Writes `ts[j]` back to index `ks[j]` of the board, the effect of
      mutating the tiles of `tilesInLine` in place. */
  function Scatter(b: seq<Tile>, ks: seq<nat>, ts: seq<Tile>): (r: seq<Tile>)
    requires |ks| == |ts| && IndicesIn(b, ks)
    ensures |r| == |b|
    ensures forall k :: 0 <= k < |b| && k !in ks ==> r[k] == b[k]
    decreases |ks|
  {
    if ks == [] then b
    else
      var r := Scatter(b[ks[0] := ts[0]], ks[1..], ts[1..]);
      assert forall k :: k in ks[1..] ==> k in ks;
      r
  }

  /** With distinct indices every written tile lands where it belongs. */
  lemma {:induction false} ScatterAt(b: seq<Tile>, ks: seq<nat>, ts: seq<Tile>)
    requires |ks| == |ts| && IndicesIn(b, ks) && Distinct(ks)
    ensures forall j :: 0 <= j < |ks| ==> Scatter(b, ks, ts)[ks[j]] == ts[j]
    decreases |ks|
  {
    if ks != [] {
      var b' := b[ks[0] := ts[0]];
      DistinctTail(ks);
      ScatterAt(b', ks[1..], ts[1..]);
      forall j | 0 <= j < |ks| ensures Scatter(b, ks, ts)[ks[j]] == ts[j] {
        if j > 0 {
          assert ks[j] == ks[1..][j - 1];
        }
      }
    }
  }

  // ---------------------------------------------------------------------
  // The merge pass

  /** Id and cell unchanged. */
  predicate SameSlot(a: Tile, b: Tile) {
    a.id == b.id && a.x == b.x && a.y == b.y
  }

  /** The merge pass from the tile `prev` (in its current state) onward:
      `rest` is the untouched remainder of the line. A tile merges into its
      immediate predecessor only when that predecessor is not removed and
      carries the same value; the predecessor doubles and is marked merged,
      the tile is marked removed. */
  function MergeFrom(prev: Tile, rest: seq<Tile>): (r: seq<Tile>)
    ensures |r| == |rest| + 1
    ensures r[0].isRemoved == prev.isRemoved
    ensures SameSlot(r[0], prev)
    ensures forall j :: 1 <= j < |r| ==> SameSlot(r[j], rest[j - 1])
    decreases |rest|
  {
    if rest == [] then [prev]
    else if !prev.isRemoved && prev.value == rest[0].value then
      [prev.(value := prev.value * 2, merged := true)] + MergeFrom(rest[0].(isRemoved := true), rest[1..])
    else
      [prev] + MergeFrom(rest[0], rest[1..])
  }

  /** The first `forEach` over a sorted line. */
  function MergePass(line: seq<Tile>): (r: seq<Tile>)
    ensures |r| == |line|
    ensures line != [] ==> r[0].isRemoved == line[0].isRemoved
    ensures forall j :: 0 <= j < |r| ==> SameSlot(r[j], line[j])
  {
    if line == [] then [] else MergeFrom(line[0], line[1..])
  }

  // ---------------------------------------------------------------------
  // The compaction pass

  /** The tiles of a line after one pass, and whether any moving
      coordinate changed. */
  datatype Moved = Moved(tiles: seq<Tile>, moved: bool)

  /** The second `forEach` from some tile onward. `count` is the number of
      survivors already placed and `prev` the new moving coordinate of the
      tile before (None at the head of the line, where the source has no
      previous tile). A survivor goes to calculateTileMoving(count); a
      removed tile goes where its predecessor went. */
  function CompactFrom(cfg: MoveConfig, size: int, s: seq<Tile>, count: nat, prev: Option<int>): (r: Moved)
    requires s != [] && s[0].isRemoved ==> prev.Some?
    ensures |r.tiles| == |s|
    ensures forall j {:trigger r.tiles[j]} :: 0 <= j < |s| ==> r.tiles[j] == WithCoord(s[j], cfg.movingAxis, Moving(cfg, r.tiles[j]))
    decreases |s|
  {
    if s == [] then Moved([], false)
    else
      var c := if s[0].isRemoved then prev.value else TileMoving(cfg, size, count);
      var rest := CompactFrom(cfg, size, s[1..], if s[0].isRemoved then count else count + 1, Some(c));
      Moved([WithCoord(s[0], cfg.movingAxis, c)] + rest.tiles, c != Moving(cfg, s[0]) || rest.moved)
  }

  function Compact(cfg: MoveConfig, size: int, s: seq<Tile>): (r: Moved)
    requires s == [] || Live(s[0])
    ensures |r.tiles| == |s|
    ensures forall j {:trigger r.tiles[j]} :: 0 <= j < |s| ==> r.tiles[j] == WithCoord(s[j], cfg.movingAxis, Moving(cfg, r.tiles[j]))
  {
    CompactFrom(cfg, size, s, 0, None)
  }

  /** Both passes over one sorted line. */
  function CollapseLine(cfg: MoveConfig, size: int, line: seq<Tile>): (r: Moved)
    requires line == [] || Live(line[0])
    ensures |r.tiles| == |line|
    ensures forall j {:trigger r.tiles[j]} :: 0 <= j < |line| ==> SameSlot(r.tiles[j], WithCoord(line[j], cfg.movingAxis, Moving(cfg, r.tiles[j])))
  {
    var merged := MergePass(line);
    var r := Compact(cfg, size, merged);
    assert forall j :: 0 <= j < |line| ==> SameSlot(merged[j], line[j]);
    r
  }

  // ---------------------------------------------------------------------
  // The whole board

  /** The tiles of line `i` carry no removed flag. */
  predicate LineLive(b: seq<Tile>, cfg: MoveConfig, i: int) {
    forall k :: 0 <= k < |b| && LineIndex(cfg, b[k]) == i ==> Live(b[k])
  }

  /** The tiles of lines `lo..hi` carry no removed flag. */
  predicate LinesLive(b: seq<Tile>, cfg: MoveConfig, lo: int, hi: int) {
    forall k :: 0 <= k < |b| && lo <= LineIndex(cfg, b[k]) <= hi ==> Live(b[k])
  }

  /** One iteration of the outer loop: merge and compact line `i`, writing
      the tiles back into the board. */
  function ProcessLine(b: seq<Tile>, cfg: MoveConfig, size: int, i: int): (r: Moved)
    requires LineLive(b, cfg, i)
    ensures |r.tiles| == |b|
  {
    var order := LineOrder(b, cfg, i);
    var line := Gather(b, order);
    assert line != [] ==> order[0] in order;
    var c := CollapseLine(cfg, size, line);
    Moved(Scatter(b, order, c.tiles), c.moved)
  }

  /** The iteration keeps every tile's id and line, and leaves the tiles
      of the other lines as they were. */
  lemma ProcessLineFrame(b: seq<Tile>, cfg: MoveConfig, size: int, i: int)
    requires LineLive(b, cfg, i)
    ensures forall k :: 0 <= k < |b| ==> ProcessLine(b, cfg, size, i).tiles[k].id == b[k].id
    ensures forall k :: 0 <= k < |b| ==>
      LineIndex(cfg, ProcessLine(b, cfg, size, i).tiles[k]) == LineIndex(cfg, b[k])
    ensures forall k :: 0 <= k < |b| && LineIndex(cfg, b[k]) != i ==> ProcessLine(b, cfg, size, i).tiles[k] == b[k]
  {
    var order := LineOrder(b, cfg, i);
    var line := Gather(b, order);
    assert line != [] ==> order[0] in order;
    var c := CollapseLine(cfg, size, line);
    var r := ProcessLine(b, cfg, size, i);
    assert r.tiles == Scatter(b, order, c.tiles);
    LineOrderDistinct(b, cfg, i);
    ScatterAt(b, order, c.tiles);
    forall k | 0 <= k < |b| && k in order
      ensures r.tiles[k].id == b[k].id && LineIndex(cfg, r.tiles[k]) == LineIndex(cfg, b[k])
    {
      var j :| 0 <= j < |order| && order[j] == k;
      assert r.tiles[k] == c.tiles[j];
    }
  }

  /** Lines `i` to `size` of the outer loop; `moved` is the OR over lines. */
  function MoveLines(b: seq<Tile>, cfg: MoveConfig, size: int, i: int): (r: Moved)
    requires LinesLive(b, cfg, i, size)
    ensures |r.tiles| == |b|
    decreases size - i
  {
    if i > size then Moved(b, false)
    else
      var p := ProcessLine(b, cfg, size, i);
      ProcessLineFrame(b, cfg, size, i);
      assert LinesLive(p.tiles, cfg, i + 1, size);
      var q := MoveLines(p.tiles, cfg, size, i + 1);
      Moved(q.tiles, p.moved || q.moved)
  }

  /** moveTiles on a board of the given size. */
  function MoveTilesOfSize(tiles: seq<Tile>, d: Direction, size: int): (r: Moved)
    requires NoneRemoved(tiles)
    ensures |r.tiles| == |tiles|
  {
    MoveLines(tiles, ConfigOf(d), size, 1)
  }

  /** moveTiles of move.ts: the board is GAME_FIELD_SIZE wide. */
  function MoveTiles(tiles: seq<Tile>, d: Direction): (r: Moved)
    requires NoneRemoved(tiles)
    ensures |r.tiles| == |tiles|
  {
    MoveTilesOfSize(tiles, d, GameFieldSize)
  }
}
