/** Properties of a whole move (src/games/2048/move.ts:46-93 and
    src/games/2048/engine.ts:84-125): what stays fixed, what the `moved`
    flag reports, that the survivors keep to distinct cells of the board
    and that a move which reports a change leaves a cell free. */
module MoveBoardLemmas {
  import opened Tiles
  import opened Move
  import opened MoveLineLemmas

  // ---------------------------------------------------------------------
  // The sorted line

  /** The indices are ordered by the comparator: nearer the destination
      edge first. */
  predicate Sorted(b: seq<Tile>, cfg: MoveConfig, ks: seq<nat>)
    requires IndicesIn(b, ks)
  {
    forall p, q :: 0 <= p < q < |ks| ==> SortKey(cfg, b[ks[p]]) <= SortKey(cfg, b[ks[q]])
  }

  /** Every index of `ks` has a key of at least `v`. */
  predicate KeysFrom(b: seq<Tile>, cfg: MoveConfig, ks: seq<nat>, v: int)
    requires IndicesIn(b, ks)
  {
    forall j :: 0 <= j < |ks| ==> v <= SortKey(cfg, b[ks[j]])
  }

  lemma {:induction false} InsertKeysFrom(b: seq<Tile>, cfg: MoveConfig, k: nat, sorted: seq<nat>, v: int)
    requires k < |b| && IndicesIn(b, sorted)
    requires KeysFrom(b, cfg, sorted, v) && v <= SortKey(cfg, b[k])
    ensures KeysFrom(b, cfg, Insert(b, cfg, k, sorted), v)
  {
    var r := Insert(b, cfg, k, sorted);
    forall j | 0 <= j < |r| ensures v <= SortKey(cfg, b[r[j]]) {
      assert r[j] in r;
      if r[j] != k {
        var q :| 0 <= q < |sorted| && sorted[q] == r[j];
      }
    }
  }

  lemma {:induction false} InsertSorted(b: seq<Tile>, cfg: MoveConfig, k: nat, sorted: seq<nat>)
    requires k < |b| && IndicesIn(b, sorted)
    requires Sorted(b, cfg, sorted)
    ensures Sorted(b, cfg, Insert(b, cfg, k, sorted))
    decreases |sorted|
  {
    if sorted != [] && Compare(cfg, b[k], b[sorted[0]]) >= 0 {
      var tail := sorted[1..];
      var v := SortKey(cfg, b[sorted[0]]);
      assert Sorted(b, cfg, tail) by {
        forall p, q | 0 <= p < q < |tail| ensures SortKey(cfg, b[tail[p]]) <= SortKey(cfg, b[tail[q]]) {
          assert tail[p] == sorted[p + 1] && tail[q] == sorted[q + 1];
        }
      }
      assert KeysFrom(b, cfg, tail, v) by {
        forall j | 0 <= j < |tail| ensures v <= SortKey(cfg, b[tail[j]]) {
          assert tail[j] == sorted[j + 1];
        }
      }
      InsertSorted(b, cfg, k, tail);
      InsertKeysFrom(b, cfg, k, tail, v);
      var rest := Insert(b, cfg, k, tail);
      var r := Insert(b, cfg, k, sorted);
      assert r == [sorted[0]] + rest;
      forall p, q | 0 <= p < q < |r| ensures SortKey(cfg, b[r[p]]) <= SortKey(cfg, b[r[q]]) {
        assert r[q] == rest[q - 1];
        if p > 0 {
          assert r[p] == rest[p - 1];
        }
      }
    } else if sorted != [] {
      var r := Insert(b, cfg, k, sorted);
      assert r == [k] + sorted;
      forall p, q | 0 <= p < q < |r| ensures SortKey(cfg, b[r[p]]) <= SortKey(cfg, b[r[q]]) {
        assert r[q] == sorted[q - 1];
        if p > 0 {
          assert r[p] == sorted[p - 1];
        } else {
          assert SortKey(cfg, b[sorted[0]]) <= SortKey(cfg, b[sorted[q - 1]]);
        }
      }
    }
  }

  /** The insertion sort orders the line by the comparator. */
  lemma {:induction false} SortLineSorted(b: seq<Tile>, cfg: MoveConfig, ks: seq<nat>)
    requires IndicesIn(b, ks)
    ensures Sorted(b, cfg, SortLine(b, cfg, ks))
    decreases |ks|
  {
    if ks != [] {
      var init := ks[..|ks| - 1];
      SortLineSorted(b, cfg, init);
      InsertSorted(b, cfg, ks[|ks| - 1], SortLine(b, cfg, init));
    }
  }

  // ---------------------------------------------------------------------
  // Ranks of a sorted line

  /** The tiles of one line, ordered toward the edge. */
  function LineTiles(b: seq<Tile>, cfg: MoveConfig, i: int): (r: seq<Tile>)
    ensures |r| == |LineOrder(b, cfg, i)|
    ensures LineLive(b, cfg, i) ==> NoneRemoved(r)
  {
    var order := LineOrder(b, cfg, i);
    assert forall j :: 0 <= j < |order| ==> order[j] in order;
    Gather(b, order)
  }

  /** A line of a board whose live tiles sit on distinct cells of the
      board, ordered by the comparator, stands at strictly increasing
      distances from the edge, each below `size`. */
  lemma LineRanks(b: seq<Tile>, cfg: MoveConfig, size: int, i: int)
    requires LiveDistinct(b) && AllOnBoard(b, size)
    requires LineLive(b, cfg, i)
    ensures NoneRemoved(LineTiles(b, cfg, i))
    ensures RanksIncreasing(cfg, size, LineTiles(b, cfg, i))
  {
    var order := LineOrder(b, cfg, i);
    var line := LineTiles(b, cfg, i);
    SortLineSorted(b, cfg, LineMembers(b, cfg, i, |b|));
    forall j | 0 <= j < |line| ensures Live(line[j]) && 0 <= Rank(cfg, size, Moving(cfg, line[j])) < size {
      assert order[j] in order;
      assert OnBoard(PosOf(b[order[j]]), size);
    }
    forall p, q | 0 <= p < q < |line|
      ensures Rank(cfg, size, Moving(cfg, line[p])) < Rank(cfg, size, Moving(cfg, line[q]))
    {
      var kp, kq := order[p], order[q];
      assert kp in order && kq in order;
      assert kp != kq by {
        LineOrderDistinct(b, cfg, i);
      }
      assert SortKey(cfg, b[kp]) <= SortKey(cfg, b[kq]);
      ApartInLine(b, cfg, kp, kq);
    }
  }

  /** Two live tiles of one line on distinct cells differ in their moving
      coordinate. */
  lemma ApartInLine(b: seq<Tile>, cfg: MoveConfig, k: nat, l: nat)
    requires LiveDistinct(b)
    requires k < |b| && l < |b| && k != l && Live(b[k]) && Live(b[l])
    requires LineIndex(cfg, b[k]) == LineIndex(cfg, b[l])
    ensures Moving(cfg, b[k]) != Moving(cfg, b[l])
  {
    if k < l {
      assert PosOf(b[k]) != PosOf(b[l]);
    } else {
      assert PosOf(b[l]) != PosOf(b[k]);
    }
    match cfg.movingAxis {
      case X =>
      case Y =>
    }
  }

  // ---------------------------------------------------------------------
  // Writing a line back

  /** What a tile adds to LiveSum. */
  function LiveValue(t: Tile): int {
    if Live(t) then t.value else 0
  }

  lemma LiveSumUpdate(b: seq<Tile>, k: nat, t: Tile)
    requires k < |b|
    ensures LiveSum(b[k := t]) == LiveSum(b) - LiveValue(b[k]) + LiveValue(t)
  {
    assert b == b[..k] + [b[k]] + b[k + 1..];
    assert b[k := t] == b[..k] + [t] + b[k + 1..];
    LiveConcat(b[..k] + [b[k]], b[k + 1..]);
    LiveConcat(b[..k], [b[k]]);
    LiveConcat(b[..k] + [t], b[k + 1..]);
    LiveConcat(b[..k], [t]);
    assert [b[k]][..0] == [] && [t][..0] == [];
  }

  lemma LiveSumCons(t: Tile, s: seq<Tile>)
    ensures LiveSum([t] + s) == LiveValue(t) + LiveSum(s)
  {
    LiveConcat([t], s);
    assert [t][..0] == [];
  }

  /** Gathering indices that avoid `k` does not see a write to `k`. */
  lemma GatherUpdate(b: seq<Tile>, ks: seq<nat>, k: nat, t: Tile)
    requires k < |b| && IndicesIn(b, ks) && k !in ks
    ensures Gather(b[k := t], ks) == Gather(b, ks)
  {
    forall j | 0 <= j < |ks| ensures b[k := t][ks[j]] == b[ks[j]] {
      assert ks[j] in ks;
    }
  }

  /** Writing a line back changes the board's LiveSum by the change of
      the line's own. */
  lemma {:induction false} ScatterLiveSum(b: seq<Tile>, ks: seq<nat>, ts: seq<Tile>)
    requires |ks| == |ts| && IndicesIn(b, ks) && Distinct(ks)
    ensures LiveSum(Scatter(b, ks, ts)) + LiveSum(Gather(b, ks)) == LiveSum(b) + LiveSum(ts)
    decreases |ks|
  {
    if ks != [] {
      var b' := b[ks[0] := ts[0]];
      DistinctTail(ks);
      assert IndicesIn(b', ks[1..]);
      ScatterLiveSum(b', ks[1..], ts[1..]);
      ScatterLiveSumStep(b, ks, ts);
    }
  }

  /** The first write of ScatterLiveSum, given the claim for the rest. */
  lemma ScatterLiveSumStep(b: seq<Tile>, ks: seq<nat>, ts: seq<Tile>)
    requires ks != [] && |ks| == |ts| && IndicesIn(b, ks) && ks[0] !in ks[1..]
    requires var b' := b[ks[0] := ts[0]];
      IndicesIn(b', ks[1..]) &&
      LiveSum(Scatter(b', ks[1..], ts[1..])) + LiveSum(Gather(b', ks[1..])) == LiveSum(b') + LiveSum(ts[1..])
    ensures LiveSum(Scatter(b, ks, ts)) + LiveSum(Gather(b, ks)) == LiveSum(b) + LiveSum(ts)
  {
    var ks', ts' := ks[1..], ts[1..];
    GatherUpdate(b, ks', ks[0], ts[0]);
    assert Gather(b, ks) == [b[ks[0]]] + Gather(b, ks');
    assert ts == [ts[0]] + ts';
    LiveSumCons(b[ks[0]], Gather(b, ks'));
    LiveSumCons(ts[0], ts');
    LiveSumUpdate(b, ks[0], ts[0]);
  }

  // ---------------------------------------------------------------------
  // One iteration of the outer loop

  /** Where tile `k` of line `i` stands in the ordered line, and that the
      iteration writes the collapsed tile of that place back to it. */
  lemma LineSlot(b: seq<Tile>, cfg: MoveConfig, size: int, i: int, k: nat) returns (j: nat)
    requires LineLive(b, cfg, i)
    requires k < |b| && LineIndex(cfg, b[k]) == i
    ensures j < |LineOrder(b, cfg, i)| && LineOrder(b, cfg, i)[j] == k
    ensures LineTiles(b, cfg, i)[j] == b[k]
    ensures ProcessLine(b, cfg, size, i).tiles[k] == CollapseLine(cfg, size, LineTiles(b, cfg, i)).tiles[j]
  {
    var order := LineOrder(b, cfg, i);
    assert k in order;
    j :| 0 <= j < |order| && order[j] == k;
    LineOrderDistinct(b, cfg, i);
    ScatterAt(b, order, CollapseLine(cfg, size, LineTiles(b, cfg, i)).tiles);
  }

  /** The iteration keeps the board's LiveSum. */
  lemma ProcessLineLiveSum(b: seq<Tile>, cfg: MoveConfig, size: int, i: int)
    requires LineLive(b, cfg, i)
    ensures LiveSum(ProcessLine(b, cfg, size, i).tiles) == LiveSum(b)
  {
    var order := LineOrder(b, cfg, i);
    var line := LineTiles(b, cfg, i);
    var c := CollapseLine(cfg, size, line);
    assert ProcessLine(b, cfg, size, i).tiles == Scatter(b, order, c.tiles);
    LineOrderDistinct(b, cfg, i);
    ScatterLiveSum(b, order, c.tiles);
    CollapseLiveSum(cfg, size, line);
  }

  /** The iteration reports a move exactly when some tile's moving
      coordinate changed. */
  lemma ProcessLineMovedIff(b: seq<Tile>, cfg: MoveConfig, size: int, i: int)
    requires LineLive(b, cfg, i)
    ensures ProcessLine(b, cfg, size, i).moved <==>
      exists k :: 0 <= k < |b| && Moving(cfg, ProcessLine(b, cfg, size, i).tiles[k]) != Moving(cfg, b[k])
  {
    var r := ProcessLine(b, cfg, size, i);
    if r.moved {
      ProcessLineMovedSome(b, cfg, size, i);
    }
    if exists k :: 0 <= k < |b| && Moving(cfg, r.tiles[k]) != Moving(cfg, b[k]) {
      var k :| 0 <= k < |b| && Moving(cfg, r.tiles[k]) != Moving(cfg, b[k]);
      ProcessLineMovedAt(b, cfg, size, i, k);
    }
  }

  lemma ProcessLineMovedSome(b: seq<Tile>, cfg: MoveConfig, size: int, i: int)
    requires LineLive(b, cfg, i)
    requires ProcessLine(b, cfg, size, i).moved
    ensures exists k :: 0 <= k < |b| && Moving(cfg, ProcessLine(b, cfg, size, i).tiles[k]) != Moving(cfg, b[k])
  {
    var order := LineOrder(b, cfg, i);
    var line := LineTiles(b, cfg, i);
    var c := CollapseLine(cfg, size, line);
    var r := ProcessLine(b, cfg, size, i);
    assert r.moved == c.moved;
    CollapseMovedIff(cfg, size, line);
    var j :| 0 <= j < |line| && Moving(cfg, c.tiles[j]) != Moving(cfg, line[j]);
    var k := order[j];
    assert k in order;
    LineOrderDistinct(b, cfg, i);
    var j' := LineSlot(b, cfg, size, i, k);
    assert Moving(cfg, r.tiles[k]) != Moving(cfg, b[k]);
  }

  lemma ProcessLineMovedAt(b: seq<Tile>, cfg: MoveConfig, size: int, i: int, k: int)
    requires LineLive(b, cfg, i)
    requires 0 <= k < |b| && Moving(cfg, ProcessLine(b, cfg, size, i).tiles[k]) != Moving(cfg, b[k])
    ensures ProcessLine(b, cfg, size, i).moved
  {
    var line := LineTiles(b, cfg, i);
    var c := CollapseLine(cfg, size, line);
    var r := ProcessLine(b, cfg, size, i);
    assert r.moved == c.moved;
    CollapseMovedIff(cfg, size, line);
    ProcessLineFrame(b, cfg, size, i);
    var j := LineSlot(b, cfg, size, i, k);
    assert Moving(cfg, c.tiles[j]) != Moving(cfg, line[j]);
  }

  /** An iteration that reports no move leaves the board as it was. */
  lemma ProcessLineUnmoved(b: seq<Tile>, cfg: MoveConfig, size: int, i: int)
    requires LiveDistinct(b) && AllOnBoard(b, size)
    requires LineLive(b, cfg, i)
    requires !ProcessLine(b, cfg, size, i).moved
    ensures ProcessLine(b, cfg, size, i).tiles == b
  {
    var line := LineTiles(b, cfg, i);
    var r := ProcessLine(b, cfg, size, i);
    LineRanks(b, cfg, size, i);
    CollapseUnmoved(cfg, size, line);
    forall k | 0 <= k < |b| ensures r.tiles[k] == b[k] {
      if LineIndex(cfg, b[k]) == i {
        var j := LineSlot(b, cfg, size, i, k);
      }
    }
  }

  /** A tile at the line coordinate of an on-board tile, and at a rank
      within the board, is on the board. */
  lemma OnBoardByRank(cfg: MoveConfig, size: int, t: Tile, u: Tile)
    requires OnBoard(PosOf(u), size) && LineIndex(cfg, t) == LineIndex(cfg, u)
    requires 0 <= Rank(cfg, size, Moving(cfg, t)) < size
    ensures OnBoard(PosOf(t), size)
  {
    match cfg.movingAxis {
      case X =>
      case Y =>
    }
  }

  /** Tiles that differ in their line or in their moving coordinate sit
      on different cells. */
  lemma CellsDiffer(cfg: MoveConfig, t: Tile, u: Tile)
    requires LineIndex(cfg, t) != LineIndex(cfg, u) || Moving(cfg, t) != Moving(cfg, u)
    ensures PosOf(t) != PosOf(u)
  {
    match cfg.movingAxis {
      case X =>
      case Y =>
    }
  }

  /** After the iteration every tile is still on the board and no two
      live tiles share a cell. */
  lemma ProcessLineApart(b: seq<Tile>, cfg: MoveConfig, size: int, i: int)
    requires 0 <= size
    requires LiveDistinct(b) && AllOnBoard(b, size)
    requires LineLive(b, cfg, i)
    ensures AllOnBoard(ProcessLine(b, cfg, size, i).tiles, size)
    ensures LiveDistinct(ProcessLine(b, cfg, size, i).tiles)
  {
    ProcessLineOnBoard(b, cfg, size, i);
    ProcessLineDistinct(b, cfg, size, i);
  }

  lemma ProcessLineOnBoard(b: seq<Tile>, cfg: MoveConfig, size: int, i: int)
    requires 0 <= size
    requires LiveDistinct(b) && AllOnBoard(b, size)
    requires LineLive(b, cfg, i)
    ensures AllOnBoard(ProcessLine(b, cfg, size, i).tiles, size)
  {
    var line := LineTiles(b, cfg, i);
    var r := ProcessLine(b, cfg, size, i).tiles;
    LineRanks(b, cfg, size, i);
    CollapseRanks(cfg, size, line);
    forall k | 0 <= k < |r| ensures OnBoard(PosOf(r[k]), size) {
      if LineIndex(cfg, b[k]) == i {
        var j := LineSlot(b, cfg, size, i, k);
        OnBoardByRank(cfg, size, r[k], b[k]);
      }
    }
  }

  lemma ProcessLineDistinct(b: seq<Tile>, cfg: MoveConfig, size: int, i: int)
    requires 0 <= size
    requires LiveDistinct(b) && AllOnBoard(b, size)
    requires LineLive(b, cfg, i)
    ensures LiveDistinct(ProcessLine(b, cfg, size, i).tiles)
  {
    var line := LineTiles(b, cfg, i);
    var r := ProcessLine(b, cfg, size, i).tiles;
    LineRanks(b, cfg, size, i);
    CollapseSurvivorsApart(cfg, size, line);
    ProcessLineFrame(b, cfg, size, i);
    forall k, l | 0 <= k < l < |r| && Live(r[k]) && Live(r[l]) ensures PosOf(r[k]) != PosOf(r[l]) {
      if LineIndex(cfg, b[k]) == i && LineIndex(cfg, b[l]) == i {
        var jk := LineSlot(b, cfg, size, i, k);
        var jl := LineSlot(b, cfg, size, i, l);
        assert jk != jl;
        CellsDiffer(cfg, r[k], r[l]);
      } else if LineIndex(cfg, b[k]) != LineIndex(cfg, b[l]) {
        CellsDiffer(cfg, r[k], r[l]);
      } else {
        assert r[k] == b[k] && r[l] == b[l];
      }
    }
  }

  /** The cell of line `i` at moving coordinate `c`. */
  function CellAt(cfg: MoveConfig, i: int, c: int): Pos {
    match cfg.movingAxis
    case X => Pos(c, i)
    case Y => Pos(i, c)
  }

  /** The line a cell belongs to. */
  function CellLine(cfg: MoveConfig, p: Pos): int {
    match cfg.movingAxis
    case X => p.y
    case Y => p.x
  }

  lemma CellAtOf(cfg: MoveConfig, t: Tile, i: int, c: int)
    ensures PosOf(t) == CellAt(cfg, i, c) <==> LineIndex(cfg, t) == i && Moving(cfg, t) == c
    ensures CellLine(cfg, PosOf(t)) == LineIndex(cfg, t)
  {
    match cfg.movingAxis {
      case X =>
      case Y =>
    }
  }

  /** An iteration that reports a move leaves a cell of its own line
      free: the survivors fill the first LiveCount places from the edge,
      fewer than `size`, and absorbed tiles sit on survivors. */
  lemma ProcessLineRoom(b: seq<Tile>, cfg: MoveConfig, size: int, i: int) returns (free: Pos)
    requires 1 <= i <= size
    requires LiveDistinct(b) && AllOnBoard(b, size)
    requires LineLive(b, cfg, i)
    requires ProcessLine(b, cfg, size, i).moved
    ensures OnBoard(free, size) && CellLine(cfg, free) == i
    ensures !Occupied(ProcessLine(b, cfg, size, i).tiles, free)
  {
    var line := LineTiles(b, cfg, i);
    var c := CollapseLine(cfg, size, line);
    var r := ProcessLine(b, cfg, size, i).tiles;
    LineRanks(b, cfg, size, i);
    CollapseRanks(cfg, size, line);
    CollapseMovedRoom(cfg, size, line);
    var m := LiveCount(c.tiles);
    var cm := TileMoving(cfg, size, m);
    free := CellAt(cfg, i, cm);
    RankOfTileMoving(cfg, size, m);
    assert 1 <= cm <= size;
    match cfg.movingAxis {
      case X => assert OnBoard(free, size);
      case Y => assert OnBoard(free, size);
    }
    forall k | 0 <= k < |r| ensures PosOf(r[k]) != free {
      CellAtOf(cfg, r[k], i, cm);
      if LineIndex(cfg, b[k]) == i {
        var j := LineSlot(b, cfg, size, i, k);
        assert Rank(cfg, size, Moving(cfg, r[k])) < m;
      }
    }
  }

  // ---------------------------------------------------------------------
  // The outer loop over lines `i` to `size`

  /** One step of the outer loop: line `i`, then the lines after it. */
  lemma MoveLinesStep(b: seq<Tile>, cfg: MoveConfig, size: int, i: int)
    requires i <= size
    requires LinesLive(b, cfg, i, size)
    ensures LineLive(b, cfg, i)
    ensures LinesLive(ProcessLine(b, cfg, size, i).tiles, cfg, i + 1, size)
    ensures MoveLines(b, cfg, size, i) ==
      Moved(MoveLines(ProcessLine(b, cfg, size, i).tiles, cfg, size, i + 1).tiles,
            ProcessLine(b, cfg, size, i).moved || MoveLines(ProcessLine(b, cfg, size, i).tiles, cfg, size, i + 1).moved)
  {
    ProcessLineFrame(b, cfg, size, i);
  }

  /** The whole pass keeps every tile's id and line, and leaves the tiles
      of lines it does not visit as they were. */
  lemma {:induction false} MoveLinesFrame(b: seq<Tile>, cfg: MoveConfig, size: int, i: int)
    requires LinesLive(b, cfg, i, size)
    ensures forall k :: 0 <= k < |b| ==> MoveLines(b, cfg, size, i).tiles[k].id == b[k].id
    ensures forall k :: 0 <= k < |b| ==>
      LineIndex(cfg, MoveLines(b, cfg, size, i).tiles[k]) == LineIndex(cfg, b[k])
    ensures forall k :: 0 <= k < |b| && !(i <= LineIndex(cfg, b[k]) <= size) ==>
      MoveLines(b, cfg, size, i).tiles[k] == b[k]
    decreases size - i, 1
  {
    if i <= size {
      MoveLinesFrameStep(b, cfg, size, i);
    } else {
      MoveLinesDone(b, cfg, size, i);
    }
  }

  lemma {:induction false} MoveLinesFrameStep(b: seq<Tile>, cfg: MoveConfig, size: int, i: int)
    requires i <= size
    requires LinesLive(b, cfg, i, size)
    ensures forall k :: 0 <= k < |b| ==> MoveLines(b, cfg, size, i).tiles[k].id == b[k].id
    ensures forall k :: 0 <= k < |b| ==>
      LineIndex(cfg, MoveLines(b, cfg, size, i).tiles[k]) == LineIndex(cfg, b[k])
    ensures forall k :: 0 <= k < |b| && !(i <= LineIndex(cfg, b[k]) <= size) ==>
      MoveLines(b, cfg, size, i).tiles[k] == b[k]
    decreases size - i, 0
  {
    var p := ProcessLine(b, cfg, size, i).tiles;
    MoveLinesStep(b, cfg, size, i);
    ProcessLineFrame(b, cfg, size, i);
    MoveLinesFrame(p, cfg, size, i + 1);
  }

  /** The outer loop ends after line `size`. */
  lemma MoveLinesDone(b: seq<Tile>, cfg: MoveConfig, size: int, i: int)
    requires i > size
    ensures MoveLines(b, cfg, size, i) == Moved(b, false)
  {
  }

  // Each property of the loop is proved by a pair of lemmas: the first
  // splits on whether a line is left, the second does one step and calls
  // the first for the remaining lines.

  lemma {:induction false} MoveLinesLiveSum(b: seq<Tile>, cfg: MoveConfig, size: int, i: int)
    requires LinesLive(b, cfg, i, size)
    ensures LiveSum(MoveLines(b, cfg, size, i).tiles) == LiveSum(b)
    decreases size - i, 1
  {
    if i <= size {
      MoveLinesLiveSumStep(b, cfg, size, i);
    } else {
      MoveLinesDone(b, cfg, size, i);
    }
  }

  lemma {:induction false} MoveLinesLiveSumStep(b: seq<Tile>, cfg: MoveConfig, size: int, i: int)
    requires i <= size
    requires LinesLive(b, cfg, i, size)
    ensures LiveSum(MoveLines(b, cfg, size, i).tiles) == LiveSum(b)
    decreases size - i, 0
  {
    var p := ProcessLine(b, cfg, size, i);
    MoveLinesStep(b, cfg, size, i);
    ProcessLineLiveSum(b, cfg, size, i);
    MoveLinesLiveSum(p.tiles, cfg, size, i + 1);
  }

  lemma {:induction false} MoveLinesMovedIff(b: seq<Tile>, cfg: MoveConfig, size: int, i: int)
    requires LinesLive(b, cfg, i, size)
    ensures MoveLines(b, cfg, size, i).moved <==>
      exists k :: 0 <= k < |b| && Moving(cfg, MoveLines(b, cfg, size, i).tiles[k]) != Moving(cfg, b[k])
    decreases size - i, 1
  {
    if i <= size {
      MoveLinesMovedIffStep(b, cfg, size, i);
    } else {
      MoveLinesDone(b, cfg, size, i);
    }
  }

  lemma {:induction false} MoveLinesMovedIffStep(b: seq<Tile>, cfg: MoveConfig, size: int, i: int)
    requires i <= size
    requires LinesLive(b, cfg, i, size)
    ensures MoveLines(b, cfg, size, i).moved <==>
      exists k :: 0 <= k < |b| && Moving(cfg, MoveLines(b, cfg, size, i).tiles[k]) != Moving(cfg, b[k])
    decreases size - i, 0
  {
    var p := MovedIffFacts(b, cfg, size, i);
    var q := MoveLines(p.tiles, cfg, size, i + 1);
    MoveLinesMovedIff(p.tiles, cfg, size, i + 1);
    MoveLinesFrame(p.tiles, cfg, size, i + 1);
    ChangedCompose(cfg, i, b, p.tiles, q.tiles, p.moved, q.moved);
  }

  /** A change made by line `i` survives the later lines, which leave line
      `i` alone, and a change they make is one line `i` did not make. */
  lemma ChangedCompose(cfg: MoveConfig, i: int, b: seq<Tile>, p: seq<Tile>, q: seq<Tile>, pm: bool, qm: bool)
    requires |p| == |b| && |q| == |b|
    requires pm <==> exists k :: 0 <= k < |b| && Moving(cfg, p[k]) != Moving(cfg, b[k])
    requires qm <==> exists k :: 0 <= k < |p| && Moving(cfg, q[k]) != Moving(cfg, p[k])
    requires forall k :: 0 <= k < |b| ==> LineIndex(cfg, p[k]) == LineIndex(cfg, b[k])
    requires forall k :: 0 <= k < |b| && LineIndex(cfg, b[k]) != i ==> p[k] == b[k]
    requires forall k :: 0 <= k < |p| && !(i + 1 <= LineIndex(cfg, p[k])) ==> q[k] == p[k]
    ensures pm || qm <==> exists k :: 0 <= k < |b| && Moving(cfg, q[k]) != Moving(cfg, b[k])
  {
    if pm {
      var k :| 0 <= k < |b| && Moving(cfg, p[k]) != Moving(cfg, b[k]);
      assert LineIndex(cfg, p[k]) == i;
      assert q[k] == p[k];
    }
    if qm {
      var k :| 0 <= k < |b| && Moving(cfg, q[k]) != Moving(cfg, p[k]);
      assert p[k] == b[k];
    }
  }

  // The facts lemmas below hand one iteration's result to a step lemma
  // without naming ProcessLine there, which keeps the step's proof small.

  lemma MovedIffFacts(b: seq<Tile>, cfg: MoveConfig, size: int, i: int) returns (p: Moved)
    requires i <= size
    requires LinesLive(b, cfg, i, size)
    ensures |p.tiles| == |b| && LinesLive(p.tiles, cfg, i + 1, size)
    ensures MoveLines(b, cfg, size, i) ==
      Moved(MoveLines(p.tiles, cfg, size, i + 1).tiles, p.moved || MoveLines(p.tiles, cfg, size, i + 1).moved)
    ensures p.moved <==> exists k :: 0 <= k < |b| && Moving(cfg, p.tiles[k]) != Moving(cfg, b[k])
    ensures forall k :: 0 <= k < |b| ==> LineIndex(cfg, p.tiles[k]) == LineIndex(cfg, b[k])
    ensures forall k :: 0 <= k < |b| && LineIndex(cfg, b[k]) != i ==> p.tiles[k] == b[k]
  {
    p := ProcessLine(b, cfg, size, i);
    MoveLinesStep(b, cfg, size, i);
    ProcessLineFrame(b, cfg, size, i);
    ProcessLineMovedIff(b, cfg, size, i);
  }

  lemma {:induction false} MoveLinesApart(b: seq<Tile>, cfg: MoveConfig, size: int, i: int)
    requires 1 <= i
    requires LiveDistinct(b) && AllOnBoard(b, size)
    requires LinesLive(b, cfg, i, size)
    ensures AllOnBoard(MoveLines(b, cfg, size, i).tiles, size)
    ensures LiveDistinct(MoveLines(b, cfg, size, i).tiles)
    decreases size - i, 1
  {
    if i <= size {
      MoveLinesApartStep(b, cfg, size, i);
    } else {
      MoveLinesDone(b, cfg, size, i);
    }
  }

  lemma {:induction false} MoveLinesApartStep(b: seq<Tile>, cfg: MoveConfig, size: int, i: int)
    requires 1 <= i <= size
    requires LiveDistinct(b) && AllOnBoard(b, size)
    requires LinesLive(b, cfg, i, size)
    ensures AllOnBoard(MoveLines(b, cfg, size, i).tiles, size)
    ensures LiveDistinct(MoveLines(b, cfg, size, i).tiles)
    decreases size - i, 0
  {
    var p := ApartFacts(b, cfg, size, i);
    MoveLinesApart(p.tiles, cfg, size, i + 1);
  }

  lemma ApartFacts(b: seq<Tile>, cfg: MoveConfig, size: int, i: int) returns (p: Moved)
    requires 1 <= i <= size
    requires LiveDistinct(b) && AllOnBoard(b, size)
    requires LinesLive(b, cfg, i, size)
    ensures LinesLive(p.tiles, cfg, i + 1, size)
    ensures LiveDistinct(p.tiles) && AllOnBoard(p.tiles, size)
    ensures MoveLines(b, cfg, size, i) ==
      Moved(MoveLines(p.tiles, cfg, size, i + 1).tiles, p.moved || MoveLines(p.tiles, cfg, size, i + 1).moved)
    ensures !p.moved ==> p.tiles == b
  {
    p := ProcessLine(b, cfg, size, i);
    MoveLinesStep(b, cfg, size, i);
    ProcessLineApart(b, cfg, size, i);
    if !p.moved {
      ProcessLineUnmoved(b, cfg, size, i);
    }
  }

  lemma RoomFacts(b: seq<Tile>, cfg: MoveConfig, size: int, i: int) returns (p: Moved, free: Pos)
    requires 1 <= i <= size
    requires LiveDistinct(b) && AllOnBoard(b, size)
    requires LinesLive(b, cfg, i, size)
    ensures LinesLive(p.tiles, cfg, i + 1, size)
    ensures LiveDistinct(p.tiles) && AllOnBoard(p.tiles, size)
    ensures MoveLines(b, cfg, size, i) ==
      Moved(MoveLines(p.tiles, cfg, size, i + 1).tiles, p.moved || MoveLines(p.tiles, cfg, size, i + 1).moved)
    ensures p.moved ==> OnBoard(free, size) && CellLine(cfg, free) == i && !Occupied(p.tiles, free)
  {
    p := ProcessLine(b, cfg, size, i);
    MoveLinesStep(b, cfg, size, i);
    ProcessLineApart(b, cfg, size, i);
    if p.moved {
      free := ProcessLineRoom(b, cfg, size, i);
    } else {
      free := Pos(1, 1);
    }
  }

  lemma {:induction false} MoveLinesUnmoved(b: seq<Tile>, cfg: MoveConfig, size: int, i: int)
    requires 1 <= i
    requires LiveDistinct(b) && AllOnBoard(b, size)
    requires LinesLive(b, cfg, i, size)
    requires !MoveLines(b, cfg, size, i).moved
    ensures MoveLines(b, cfg, size, i).tiles == b
    decreases size - i, 1
  {
    if i <= size {
      MoveLinesUnmovedStep(b, cfg, size, i);
    } else {
      MoveLinesDone(b, cfg, size, i);
    }
  }

  lemma {:induction false} MoveLinesUnmovedStep(b: seq<Tile>, cfg: MoveConfig, size: int, i: int)
    requires 1 <= i <= size
    requires LiveDistinct(b) && AllOnBoard(b, size)
    requires LinesLive(b, cfg, i, size)
    requires !MoveLines(b, cfg, size, i).moved
    ensures MoveLines(b, cfg, size, i).tiles == b
    decreases size - i, 0
  {
    var p := ApartFacts(b, cfg, size, i);
    MoveLinesUnmoved(p.tiles, cfg, size, i + 1);
  }

  /** A free cell of a line the remaining iterations do not visit stays
      free. */
  lemma MoveLinesKeepFree(b: seq<Tile>, cfg: MoveConfig, size: int, i: int, free: Pos)
    requires LinesLive(b, cfg, i, size)
    requires CellLine(cfg, free) < i
    requires !Occupied(b, free)
    ensures !Occupied(MoveLines(b, cfg, size, i).tiles, free)
  {
    var r := MoveLines(b, cfg, size, i).tiles;
    MoveLinesFrame(b, cfg, size, i);
    forall k | 0 <= k < |r| ensures PosOf(r[k]) != free {
      CellAtOf(cfg, r[k], 0, 0);
      CellAtOf(cfg, b[k], 0, 0);
    }
  }

  /** A pass that reports a move leaves a cell of the board free. */
  lemma {:induction false} MoveLinesRoom(b: seq<Tile>, cfg: MoveConfig, size: int, i: int) returns (free: Pos)
    requires 1 <= i
    requires LiveDistinct(b) && AllOnBoard(b, size)
    requires LinesLive(b, cfg, i, size)
    requires MoveLines(b, cfg, size, i).moved
    ensures OnBoard(free, size) && !Occupied(MoveLines(b, cfg, size, i).tiles, free)
    decreases size - i, 1
  {
    if i <= size {
      free := MoveLinesRoomStep(b, cfg, size, i, MoveLines(b, cfg, size, i));
    } else {
      assert false;
    }
  }

  lemma {:induction false} MoveLinesRoomStep(b: seq<Tile>, cfg: MoveConfig, size: int, i: int, r: Moved) returns (free: Pos)
    requires 1 <= i <= size
    requires LiveDistinct(b) && AllOnBoard(b, size)
    requires LinesLive(b, cfg, i, size)
    requires r == MoveLines(b, cfg, size, i) && r.moved
    ensures OnBoard(free, size) && !Occupied(r.tiles, free)
    decreases size - i, 0
  {
    var p, room := RoomFacts(b, cfg, size, i);
    if p.moved {
      free := room;
      RoomKept(cfg, size, i, p.tiles, r.tiles, free);
    } else {
      free := RoomLater(cfg, size, i, p.tiles, r);
    }
  }

  lemma RoomLater(cfg: MoveConfig, size: int, i: int, p: seq<Tile>, r: Moved) returns (free: Pos)
    requires 1 <= i && LiveDistinct(p) && AllOnBoard(p, size)
    requires LinesLive(p, cfg, i + 1, size) && r.tiles == MoveLines(p, cfg, size, i + 1).tiles
    requires r.moved == MoveLines(p, cfg, size, i + 1).moved && r.moved
    ensures OnBoard(free, size) && !Occupied(r.tiles, free)
    decreases size - i, 0, 0
  {
    free := MoveLinesRoom(p, cfg, size, i + 1);
  }

  lemma RoomKept(cfg: MoveConfig, size: int, i: int, p: seq<Tile>, r: seq<Tile>, free: Pos)
    requires LinesLive(p, cfg, i + 1, size) && r == MoveLines(p, cfg, size, i + 1).tiles
    requires CellLine(cfg, free) == i && !Occupied(p, free)
    ensures !Occupied(r, free)
  {
    MoveLinesKeepFree(p, cfg, size, i + 1, free);
  }
}
