/** Properties of one line of the collapse (src/games/2048/move.ts:52-80,
    the same loops as src/games/2048/engine.ts:89-121): the merge rule, the
    survivors' new places and the `moved` flag. */
module MoveLineLemmas {
  import opened Tiles
  import opened Move

  // ---------------------------------------------------------------------
  // The merge pass

  /** What the merge pass does to a line without removed tiles, position by
      position: a tile is removed exactly when its predecessor survived and
      had the same value; a tile doubles and is marked merged exactly when
      its successor is removed. Ids and cells do not change. */
  lemma MergePassRule(line: seq<Tile>)
    requires NoneRemoved(line)
    ensures |MergePass(line)| == |line|
    ensures forall j :: 0 <= j < |line| ==> SameSlot(MergePass(line)[j], line[j])
    ensures forall j :: 0 <= j < |line| ==>
      (MergePass(line)[j].isRemoved <==>
        j > 0 && !MergePass(line)[j - 1].isRemoved && line[j - 1].value == line[j].value)
    ensures forall j :: 0 <= j < |line| ==>
      MergePass(line)[j].value ==
        (if j + 1 < |line| && MergePass(line)[j + 1].isRemoved then 2 * line[j].value else line[j].value)
    ensures forall j :: 0 <= j < |line| ==>
      MergePass(line)[j].merged == (line[j].merged || (j + 1 < |line| && MergePass(line)[j + 1].isRemoved))
  {
    forall j | 0 <= j < |line| {
      MergePassAt(line, j);
    }
  }

  lemma MergePassAt(line: seq<Tile>, j: nat)
    requires NoneRemoved(line)
    requires j < |line|
    ensures MergePass(line)[j].isRemoved <==>
      j > 0 && !MergePass(line)[j - 1].isRemoved && line[j - 1].value == line[j].value
    ensures MergePass(line)[j].value ==
      (if j + 1 < |line| && MergePass(line)[j + 1].isRemoved then 2 * line[j].value else line[j].value)
    ensures MergePass(line)[j].merged == (line[j].merged || (j + 1 < |line| && MergePass(line)[j + 1].isRemoved))
  {
    assert [line[0]] + line[1..] == line;
    assert NoneRemoved(line[1..]) by {
      forall k | 0 <= k < |line[1..]| ensures Live(line[1..][k]) {
        assert line[1..][k] == line[k + 1];
      }
    }
    assert Live(line[0]);
    MergeFromAt(line[0], line[1..], j);
  }

  /** MergePassRule at position `j` of the merge pass resumed at `prev`. */
  lemma {:induction false} MergeFromAt(prev: Tile, rest: seq<Tile>, j: nat)
    requires NoneRemoved(rest)
    requires j <= |rest|
    ensures var r, src := MergeFrom(prev, rest), [prev] + rest;
      && (j == 0 ==> (r[0].isRemoved <==> prev.isRemoved))
      && (j > 0 ==> (r[j].isRemoved <==> !r[j - 1].isRemoved && src[j - 1].value == src[j].value))
      && r[j].value == (if j + 1 < |r| && r[j + 1].isRemoved then 2 * src[j].value else src[j].value)
      && r[j].merged == (src[j].merged || (j + 1 < |r| && r[j + 1].isRemoved))
    decreases |rest|
  {
    if rest != [] {
      var r, src := MergeFrom(prev, rest), [prev] + rest;
      var merge := !prev.isRemoved && prev.value == rest[0].value;
      var head := if merge then rest[0].(isRemoved := true) else rest[0];
      var tail := MergeFrom(head, rest[1..]);
      assert r[1..] == tail;
      assert tail[0].isRemoved == merge;
      if j > 0 {
        assert NoneRemoved(rest[1..]) by {
          forall k | 0 <= k < |rest[1..]| ensures Live(rest[1..][k]) {
            assert rest[1..][k] == rest[k + 1];
          }
        }
        MergeFromAt(head, rest[1..], j - 1);
        var src' := [head] + rest[1..];
        assert r[j] == tail[j - 1];
        assert j + 1 < |r| ==> r[j + 1] == tail[j];
        assert src[j].value == src'[j - 1].value && src[j].merged == src'[j - 1].merged;
        if j > 1 {
          assert r[j - 1] == tail[j - 2];
          assert src[j - 1].value == src'[j - 2].value;
        }
      }
    }
  }

  /** Merging keeps the sum of the survivors' values: an absorbed value
      reappears in the tile that absorbed it. */
  lemma MergePassLiveSum(line: seq<Tile>)
    requires NoneRemoved(line)
    ensures LiveSum(MergePass(line)) == LiveSum(line)
  {
    if line != [] {
      MergeFromLiveSum(line[0], line[1..]);
      assert [line[0]] + line[1..] == line;
    }
  }

  lemma {:induction false} MergeFromLiveSum(prev: Tile, rest: seq<Tile>)
    requires NoneRemoved(rest)
    ensures LiveSum(MergeFrom(prev, rest)) == LiveSum([prev] + rest)
    decreases |rest|
  {
    if rest != [] {
      var merge := !prev.isRemoved && prev.value == rest[0].value;
      var p' := if merge then prev.(value := prev.value * 2, merged := true) else prev;
      var head := if merge then rest[0].(isRemoved := true) else rest[0];
      assert NoneRemoved(rest[1..]) by {
        forall k | 0 <= k < |rest[1..]| ensures Live(rest[1..][k]) {
          assert rest[1..][k] == rest[k + 1];
        }
      }
      MergeFromLiveSum(head, rest[1..]);
      LiveConcat([p'], MergeFrom(head, rest[1..]));
      LiveConcat([head], rest[1..]);
      LiveConcat([prev], rest);
      LiveConcat([rest[0]], rest[1..]);
      assert [rest[0]] + rest[1..] == rest;
      assert LiveSum([p']) == LiveSum([prev]) + (if merge then prev.value else 0);
      assert LiveSum([head]) + (if merge then prev.value else 0) == LiveSum([rest[0]]);
    } else {
      assert [prev] + rest == [prev];
    }
  }

  /** Three equal tiles in a line give [4, 2]: only the leading pair merges,
      and the third tile does not merge into the removed one. */
  lemma TripleMerge()
    ensures var line := [Tile(1, 2, 1, 1, false, false), Tile(2, 2, 1, 2, false, false), Tile(3, 2, 1, 3, false, false)];
      var r := MergePass(line);
      && r[0].value == 4 && r[0].merged && !r[0].isRemoved
      && r[1].isRemoved
      && r[2].value == 2 && !r[2].merged && !r[2].isRemoved
  {
    var line := [Tile(1, 2, 1, 1, false, false), Tile(2, 2, 1, 2, false, false), Tile(3, 2, 1, 3, false, false)];
    MergePassRule(line);
  }

  /** Four equal tiles give [4, 4], not [8]. */
  lemma QuadrupleMerge()
    ensures var line := [Tile(1, 2, 1, 1, false, false), Tile(2, 2, 1, 2, false, false),
                         Tile(3, 2, 1, 3, false, false), Tile(4, 2, 1, 4, false, false)];
      var r := MergePass(line);
      && r[0].value == 4 && !r[0].isRemoved && r[1].isRemoved
      && r[2].value == 4 && !r[2].isRemoved && r[3].isRemoved
  {
    var line := [Tile(1, 2, 1, 1, false, false), Tile(2, 2, 1, 2, false, false),
                 Tile(3, 2, 1, 3, false, false), Tile(4, 2, 1, 4, false, false)];
    MergePassRule(line);
  }

  // ---------------------------------------------------------------------
  // The compaction pass

  /** Where the compaction puts each tile: the survivor with `m` survivors
      before it goes to calculateTileMoving(m), that is m + 1 toward the
      start and size - m toward the far edge; a removed tile goes to the
      place of the tile before it. Only the moving coordinate changes. */
  lemma CompactPlaces(cfg: MoveConfig, size: int, s: seq<Tile>)
    requires s == [] || Live(s[0])
    ensures forall j :: 0 <= j < |s| ==>
      Compact(cfg, size, s).tiles[j] == WithCoord(s[j], cfg.movingAxis, Moving(cfg, Compact(cfg, size, s).tiles[j]))
    ensures forall j :: 0 <= j < |s| && Live(s[j]) ==>
      Moving(cfg, Compact(cfg, size, s).tiles[j]) ==
        (if cfg.towardStart then LiveCount(s[..j]) + 1 else size - LiveCount(s[..j]))
    ensures forall j :: 0 <= j < |s| && !Live(s[j]) ==>
      j > 0 && Moving(cfg, Compact(cfg, size, s).tiles[j]) == Moving(cfg, Compact(cfg, size, s).tiles[j - 1])
  {
    forall j | 0 <= j < |s| {
      CompactFromAt(cfg, size, s, 0, None, j);
    }
  }

  lemma {:induction false} CompactFromAt(cfg: MoveConfig, size: int, s: seq<Tile>, count: nat, prev: Option<int>, j: nat)
    requires s != [] && s[0].isRemoved ==> prev.Some?
    requires j < |s|
    ensures Live(s[j]) ==>
      Moving(cfg, CompactFrom(cfg, size, s, count, prev).tiles[j]) == TileMoving(cfg, size, count + LiveCount(s[..j]))
    ensures !Live(s[j]) && j == 0 ==> Moving(cfg, CompactFrom(cfg, size, s, count, prev).tiles[j]) == prev.value
    ensures !Live(s[j]) && j > 0 ==>
      Moving(cfg, CompactFrom(cfg, size, s, count, prev).tiles[j]) ==
        Moving(cfg, CompactFrom(cfg, size, s, count, prev).tiles[j - 1])
    decreases j, 1
  {
    if j == 0 {
      assert s[..0] == [];
    } else {
      CompactFromAtStep(cfg, size, s, count, prev, j);
    }
  }

  lemma {:induction false} CompactFromAtStep(cfg: MoveConfig, size: int, s: seq<Tile>, count: nat, prev: Option<int>, j: nat)
    requires s != [] && s[0].isRemoved ==> prev.Some?
    requires 0 < j < |s|
    ensures Live(s[j]) ==>
      Moving(cfg, CompactFrom(cfg, size, s, count, prev).tiles[j]) == TileMoving(cfg, size, count + LiveCount(s[..j]))
    ensures !Live(s[j]) ==>
      Moving(cfg, CompactFrom(cfg, size, s, count, prev).tiles[j]) ==
        Moving(cfg, CompactFrom(cfg, size, s, count, prev).tiles[j - 1])
    decreases j, 0
  {
    var r := CompactFrom(cfg, size, s, count, prev).tiles;
    var c := if s[0].isRemoved then prev.value else TileMoving(cfg, size, count);
    var count' := if s[0].isRemoved then count else count + 1;
    var rest := CompactFrom(cfg, size, s[1..], count', Some(c)).tiles;
    CompactFromShift(cfg, size, s, count, prev, j);
    CompactFromAt(cfg, size, s[1..], count', Some(c), j - 1);
    LiveCountCons(s, j);
  }

  /** Tiles `j` and `j - 1` of a compaction are those of the compaction of
      the tail, one place earlier; the head goes to `c`. */
  lemma CompactFromShift(cfg: MoveConfig, size: int, s: seq<Tile>, count: nat, prev: Option<int>, j: nat)
    requires s != [] && s[0].isRemoved ==> prev.Some?
    requires 0 < j < |s|
    ensures var c := if s[0].isRemoved then prev.value else TileMoving(cfg, size, count);
      var rest := CompactFrom(cfg, size, s[1..], if s[0].isRemoved then count else count + 1, Some(c)).tiles;
      CompactFrom(cfg, size, s, count, prev).tiles[j] == rest[j - 1] && s[j] == s[1..][j - 1] &&
      Moving(cfg, CompactFrom(cfg, size, s, count, prev).tiles[j - 1]) == (if j == 1 then c else Moving(cfg, rest[j - 2]))
  {
    var c := if s[0].isRemoved then prev.value else TileMoving(cfg, size, count);
    var rest := CompactFrom(cfg, size, s[1..], if s[0].isRemoved then count else count + 1, Some(c)).tiles;
    assert CompactFrom(cfg, size, s, count, prev).tiles == [WithCoord(s[0], cfg.movingAxis, c)] + rest;
  }

  lemma LiveCountCons(s: seq<Tile>, j: nat)
    requires 0 < j <= |s|
    ensures LiveCount(s[..j]) == (if Live(s[0]) then 1 else 0) + LiveCount(s[1..][..j - 1])
  {
    assert s[..j] == [s[0]] + s[1..][..j - 1];
    LiveConcat([s[0]], s[1..][..j - 1]);
    assert [s[0]][..0] == [];
  }

  /** The compaction reports a move exactly when some tile's moving
      coordinate differs from the one it had. */
  lemma CompactMoved(cfg: MoveConfig, size: int, s: seq<Tile>)
    requires s == [] || Live(s[0])
    ensures Compact(cfg, size, s).moved <==>
      exists j :: 0 <= j < |s| && Moving(cfg, Compact(cfg, size, s).tiles[j]) != Moving(cfg, s[j])
  {
    CompactFromMoved(cfg, size, s, 0, None);
  }

  lemma {:induction false} CompactFromMoved(cfg: MoveConfig, size: int, s: seq<Tile>, count: nat, prev: Option<int>)
    requires s != [] && s[0].isRemoved ==> prev.Some?
    ensures var r := CompactFrom(cfg, size, s, count, prev);
      r.moved <==> exists j :: 0 <= j < |s| && Moving(cfg, r.tiles[j]) != Moving(cfg, s[j])
    decreases |s|
  {
    if s != [] {
      var r := CompactFrom(cfg, size, s, count, prev);
      var c := if s[0].isRemoved then prev.value else TileMoving(cfg, size, count);
      var count' := if s[0].isRemoved then count else count + 1;
      var rest := CompactFrom(cfg, size, s[1..], count', Some(c));
      CompactFromMoved(cfg, size, s[1..], count', Some(c));
      assert r.tiles == [WithCoord(s[0], cfg.movingAxis, c)] + rest.tiles;
      if rest.moved {
        var j :| 0 <= j < |s[1..]| && Moving(cfg, rest.tiles[j]) != Moving(cfg, s[1..][j]);
        assert Moving(cfg, r.tiles[j + 1]) != Moving(cfg, s[j + 1]);
      }
      if exists j :: 0 <= j < |s| && Moving(cfg, r.tiles[j]) != Moving(cfg, s[j]) {
        var j :| 0 <= j < |s| && Moving(cfg, r.tiles[j]) != Moving(cfg, s[j]);
        if j > 0 {
          assert Moving(cfg, rest.tiles[j - 1]) != Moving(cfg, s[1..][j - 1]);
        }
      }
    }
  }

  // ---------------------------------------------------------------------
  // Ranks: where a line stands relative to its destination edge

  lemma RankOfTileMoving(cfg: MoveConfig, size: int, m: int)
    ensures Rank(cfg, size, TileMoving(cfg, size, m)) == m
  {
  }

  /** The moving coordinates of a line ordered toward the edge, each at a
      different place on a board of `size` cells. */
  predicate RanksIncreasing(cfg: MoveConfig, size: int, line: seq<Tile>) {
    && (forall j :: 0 <= j < |line| ==> 0 <= Rank(cfg, size, Moving(cfg, line[j])) < size)
    && (forall p, q :: 0 <= p < q < |line| ==>
          Rank(cfg, size, Moving(cfg, line[p])) < Rank(cfg, size, Moving(cfg, line[q])))
  }

  lemma {:induction false} RanksGap(cfg: MoveConfig, size: int, line: seq<Tile>, p: nat, q: nat)
    requires RanksIncreasing(cfg, size, line)
    requires p <= q < |line|
    ensures Rank(cfg, size, Moving(cfg, line[q])) - Rank(cfg, size, Moving(cfg, line[p])) >= q - p
    decreases q - p
  {
    if p < q {
      RanksGap(cfg, size, line, p, q - 1);
    }
  }

  /** A line of distinct cells has at most `size` tiles. */
  lemma RanksLength(cfg: MoveConfig, size: int, line: seq<Tile>)
    requires 0 <= size
    requires RanksIncreasing(cfg, size, line)
    ensures |line| <= size
  {
    if line != [] {
      RanksGap(cfg, size, line, 0, |line| - 1);
      assert 0 <= Rank(cfg, size, Moving(cfg, line[0]));
      assert Rank(cfg, size, Moving(cfg, line[|line| - 1])) < size;
    }
  }

  /** Every tile of a collapsed line ends strictly inside the first
      `LiveCount` places of the line, and there are at most `size` of them. */
  lemma CollapseRanks(cfg: MoveConfig, size: int, line: seq<Tile>)
    requires 0 <= size
    requires NoneRemoved(line)
    requires RanksIncreasing(cfg, size, line)
    ensures LiveCount(CollapseLine(cfg, size, line).tiles) <= size
    ensures forall j :: 0 <= j < |line| ==>
      0 <= Rank(cfg, size, Moving(cfg, CollapseLine(cfg, size, line).tiles[j])) < LiveCount(CollapseLine(cfg, size, line).tiles)
  {
    var merged := MergePass(line);
    var out := CollapseLine(cfg, size, line).tiles;
    assert out == Compact(cfg, size, merged).tiles;
    assert LiveCount(out) == LiveCount(merged) by {
      LiveCountSameFlags(out, merged);
    }
    assert LiveCount(merged) <= size by {
      LiveCountBound(merged);
      RanksLength(cfg, size, line);
    }
    forall j | 0 <= j < |line|
      ensures 0 <= Rank(cfg, size, Moving(cfg, out[j])) < LiveCount(out)
    {
      RankBelowCount(cfg, size, merged, out, j);
    }
  }

  /** Each tile's rank in a compacted line is below its number of
      survivors. */
  lemma RankBelowCount(cfg: MoveConfig, size: int, merged: seq<Tile>, out: seq<Tile>, j: nat)
    requires merged == [] || Live(merged[0])
    requires out == Compact(cfg, size, merged).tiles
    requires j < |merged|
    ensures 0 <= Rank(cfg, size, Moving(cfg, out[j])) < LiveCount(merged)
  {
    RankBelowPrefix(cfg, size, merged, out, j);
    LiveCountMono(merged, j + 1, |merged|);
    assert merged[..|merged|] == merged;
  }

  /** Survivors of a collapsed line stand on different cells. */
  lemma CollapseSurvivorsApart(cfg: MoveConfig, size: int, line: seq<Tile>)
    requires NoneRemoved(line)
    ensures forall p, q ::
      0 <= p < q < |line| && Live(CollapseLine(cfg, size, line).tiles[p]) && Live(CollapseLine(cfg, size, line).tiles[q]) ==>
        Moving(cfg, CollapseLine(cfg, size, line).tiles[p]) != Moving(cfg, CollapseLine(cfg, size, line).tiles[q])
  {
    var merged := MergePass(line);
    var out := CollapseLine(cfg, size, line).tiles;
    assert out == Compact(cfg, size, merged).tiles;
    CompactPlaces(cfg, size, merged);
    forall p, q | 0 <= p < q < |line| && Live(out[p]) && Live(out[q])
      ensures Moving(cfg, out[p]) != Moving(cfg, out[q])
    {
      LiveCountStep(merged, p);
      LiveCountMono(merged, p + 1, q);
    }
  }

  /** A collapsed line that reports a move keeps fewer than `size`
      survivors, so one of its cells is left free. */
  lemma CollapseMovedRoom(cfg: MoveConfig, size: int, line: seq<Tile>)
    requires 0 <= size
    requires NoneRemoved(line)
    requires RanksIncreasing(cfg, size, line)
    ensures CollapseLine(cfg, size, line).moved ==> LiveCount(CollapseLine(cfg, size, line).tiles) < size
  {
    var merged := MergePass(line);
    var c := CollapseLine(cfg, size, line);
    assert c == Compact(cfg, size, merged);
    assert LiveCount(c.tiles) == LiveCount(merged) by {
      LiveCountSameFlags(c.tiles, merged);
    }
    RanksLength(cfg, size, line);
    LiveCountBound(merged);
    if c.moved && NoneRemoved(merged) {
      MovedWithoutMerge(cfg, size, line);
    }
  }

  /** Nothing merged but a tile moved: some tile j went to rank j from a
      rank further out, so the line is shorter than the board. */
  lemma MovedWithoutMerge(cfg: MoveConfig, size: int, line: seq<Tile>)
    requires NoneRemoved(line)
    requires RanksIncreasing(cfg, size, line)
    requires NoneRemoved(MergePass(line))
    requires Compact(cfg, size, MergePass(line)).moved
    ensures |line| < size
  {
    NoMergeUnchanged(line);
    var j := CompactMovedOffRank(cfg, size, line);
    MovedTileRoom(cfg, size, line, j);
  }

  /** Compacting a line without removed tiles moves a tile only if some
      tile j did not stand at rank j. */
  lemma CompactMovedOffRank(cfg: MoveConfig, size: int, s: seq<Tile>) returns (j: nat)
    requires NoneRemoved(s)
    requires Compact(cfg, size, s).moved
    ensures j < |s| && Rank(cfg, size, Moving(cfg, s[j])) != j
  {
    var c := Compact(cfg, size, s);
    CompactMoved(cfg, size, s);
    j :| 0 <= j < |s| && Moving(cfg, c.tiles[j]) != Moving(cfg, s[j]);
    var placed := Moving(cfg, c.tiles[j]);
    assert placed == TileMoving(cfg, size, j) by {
      assert Live(s[j]);
      CompactFromAt(cfg, size, s, 0, None, j);
      NoneRemovedPrefix(s, j);
    }
    RankInverse(cfg, size, Moving(cfg, s[j]), j);
  }

  /** A coordinate has rank m only when it is calculateTileMoving(m). */
  lemma RankInverse(cfg: MoveConfig, size: int, c: int, m: int)
    ensures Rank(cfg, size, c) == m <==> c == TileMoving(cfg, size, m)
  {
  }

  /** Every tile of a prefix of a line without removed tiles is live. */
  lemma NoneRemovedPrefix(s: seq<Tile>, j: nat)
    requires NoneRemoved(s) && j <= |s|
    ensures LiveCount(s[..j]) == j
  {
    assert NoneRemoved(s[..j]) by {
      forall k | 0 <= k < j ensures Live(s[..j][k]) {
        assert s[..j][k] == s[k];
      }
    }
    NoneRemovedLiveSum(s[..j]);
  }

  /** In a line of increasing ranks, a tile j whose rank is not j stands
      further out, and so does every tile after it: the line is shorter
      than the board. */
  lemma MovedTileRoom(cfg: MoveConfig, size: int, line: seq<Tile>, j: nat)
    requires RanksIncreasing(cfg, size, line)
    requires j < |line|
    requires Rank(cfg, size, Moving(cfg, line[j])) != j
    ensures |line| < size
  {
    RanksGap(cfg, size, line, 0, j);
    RanksGap(cfg, size, line, j, |line| - 1);
  }

  /** A collapsed line that does not report a move is left exactly as it
      was: no tile merged and none changed place. */
  lemma CollapseUnmoved(cfg: MoveConfig, size: int, line: seq<Tile>)
    requires NoneRemoved(line)
    requires RanksIncreasing(cfg, size, line)
    requires !CollapseLine(cfg, size, line).moved
    ensures CollapseLine(cfg, size, line).tiles == line
  {
    var merged := MergePass(line);
    var c := CollapseLine(cfg, size, line);
    assert c == Compact(cfg, size, merged);
    CompactMoved(cfg, size, merged);
    if !NoneRemoved(merged) {
      // the absorbed tile k lands on the place of tile k - 1, so one of
      // the two changed place, which `moved` would have reported
      var k :| 0 <= k < |merged| && !Live(merged[k]);
      CompactFromAt(cfg, size, merged, 0, None, k);
      assert k > 0;
      assert Moving(cfg, c.tiles[k]) == Moving(cfg, merged[k]);
      assert Moving(cfg, c.tiles[k - 1]) == Moving(cfg, merged[k - 1]);
      assert SameSlot(merged[k], line[k]) && SameSlot(merged[k - 1], line[k - 1]);
      assert Moving(cfg, line[k]) == Moving(cfg, line[k - 1]) by {
        SameSlotMoving(cfg, merged[k], line[k]);
        SameSlotMoving(cfg, merged[k - 1], line[k - 1]);
      }
      assert false;
    }
    NoMergeUnchanged(line);
    forall j | 0 <= j < |line| ensures c.tiles[j] == line[j] {
      UnmovedTile(cfg, c.tiles[j], line[j]);
    }
  }

  lemma SameSlotMoving(cfg: MoveConfig, a: Tile, b: Tile)
    requires SameSlot(a, b)
    ensures Moving(cfg, a) == Moving(cfg, b) && LineIndex(cfg, a) == LineIndex(cfg, b)
  {
  }

  /** A merge pass that removes nothing changes nothing. */
  lemma NoMergeUnchanged(line: seq<Tile>)
    requires NoneRemoved(line)
    requires NoneRemoved(MergePass(line))
    ensures MergePass(line) == line
  {
    var r := MergePass(line);
    MergePassRule(line);
    forall j | 0 <= j < |line| ensures r[j] == line[j] {
      MergePassAt(line, j);
      assert !r[j].isRemoved && Live(line[j]);
      assert j + 1 < |line| ==> !r[j + 1].isRemoved;
    }
  }

  lemma UnmovedTile(cfg: MoveConfig, t: Tile, u: Tile)
    requires t == WithCoord(u, cfg.movingAxis, Moving(cfg, t))
    requires Moving(cfg, t) == Moving(cfg, u)
    ensures t == u
  {
    match cfg.movingAxis {
      case X =>
      case Y =>
    }
  }

  lemma LiveCountSameFlags(a: seq<Tile>, b: seq<Tile>)
    requires |a| == |b|
    requires forall j :: 0 <= j < |a| ==> Live(a[j]) == Live(b[j])
    ensures LiveCount(a) == LiveCount(b)
  {
    if a != [] {
      LiveCountSameFlags(a[..|a| - 1], b[..|b| - 1]);
    }
  }

  /** In a compacted line, each tile's rank is below the number of
      survivors up to and including it. */
  lemma {:induction false} RankBelowPrefix(cfg: MoveConfig, size: int, merged: seq<Tile>, out: seq<Tile>, j: nat)
    requires merged == [] || Live(merged[0])
    requires out == Compact(cfg, size, merged).tiles
    requires j < |merged|
    ensures 0 <= Rank(cfg, size, Moving(cfg, out[j])) < LiveCount(merged[..j + 1])
    decreases j
  {
    CompactPlaces(cfg, size, merged);
    LiveCountStep(merged, j);
    if Live(merged[j]) {
      RankOfTileMoving(cfg, size, LiveCount(merged[..j]));
    } else {
      RankBelowPrefix(cfg, size, merged, out, j - 1);
    }
  }

  lemma LiveSumSameValues(a: seq<Tile>, b: seq<Tile>)
    requires |a| == |b|
    requires forall j :: 0 <= j < |a| ==> Live(a[j]) == Live(b[j]) && a[j].value == b[j].value
    ensures LiveSum(a) == LiveSum(b)
  {
    if a != [] {
      LiveSumSameValues(a[..|a| - 1], b[..|b| - 1]);
    }
  }

  // ---------------------------------------------------------------------
  // A whole line

  /** Collapsing a line keeps the sum of its survivors' values. */
  lemma CollapseLiveSum(cfg: MoveConfig, size: int, line: seq<Tile>)
    requires NoneRemoved(line)
    ensures LiveSum(CollapseLine(cfg, size, line).tiles) == LiveSum(line)
  {
    var merged := MergePass(line);
    assert CollapseLine(cfg, size, line) == Compact(cfg, size, merged);
    MergePassLiveSum(line);
    LiveSumSameValues(Compact(cfg, size, merged).tiles, merged);
  }

  /** A collapsed line reports a move exactly when some tile's moving
      coordinate changed. */
  lemma CollapseMovedIff(cfg: MoveConfig, size: int, line: seq<Tile>)
    requires line == [] || Live(line[0])
    ensures CollapseLine(cfg, size, line).moved <==>
      exists j :: 0 <= j < |line| && Moving(cfg, CollapseLine(cfg, size, line).tiles[j]) != Moving(cfg, line[j])
  {
    var merged := MergePass(line);
    var c := CollapseLine(cfg, size, line);
    assert c == Compact(cfg, size, merged);
    CompactMoved(cfg, size, merged);
    forall j | 0 <= j < |line| ensures Moving(cfg, merged[j]) == Moving(cfg, line[j]) {
      SameSlotMoving(cfg, merged[j], line[j]);
    }
  }
}
