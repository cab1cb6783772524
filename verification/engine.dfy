/** The rules engine of the game (src/games/2048/engine.ts): free cells,
    spawning a tile, the turn-scoped flag cleanup, generating a board and
    the one-turn driver. `Math.random()` is not modelled: every call of it
    becomes a parameter in [0, 1), so each operation is a function of its
    draws. */
module Engine {
  import opened Tiles
  import opened Move
  import opened MoveTheorems

  /** The board is 4 by 4; engine.ts writes the 4 literally. */
  const Side: int := 4
  const Cells: int := Side * Side

  // ---------------------------------------------------------------------
  // Free cells

  /** Cell `p` comes before cell `q` in the enumeration of
      getAllFreePositions: x in the outer loop, y in the inner one. */
  predicate Before(p: Pos, q: Pos) {
    p.x < q.x || (p.x == q.x && p.y < q.y)
  }

  /** Cell `p` is not enumerated before cell (x, y). */
  predicate NotBefore(p: Pos, x: int, y: int) {
    p.x > x || (p.x == x && p.y >= y)
  }

  /** The cells some tile of `tiles` sits on, removed or not. */
  function Taken(tiles: seq<Tile>): (r: set<Pos>)
    ensures forall p :: p in r <==> Occupied(tiles, p)
  {
    set k | 0 <= k < |tiles| :: PosOf(tiles[k])
  }

  /** The cells outside `taken` from cell (x, y) on, in enumeration order;
      (x, 5) stands for (x + 1, 1). */
  function FreeFrom(taken: set<Pos>, x: int, y: int): seq<Pos>
    decreases Side + 1 - x, Side + 1 - y
  {
    if x > Side then []
    else if y > Side then FreeFrom(taken, x + 1, 1)
    else if Pos(x, y) in taken then FreeFrom(taken, x, y + 1)
    else [Pos(x, y)] + FreeFrom(taken, x, y + 1)
  }

  /** The cells FreeFrom lists are the free ones from (x, y) on. */
  lemma {:induction false} FreeFromMembers(taken: set<Pos>, x: int, y: int)
    requires 1 <= x && 1 <= y
    ensures forall p :: p in FreeFrom(taken, x, y) <==>
      OnBoard(p, Side) && NotBefore(p, x, y) && p !in taken
    decreases Side + 1 - x, Side + 1 - y
  {
    if x > Side {
    } else if y > Side {
      FreeFromMembers(taken, x + 1, 1);
    } else {
      FreeFromMembers(taken, x, y + 1);
      var rest := FreeFrom(taken, x, y + 1);
      var r := FreeFrom(taken, x, y);
      assert r == if Pos(x, y) in taken then rest else [Pos(x, y)] + rest;
      forall p ensures p in r <==> OnBoard(p, Side) && NotBefore(p, x, y) && p !in taken {
        assert NotBefore(p, x, y) <==> p == Pos(x, y) || NotBefore(p, x, y + 1);
      }
    }
  }

  /** FreeFrom lists its cells in enumeration order. */
  lemma {:induction false} FreeFromOrdered(taken: set<Pos>, x: int, y: int)
    requires 1 <= x && 1 <= y
    ensures forall i, j :: 0 <= i < j < |FreeFrom(taken, x, y)| ==>
      Before(FreeFrom(taken, x, y)[i], FreeFrom(taken, x, y)[j])
    decreases Side + 1 - x, Side + 1 - y
  {
    if x > Side {
    } else if y > Side {
      FreeFromOrdered(taken, x + 1, 1);
    } else {
      FreeFromOrdered(taken, x, y + 1);
      if Pos(x, y) !in taken {
        var rest := FreeFrom(taken, x, y + 1);
        var r := FreeFrom(taken, x, y);
        assert r == [Pos(x, y)] + rest;
        FreeFromMembers(taken, x, y + 1);
        forall i, j | 0 <= i < j < |r| ensures Before(r[i], r[j]) {
          assert r[j] == rest[j - 1];
          assert rest[j - 1] in rest;
          if 0 < i {
            assert r[i] == rest[i - 1];
          }
        }
      }
    }
  }

  /** getAllFreePositions: the cells of the board outside Taken(tiles),
      enumerated from (1, 1). */
  function FreePositions(tiles: seq<Tile>): seq<Pos> {
    FreeFrom(Taken(tiles), 1, 1)
  }

  /** getAllFreePositions lists exactly the cells of the board no tile
      occupies, ordered by x and then by y, so none twice. */
  lemma FreePositionsSpec(tiles: seq<Tile>)
    ensures forall p :: p in FreePositions(tiles) <==> OnBoard(p, Side) && !Occupied(tiles, p)
    ensures forall i, j :: 0 <= i < j < |FreePositions(tiles)| ==>
      Before(FreePositions(tiles)[i], FreePositions(tiles)[j])
  {
    FreeFromMembers(Taken(tiles), 1, 1);
    FreeFromOrdered(Taken(tiles), 1, 1);
  }

  /** `tiles.some(tile => tile.x === x && tile.y === y)`. */
  method AnyTileAt(tiles: seq<Tile>, x: int, y: int) returns (found: bool)
    ensures found <==> Occupied(tiles, Pos(x, y))
  {
    found := false;
    var k := 0;
    while k < |tiles| && !found
      invariant 0 <= k <= |tiles|
      invariant found <==> exists j :: 0 <= j < k && PosOf(tiles[j]) == Pos(x, y)
    {
      found := tiles[k].x == x && tiles[k].y == y;
      k := k + 1;
    }
  }

  /** getAllFreePositions with its two loops. */
  method GetAllFreePositions(tiles: seq<Tile>) returns (free: seq<Pos>)
    ensures free == FreePositions(tiles)
  {
    free := [];
    var x := 1;
    while x <= Side
      invariant 1 <= x <= Side + 1
      invariant free + FreeFrom(Taken(tiles), x, 1) == FreeFrom(Taken(tiles), 1, 1)
    {
      free := ScanColumn(tiles, x, free);
      x := x + 1;
    }
  }

  /** The inner loop of getAllFreePositions: appends the free cells with
      the given x, in the order of y. */
  method ScanColumn(tiles: seq<Tile>, x: int, free0: seq<Pos>) returns (free: seq<Pos>)
    requires 1 <= x <= Side
    ensures free0 + FreeFrom(Taken(tiles), x, 1) == free + FreeFrom(Taken(tiles), x + 1, 1)
  {
    ghost var taken := Taken(tiles);
    free := free0;
    var y := 1;
    while y <= Side
      invariant 1 <= y <= Side + 1
      invariant free0 + FreeFrom(taken, x, 1) == free + FreeFrom(taken, x, y)
    {
      var some := AnyTileAt(tiles, x, y);
      assert some <==> Pos(x, y) in taken;
      if !some {
        assert FreeFrom(taken, x, y) == [Pos(x, y)] + FreeFrom(taken, x, y + 1);
        free := free + [Pos(x, y)];
      }
      y := y + 1;
    }
  }

  // ---------------------------------------------------------------------
  // Spawning a tile

  /** `Math.floor(u * n)`: for a draw `u` in [0, 1) an index below `n`. */
  function PickIndex(u: real, n: int): (k: int)
    requires 0.0 <= u < 1.0 && 0 < n
    ensures 0 <= k < n
  {
    assert u * n as real < n as real;
    (u * n as real).Floor
  }

  /** The draw i / n picks index i. */
  lemma PickIndexOf(i: int, n: int)
    requires 0 <= i < n
    ensures 0.0 <= i as real / n as real < 1.0
    ensures PickIndex(i as real / n as real, n) == i
  {
    assert (i as real / n as real) * n as real == i as real;
  }

  /** getRandomPosition for the draw `u`: fails with "No free positions"
      exactly when no cell is free, and otherwise picks a free cell. */
  function GetRandomPosition(tiles: seq<Tile>, u: real): (r: Result<Pos>)
    requires 0.0 <= u < 1.0
    ensures r.Failure? <==> FreePositions(tiles) == []
    ensures r.Failure? ==> r.error == NoFreePositions
    ensures r.Success? ==> OnBoard(r.value, Side) && !Occupied(tiles, r.value)
  {
    FreePositionsSpec(tiles);
    var free := FreePositions(tiles);
    if |free| == 0 then Failure(NoFreePositions)
    else
      var k := PickIndex(u, |free|);
      assert free[k] in free;
      Success(free[k])
  }

  /** Every free cell is the pick of some draw. */
  lemma GetRandomPositionCovers(tiles: seq<Tile>, i: nat)
    requires i < |FreePositions(tiles)|
    ensures var u := i as real / |FreePositions(tiles)| as real;
      0.0 <= u < 1.0 && GetRandomPosition(tiles, u) == Success(FreePositions(tiles)[i])
  {
    PickIndexOf(i, |FreePositions(tiles)|);
  }

  /** The id the next tile receives: one more than the id of the LAST
      tile of the array (not the largest), or 1 when the array is empty or
      that id is 0. */
  function NextId(existing: seq<Tile>): (r: int)
    ensures r >= 1 || (|existing| > 0 && existing[|existing| - 1].id < 0)
    ensures |existing| > 0 ==> r > existing[|existing| - 1].id
  {
    var lastId := if |existing| == 0 then 0 else existing[|existing| - 1].id;
    if lastId != 0 then lastId + 1 else 1
  }

  /** The value of a spawned tile for the draw `v`: 2 below 0.9, else 4. */
  function SpawnValue(v: real): (r: int)
    ensures r == 2 || r == 4
    ensures r == 4 <==> v >= 0.9
  {
    if v < 0.9 then 2 else 4
  }

  /** createNewTile for the draws `u` (cell) and `v` (value). */
  function CreateNewTile(existing: seq<Tile>, u: real, v: real): (r: Result<Tile>)
    requires 0.0 <= u < 1.0 && 0.0 <= v < 1.0
    ensures r.Failure? <==> FreePositions(existing) == []
    ensures r.Failure? ==> r.error == NoFreePositions
    ensures r.Success? ==> OnBoard(PosOf(r.value), Side) && !Occupied(existing, PosOf(r.value))
    ensures r.Success? ==> (r.value.value == 2 || r.value.value == 4)
    ensures r.Success? ==> !r.value.merged && !r.value.isRemoved
    ensures r.Success? ==> r.value.id == NextId(existing)
  {
    match GetRandomPosition(existing, u)
    case Failure(e) => Failure(e)
    case Success(p) => Success(Tile(NextId(existing), SpawnValue(v), p.x, p.y, false, false))
  }

  /** On an array whose ids are 1..n in order, the next id is n + 1. */
  lemma NextIdCounts(existing: seq<Tile>)
    requires forall k :: 0 <= k < |existing| ==> existing[k].id == k + 1
    ensures NextId(existing) == |existing| + 1
  {
  }

  // ---------------------------------------------------------------------
  // Flags that last one turn

  /** resetMergedState: every tile with its merged flag cleared and
      nothing else changed. */
  function ResetMerged(tiles: seq<Tile>): (r: seq<Tile>)
    ensures |r| == |tiles|
    ensures forall k :: 0 <= k < |r| ==> !r[k].merged && r[k].(merged := tiles[k].merged) == tiles[k]
  {
    seq(|tiles|, k requires 0 <= k < |tiles| => tiles[k].(merged := false))
  }

  lemma ResetMergedIdempotent(tiles: seq<Tile>)
    ensures ResetMerged(ResetMerged(tiles)) == ResetMerged(tiles)
  {
  }

  /** clearRemovedTiles: the tiles not marked removed, in their order. */
  function ClearRemoved(tiles: seq<Tile>): (r: seq<Tile>)
    ensures NoneRemoved(r)
    ensures |r| == LiveCount(tiles)
    ensures forall t :: t in r <==> t in tiles && Live(t)
  {
    if tiles == [] then []
    else
      var init := tiles[..|tiles| - 1];
      var last := tiles[|tiles| - 1];
      assert forall t :: t in tiles <==> t in init || t == last;
      ClearRemoved(init) + (if Live(last) then [last] else [])
  }

  /** The kept tiles are exactly the live ones, in their order: the
      positions `idx` they come from increase and miss no live tile. */
  lemma {:induction false} ClearRemovedOrder(tiles: seq<Tile>) returns (idx: seq<int>)
    ensures |idx| == |ClearRemoved(tiles)|
    ensures forall j :: 0 <= j < |idx| ==> 0 <= idx[j] < |tiles| && ClearRemoved(tiles)[j] == tiles[idx[j]]
    ensures forall i, j :: 0 <= i < j < |idx| ==> idx[i] < idx[j]
    ensures forall k :: 0 <= k < |tiles| && Live(tiles[k]) ==> k in idx
  {
    if tiles == [] {
      idx := [];
    } else {
      var n := |tiles| - 1;
      var rest := ClearRemovedOrder(tiles[..n]);
      idx := ClearRemovedOrderStep(tiles, rest);
    }
  }

  /** The last tile of ClearRemovedOrder, given the claim for the others. */
  lemma ClearRemovedOrderStep(tiles: seq<Tile>, rest: seq<int>) returns (idx: seq<int>)
    requires tiles != []
    requires var init := tiles[..|tiles| - 1];
      && |rest| == |ClearRemoved(init)|
      && (forall j :: 0 <= j < |rest| ==> 0 <= rest[j] < |init| && ClearRemoved(init)[j] == init[rest[j]])
      && (forall i, j :: 0 <= i < j < |rest| ==> rest[i] < rest[j])
      && (forall k :: 0 <= k < |init| && Live(init[k]) ==> k in rest)
    ensures |idx| == |ClearRemoved(tiles)|
    ensures forall j :: 0 <= j < |idx| ==> 0 <= idx[j] < |tiles| && ClearRemoved(tiles)[j] == tiles[idx[j]]
    ensures forall i, j :: 0 <= i < j < |idx| ==> idx[i] < idx[j]
    ensures forall k :: 0 <= k < |tiles| && Live(tiles[k]) ==> k in idx
  {
    var n := |tiles| - 1;
    var init := tiles[..n];
    var kept := ClearRemoved(init);
    forall j | 0 <= j < |rest| ensures tiles[rest[j]] == init[rest[j]] {
    }
    if Live(tiles[n]) {
      idx := rest + [n];
      assert ClearRemoved(tiles) == kept + [tiles[n]];
    } else {
      idx := rest;
      assert ClearRemoved(tiles) == kept + [];
    }
    forall k | 0 <= k < n && Live(tiles[k]) ensures k in idx {
      assert init[k] == tiles[k];
    }
  }

  lemma {:induction false} ClearRemovedKeeps(tiles: seq<Tile>)
    requires NoneRemoved(tiles)
    ensures ClearRemoved(tiles) == tiles
  {
    if tiles != [] {
      ClearRemovedKeeps(tiles[..|tiles| - 1]);
    }
  }

  lemma ClearRemovedIdempotent(tiles: seq<Tile>)
    ensures ClearRemoved(ClearRemoved(tiles)) == ClearRemoved(tiles)
  {
    ClearRemovedKeeps(ClearRemoved(tiles));
  }

  /** The two cleanups of a turn can run in either order. */
  lemma {:induction false} CleanupsCommute(tiles: seq<Tile>)
    ensures ClearRemoved(ResetMerged(tiles)) == ResetMerged(ClearRemoved(tiles))
  {
    if tiles != [] {
      var n := |tiles| - 1;
      CleanupsCommute(tiles[..n]);
      assert ResetMerged(tiles)[..n] == ResetMerged(tiles[..n]);
    }
  }

  /** Clearing the removed tiles keeps the total of the live ones. */
  lemma {:induction false} ClearRemovedLiveSum(tiles: seq<Tile>)
    ensures TotalValue(ClearRemoved(tiles)) == LiveSum(tiles)
  {
    if tiles != [] {
      var n := |tiles| - 1;
      ClearRemovedLiveSum(tiles[..n]);
      var kept := ClearRemoved(tiles[..n]);
      if Live(tiles[n]) {
        assert ClearRemoved(tiles) == kept + [tiles[n]];
        assert (kept + [tiles[n]])[..|kept|] == kept;
      } else {
        assert ClearRemoved(tiles) == kept + [];
        assert kept + [] == kept;
      }
    }
  }

  // ---------------------------------------------------------------------
  // Counting free cells

  /** The four cells of column x. */
  function Column(x: int): set<Pos> {
    {Pos(x, 1), Pos(x, 2), Pos(x, 3), Pos(x, 4)}
  }

  lemma ColumnCells(x: int)
    ensures |Column(x)| == Side
    ensures forall p :: p in Column(x) <==> p.x == x && 1 <= p.y <= Side
  {
    assert |{Pos(x, 1), Pos(x, 2)}| == 2;
    assert |{Pos(x, 1), Pos(x, 2), Pos(x, 3)}| == 3;
  }

  /** Two disjoint sets have as many members together as apart. */
  lemma DisjointCount<T>(a: set<T>, b: set<T>)
    requires a !! b
    ensures |a + b| == |a| + |b|
  {
    assert a * b == {};
  }

  /** The sixteen cells of the board. */
  function Board(): set<Pos> {
    Column(1) + Column(2) + Column(3) + Column(4)
  }

  lemma BoardCells()
    ensures |Board()| == Cells
    ensures forall p :: p in Board() <==> OnBoard(p, Side)
  {
    ColumnCells(1);
    ColumnCells(2);
    ColumnCells(3);
    ColumnCells(4);
    DisjointCount(Column(1), Column(2));
    DisjointCount(Column(1) + Column(2), Column(3));
    DisjointCount(Column(1) + Column(2) + Column(3), Column(4));
  }

  function Elements<T>(s: seq<T>): set<T> {
    set x | x in s
  }

  /** A sequence without repetitions has as many elements as members. */
  lemma {:induction false} ElementsCount<T>(s: seq<T>)
    requires forall i, j :: 0 <= i < j < |s| ==> s[i] != s[j]
    ensures |Elements(s)| == |s|
  {
    if s != [] {
      var n := |s| - 1;
      ElementsCount(s[..n]);
      assert Elements(s) == Elements(s[..n]) + {s[n]};
      assert s[n] !in Elements(s[..n]);
    }
  }

  /** Tiles on distinct cells take one cell each. */
  lemma {:induction false} TakenCount(tiles: seq<Tile>)
    requires NoneRemoved(tiles) && LiveDistinct(tiles)
    ensures |Taken(tiles)| == |tiles|
  {
    if tiles != [] {
      var n := |tiles| - 1;
      var init := tiles[..n];
      assert NoneRemoved(init) && LiveDistinct(init);
      TakenCount(init);
      assert Taken(tiles) == Taken(init) + {PosOf(tiles[n])};
    }
  }

  /** Removing a subset removes as many members as it has. */
  lemma DifferenceCount<T>(a: set<T>, b: set<T>)
    requires a <= b
    ensures |b - a| == |b| - |a|
  {
    DisjointCount(b - a, a);
    assert (b - a) + a == b;
  }

  /** On a board whose tiles sit on distinct cells, the number of free
      cells is 16 minus the number of tiles. */
  lemma FreeCount(tiles: seq<Tile>)
    requires NoneRemoved(tiles) && LiveDistinct(tiles) && AllOnBoard(tiles, Side)
    ensures |FreePositions(tiles)| == Cells - |tiles|
  {
    var free := FreePositions(tiles);
    var taken := Taken(tiles);
    FreePositionsSpec(tiles);
    BoardCells();
    TakenCount(tiles);
    ElementsCount(free);
    assert Elements(free) == Board() - taken;
    assert taken <= Board() by {
      forall p | p in taken ensures p in Board() {
        var k :| 0 <= k < |tiles| && PosOf(tiles[k]) == p;
      }
    }
    DifferenceCount(taken, Board());
  }

  // ---------------------------------------------------------------------
  // Generating a board

  function Min(a: int, b: int): int {
    if a < b then a else b
  }

  /** A draw of Math.random(): a real in [0, 1). */
  predicate IsDraw(u: real) {
    0.0 <= u < 1.0
  }

  /** The tiles of a freshly generated board: on distinct cells of the
      board, numbered 1, 2, ... in order, valued 2 or 4, with both flags
      clear. */
  predicate Fresh(tiles: seq<Tile>) {
    && NoneRemoved(tiles)
    && LiveDistinct(tiles)
    && AllOnBoard(tiles, Side)
    && (forall k :: 0 <= k < |tiles| ==> tiles[k].id == k + 1)
    && (forall k :: 0 <= k < |tiles| ==> (tiles[k].value == 2 || tiles[k].value == 4) && !tiles[k].merged)
  }

  /** Appending a created tile keeps a board fresh. */
  lemma FreshSnoc(tiles: seq<Tile>, t: Tile)
    requires Fresh(tiles)
    requires OnBoard(PosOf(t), Side) && !Occupied(tiles, PosOf(t))
    requires (t.value == 2 || t.value == 4) && !t.merged && !t.isRemoved
    requires t.id == NextId(tiles)
    ensures Fresh(tiles + [t])
  {
    NextIdCounts(tiles);
    var s := tiles + [t];
    forall i, j | 0 <= i < j < |s| && Live(s[i]) && Live(s[j]) ensures PosOf(s[i]) != PosOf(s[j]) {
      if j == |tiles| {
        assert s[i] == tiles[i];
      }
    }
  }

  /** generateTiles(count), with the pair of draws `draws[i]` for the i-th
      createNewTile. It fails once the board is full, so exactly when more
      than 16 tiles are asked for; otherwise it returns a fresh board of
      `count` tiles (none for a count below 1). */
  method GenerateTiles(count: int, draws: seq<(real, real)>) returns (r: Result<seq<Tile>>)
    requires |draws| >= Min(count, Cells + 1)
    requires forall i :: 0 <= i < |draws| ==> IsDraw(draws[i].0) && IsDraw(draws[i].1)
    ensures r.Success? <==> count <= Cells
    ensures r.Failure? ==> r.error == NoFreePositions
    ensures r.Success? ==> |r.value| == (if count < 0 then 0 else count) && Fresh(r.value) && Legal(r.value)
  {
    var tiles: seq<Tile> := [];
    var i := 0;
    while i < count
      invariant 0 <= i <= Cells
      invariant count < 0 ==> i == 0
      invariant 0 <= count ==> i <= count
      invariant |tiles| == i && Fresh(tiles)
    {
      var (u, v) := draws[i];
      FreeCount(tiles);
      var t := CreateNewTile(tiles, u, v);
      if t.Failure? {
        return Failure(t.error);
      }
      FreshSnoc(tiles, t.value);
      tiles := tiles + [t.value];
      i := i + 1;
    }
    return Success(tiles);
  }

  /** resetGame: a fresh board of two tiles, handed to the callback. */
  method ResetGame(draws: seq<(real, real)>) returns (tiles: seq<Tile>)
    requires |draws| >= 2
    requires forall i :: 0 <= i < |draws| ==> IsDraw(draws[i].0) && IsDraw(draws[i].1)
    ensures |tiles| == 2 && Fresh(tiles) && Legal(tiles)
  {
    var r := GenerateTiles(2, draws);
    tiles := [];
    if r.Success? {
      tiles := r.value;
    }
  }

  // ---------------------------------------------------------------------
  // One turn

  /** Ids are positive and grow along the array, so no two tiles share
      one and the last tile carries the largest. */
  predicate IdsAscending(tiles: seq<Tile>) {
    && (forall k :: 0 <= k < |tiles| ==> 1 <= tiles[k].id)
    && (forall i, j :: 0 <= i < j < |tiles| ==> tiles[i].id < tiles[j].id)
  }

  /** The board stays legal: every tile on the board, no two tiles not
      marked removed on one cell, and ids ascending. */
  predicate Legal(tiles: seq<Tile>) {
    LiveDistinct(tiles) && AllOnBoard(tiles, Side) && IdsAscending(tiles)
  }

  /** The cleanup a turn starts with: merged flags reset, then removed
      tiles dropped. */
  function Cleanup(tiles: seq<Tile>): (r: seq<Tile>)
    ensures NoneRemoved(r)
    ensures forall k :: 0 <= k < |r| ==> !r[k].merged
  {
    ClearRemoved(ResetMerged(tiles))
  }

  /** gameTilesMoveActionHandler, with the value handed to the callback as
      the result: the tiles after the move, plus one created tile when the
      move changed something. It fails only where createNewTile throws. */
  function HandleMove(d: Direction, tiles: seq<Tile>, u: real, v: real): (r: Result<seq<Tile>>)
    requires IsDraw(u) && IsDraw(v)
    ensures r.Failure? <==> MoveTiles(Cleanup(tiles), d).moved && FreePositions(MoveTiles(Cleanup(tiles), d).tiles) == []
    ensures r.Failure? ==> r.error == NoFreePositions
    ensures r.Success? ==> |r.value| == |Cleanup(tiles)| + (if MoveTiles(Cleanup(tiles), d).moved then 1 else 0)
  {
    var m := MoveTiles(Cleanup(tiles), d);
    if !m.moved then Success(m.tiles)
    else
      match CreateNewTile(m.tiles, u, v)
      case Failure(e) => Failure(e)
      case Success(t) => Success(m.tiles + [t])
  }

  lemma {:induction false} ResetMergedLiveSum(tiles: seq<Tile>)
    ensures LiveSum(ResetMerged(tiles)) == LiveSum(tiles)
  {
    if tiles != [] {
      var n := |tiles| - 1;
      ResetMergedLiveSum(tiles[..n]);
      assert ResetMerged(tiles)[..n] == ResetMerged(tiles[..n]);
    }
  }

  /** Each tile after the cleanup is a live tile of the board, at the
      same cell and with the same id, taken in board order. */
  lemma CleanupSources(tiles: seq<Tile>) returns (idx: seq<int>)
    ensures |idx| == |Cleanup(tiles)|
    ensures forall k :: 0 <= k < |idx| ==> 0 <= idx[k] < |tiles| && Live(tiles[idx[k]])
    ensures forall k :: 0 <= k < |idx| ==>
      PosOf(Cleanup(tiles)[k]) == PosOf(tiles[idx[k]]) && Cleanup(tiles)[k].id == tiles[idx[k]].id
    ensures forall i, j :: 0 <= i < j < |idx| ==> idx[i] < idx[j]
  {
    var reset := ResetMerged(tiles);
    var c := Cleanup(tiles);
    idx := ClearRemovedOrder(reset);
    forall k | 0 <= k < |c| ensures Live(tiles[idx[k]]) && PosOf(c[k]) == PosOf(tiles[idx[k]]) && c[k].id == tiles[idx[k]].id {
      assert reset[idx[k]].(merged := tiles[idx[k]].merged) == tiles[idx[k]];
    }
  }

  /** The cleanup keeps every tile on the board and the tiles on
      distinct cells. */
  lemma CleanupPlaced(tiles: seq<Tile>)
    requires LiveDistinct(tiles) && AllOnBoard(tiles, Side)
    ensures LiveDistinct(Cleanup(tiles)) && AllOnBoard(Cleanup(tiles), Side)
  {
    var c := Cleanup(tiles);
    var idx := CleanupSources(tiles);
    forall i, j | 0 <= i < j < |c| ensures PosOf(c[i]) != PosOf(c[j]) {
    }
  }

  /** The cleanup keeps a legal board legal. */
  lemma CleanupLegal(tiles: seq<Tile>)
    requires Legal(tiles)
    ensures Legal(Cleanup(tiles))
  {
    var c := Cleanup(tiles);
    var idx := CleanupSources(tiles);
    CleanupPlaced(tiles);
    forall i, j | 0 <= i < j < |c| ensures c[i].id < c[j].id {
    }
  }

  /** A turn that moves nothing spawns nothing: when the live tiles sit on
      distinct cells of the board, the callback receives the cleaned-up
      tiles unchanged. */
  lemma HandleNoSpawn(d: Direction, tiles: seq<Tile>, u: real, v: real)
    requires IsDraw(u) && IsDraw(v) && LiveDistinct(tiles) && AllOnBoard(tiles, Side)
    requires !MoveTiles(Cleanup(tiles), d).moved
    ensures HandleMove(d, tiles, u, v) == Success(Cleanup(tiles))
  {
    CleanupPlaced(tiles);
    MoveUnmoved(Cleanup(tiles), d, GameFieldSize);
  }

  /** A turn that moves something appends exactly one tile to the moved
      tiles: the next id, value 2 or 4, both flags clear, on a cell no tile
      took after the move. */
  lemma HandleSpawnsOne(d: Direction, tiles: seq<Tile>, u: real, v: real)
    requires IsDraw(u) && IsDraw(v)
    requires MoveTiles(Cleanup(tiles), d).moved && HandleMove(d, tiles, u, v).Success?
    ensures var moved := MoveTiles(Cleanup(tiles), d).tiles;
      var r := HandleMove(d, tiles, u, v).value;
      && |r| == |moved| + 1 && r[..|moved|] == moved
      && r[|moved|].id == NextId(moved)
      && (r[|moved|].value == 2 || r[|moved|].value == 4)
      && !r[|moved|].merged && !r[|moved|].isRemoved
      && OnBoard(PosOf(r[|moved|]), Side) && !Occupied(moved, PosOf(r[|moved|]))
  {
    var moved := MoveTiles(Cleanup(tiles), d).tiles;
    var t := CreateNewTile(moved, u, v);
    assert (moved + [t.value])[..|moved|] == moved;
  }

  /** When the live tiles sit on distinct cells of the board, the turn
      never fails: a move that changes something always leaves a free cell
      for the new tile. */
  lemma HandleNeverFails(d: Direction, tiles: seq<Tile>, u: real, v: real)
    requires IsDraw(u) && IsDraw(v) && LiveDistinct(tiles) && AllOnBoard(tiles, Side)
    ensures HandleMove(d, tiles, u, v).Success?
  {
    var c := Cleanup(tiles);
    if MoveTiles(c, d).moved {
      CleanupPlaced(tiles);
      var free := MoveRoom(c, d, GameFieldSize);
      FreePositionsSpec(MoveTiles(c, d).tiles);
      assert free in FreePositions(MoveTiles(c, d).tiles);
    }
  }

  /** Adding a tile with the next id on a cell no tile takes keeps a
      board legal. */
  lemma LegalSnoc(tiles: seq<Tile>, t: Tile)
    requires Legal(tiles) && OnBoard(PosOf(t), Side) && !Occupied(tiles, PosOf(t))
    requires t.id == NextId(tiles)
    ensures Legal(tiles + [t])
  {
    var r := tiles + [t];
    forall i, j | 0 <= i < j < |r| ensures r[i].id < r[j].id && (Live(r[i]) && Live(r[j]) ==> PosOf(r[i]) != PosOf(r[j])) {
      assert r[i] == tiles[i];
      if j == |tiles| {
        assert tiles[i].id <= tiles[|tiles| - 1].id;
      }
    }
  }

  /** The move keeps a legal board legal. */
  lemma MoveLegal(tiles: seq<Tile>, d: Direction)
    requires NoneRemoved(tiles) && Legal(tiles)
    ensures Legal(MoveTiles(tiles, d).tiles)
  {
    MoveApart(tiles, d, GameFieldSize);
    MoveFrame(tiles, d, GameFieldSize);
  }

  /** The turn keeps the board legal. */
  lemma HandleLegal(d: Direction, tiles: seq<Tile>, u: real, v: real)
    requires IsDraw(u) && IsDraw(v) && Legal(tiles)
    ensures HandleMove(d, tiles, u, v).Success? && Legal(HandleMove(d, tiles, u, v).value)
  {
    HandleNeverFails(d, tiles, u, v);
    var c := Cleanup(tiles);
    CleanupLegal(tiles);
    MoveLegal(c, d);
    var m := MoveTiles(c, d);
    if m.moved {
      LegalSnoc(m.tiles, CreateNewTile(m.tiles, u, v).value);
    }
  }

  /** Merging only moves value between tiles: after a turn the tiles not
      marked removed add up to what they did before, plus the new tile. */
  lemma HandleLiveSum(d: Direction, tiles: seq<Tile>, u: real, v: real)
    requires IsDraw(u) && IsDraw(v) && HandleMove(d, tiles, u, v).Success?
    ensures var r := HandleMove(d, tiles, u, v).value;
      LiveSum(r) == LiveSum(tiles) + (if MoveTiles(Cleanup(tiles), d).moved then r[|r| - 1].value else 0)
  {
    var c := Cleanup(tiles);
    ResetMergedLiveSum(tiles);
    ClearRemovedLiveSum(ResetMerged(tiles));
    MoveLiveSum(c, d, GameFieldSize);
    var m := MoveTiles(c, d);
    if m.moved {
      var r := HandleMove(d, tiles, u, v).value;
      assert r[..|r| - 1] == m.tiles;
    }
  }

  // ---------------------------------------------------------------------
  // A game

  /** A player's turn: the direction and the two draws of the spawn. */
  datatype Turn = Turn(d: Direction, u: real, v: real)

  predicate TurnDraws(turns: seq<Turn>) {
    forall i :: 0 <= i < |turns| ==> IsDraw(turns[i].u) && IsDraw(turns[i].v)
  }

  /** The board after playing `turns` in order, or the first failure. */
  function Play(tiles: seq<Tile>, turns: seq<Turn>): Result<seq<Tile>>
    requires TurnDraws(turns)
    decreases |turns|
  {
    if turns == [] then Success(tiles)
    else
      match HandleMove(turns[0].d, tiles, turns[0].u, turns[0].v)
      case Failure(e) => Failure(e)
      case Success(next) => Play(next, turns[1..])
  }

  /** From a legal board (a freshly generated one is), any sequence of
      turns succeeds and ends on a legal board. */
  lemma {:induction false} PlayLegal(tiles: seq<Tile>, turns: seq<Turn>)
    requires TurnDraws(turns) && Legal(tiles)
    ensures Play(tiles, turns).Success? && Legal(Play(tiles, turns).value)
    decreases |turns|
  {
    if turns != [] {
      HandleLegal(turns[0].d, tiles, turns[0].u, turns[0].v);
      var next := HandleMove(turns[0].d, tiles, turns[0].u, turns[0].v).value;
      PlayLegal(next, turns[1..]);
    }
  }
}
