/** The tile record, the four move directions and the small helpers every
    other module shares (src/games/2048/types.ts). */
module Tiles {

  /** A value that may be absent, as `undefined` is in the source. */
  datatype Option<+T> = None | Some(value: T)

  /** The only failure the engine raises: "No free positions". */
  datatype Error = NoFreePositions

  datatype Result<+T> = Success(value: T) | Failure(error: Error)

  /** A grid cell; coordinates are 1-based. */
  datatype Pos = Pos(x: int, y: int)

  /** One tile of the board. `merged` and `isRemoved` are the turn-scoped
      flags: an absorbing tile is `merged`, an absorbed one `isRemoved`. */
  datatype Tile = Tile(id: int, value: int, x: int, y: int, merged: bool, isRemoved: bool)

  datatype Direction = Up | Down | Left | Right

  /** The two coordinates of a tile. */
  datatype Axis = X | Y

  function Other(a: Axis): Axis {
    match a
    case X => Y
    case Y => X
  }

  function PosOf(t: Tile): Pos {
    Pos(t.x, t.y)
  }

  function Coord(t: Tile, a: Axis): int {
    match a
    case X => t.x
    case Y => t.y
  }

  /** The tile moved along axis `a` to coordinate `c`; nothing else changes. */
  function WithCoord(t: Tile, a: Axis, c: int): (r: Tile)
    ensures Coord(r, a) == c
    ensures Coord(r, Other(a)) == Coord(t, Other(a))
    ensures r.id == t.id && r.value == t.value
    ensures r.merged == t.merged && r.isRemoved == t.isRemoved
  {
    match a
    case X => t.(x := c)
    case Y => t.(y := c)
  }

  predicate Live(t: Tile) {
    !t.isRemoved
  }

  predicate NoneRemoved(s: seq<Tile>) {
    forall k :: 0 <= k < |s| ==> Live(s[k])
  }

  /** Number of tiles not marked removed. */
  function LiveCount(s: seq<Tile>): nat {
    if s == [] then 0
    else LiveCount(s[..|s| - 1]) + (if Live(s[|s| - 1]) then 1 else 0)
  }

  /** Sum of the values of the tiles not marked removed. */
  function LiveSum(s: seq<Tile>): int {
    if s == [] then 0
    else LiveSum(s[..|s| - 1]) + (if Live(s[|s| - 1]) then s[|s| - 1].value else 0)
  }

  /** Sum of the values of all tiles, removed or not. */
  function TotalValue(s: seq<Tile>): int {
    if s == [] then 0 else TotalValue(s[..|s| - 1]) + s[|s| - 1].value
  }

  /** No two live tiles share a cell. */
  predicate LiveDistinct(s: seq<Tile>) {
    forall i, j :: 0 <= i < j < |s| && Live(s[i]) && Live(s[j]) ==> PosOf(s[i]) != PosOf(s[j])
  }

  /** The cell lies on the `n` by `n` board. */
  predicate OnBoard(p: Pos, n: int) {
    1 <= p.x <= n && 1 <= p.y <= n
  }

  /** Every tile of `s`, removed or not, lies on the `n` by `n` board. */
  predicate AllOnBoard(s: seq<Tile>, n: int) {
    forall k :: 0 <= k < |s| ==> OnBoard(PosOf(s[k]), n)
  }

  /** Some tile of `s` (removed or not) sits on `p`. */
  predicate Occupied(s: seq<Tile>, p: Pos) {
    exists k :: 0 <= k < |s| && PosOf(s[k]) == p
  }

  lemma NoneRemovedLiveSum(s: seq<Tile>)
    requires NoneRemoved(s)
    ensures LiveSum(s) == TotalValue(s)
    ensures LiveCount(s) == |s|
  {
    if s != [] {
      NoneRemovedLiveSum(s[..|s| - 1]);
    }
  }

  lemma {:induction false} LiveConcat(a: seq<Tile>, b: seq<Tile>)
    ensures LiveCount(a + b) == LiveCount(a) + LiveCount(b)
    ensures LiveSum(a + b) == LiveSum(a) + LiveSum(b)
    decreases |b|
  {
    if b == [] {
      assert a + b == a;
    } else {
      var b' := b[..|b| - 1];
      assert (a + b)[..|a + b| - 1] == a + b';
      LiveConcat(a, b');
    }
  }

  /** LiveCount of a prefix grows by one exactly at a live tile. */
  lemma LiveCountStep(s: seq<Tile>, j: nat)
    requires j < |s|
    ensures LiveCount(s[..j + 1]) == LiveCount(s[..j]) + (if Live(s[j]) then 1 else 0)
  {
    assert s[..j + 1][..j] == s[..j];
  }

  lemma {:induction false} LiveCountMono(s: seq<Tile>, i: nat, j: nat)
    requires i <= j <= |s|
    ensures LiveCount(s[..i]) <= LiveCount(s[..j])
    decreases j - i
  {
    if i < j {
      LiveCountStep(s, j - 1);
      LiveCountMono(s, i, j - 1);
    }
  }

  lemma {:induction false} LiveCountBound(s: seq<Tile>)
    ensures LiveCount(s) <= |s|
    ensures LiveCount(s) == |s| <==> NoneRemoved(s)
    decreases |s|
  {
    if s != [] {
      var init := s[..|s| - 1];
      LiveCountBound(init);
      if NoneRemoved(s) {
        assert NoneRemoved(init) by {
          forall k | 0 <= k < |init| ensures Live(init[k]) {
            assert init[k] == s[k];
          }
        }
      }
      if !NoneRemoved(init) {
        var k :| 0 <= k < |init| && !Live(init[k]);
        assert s[k] == init[k];
      }
    }
  }
}
