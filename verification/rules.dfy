/**
 Board queries and tile insertion: the list of empty cells, inserting a tile,
 choosing a random empty cell, and the end-of-game checks.
 */
module Rules {
  import opened Auxiliary
  import opened Reducer
  import opened LineApply
  import opened Engine

  // ---------------------------------------------------------------------
  // Empty spots
  // ---------------------------------------------------------------------

  /** Row-major order on cells. */
  predicate Before(p: (int, int), q: (int, int))
  {
    p.0 < q.0 || (p.0 == q.0 && p.1 < q.1)
  }

  /** The open spots of `b`: every empty cell, each once, in row-major order, and nothing else. */
  predicate SpotsOf(b: Board, spots: seq<(int, int)>)
    requires b.Valid()
  {
    && (forall k | 0 <= k < |spots| ::
          b.InBounds(spots[k].0, spots[k].1) && b.Get(spots[k].0, spots[k].1) == Empty)
    && (forall r, c | 0 <= r < b.dimension && 0 <= c < b.dimension && b.Get(r, c) == Empty :: (r, c) in spots)
    && (forall k, l | 0 <= k < l < |spots| :: Before(spots[k], spots[l]))
  }

  /** `gameboardEmptySpots`: the open spots of the board. */
  method EmptySpots(b: Board) returns (spots: seq<(int, int)>)
    requires b.Valid()
    ensures SpotsOf(b, spots)
  {
    var d := b.dimension;
    spots := [];
    for i := 0 to d
      invariant forall k | 0 <= k < |spots| ::
                  b.InBounds(spots[k].0, spots[k].1) && spots[k].0 < i && b.Get(spots[k].0, spots[k].1) == Empty
      invariant forall r, c | 0 <= r < i && 0 <= c < d && b.Get(r, c) == Empty :: (r, c) in spots
      invariant forall k, l | 0 <= k < l < |spots| :: Before(spots[k], spots[l])
    {
      for j := 0 to d
        invariant forall k | 0 <= k < |spots| ::
                    && b.InBounds(spots[k].0, spots[k].1) && Before(spots[k], (i, j))
                    && b.Get(spots[k].0, spots[k].1) == Empty
        invariant forall r, c | 0 <= r < i && 0 <= c < d && b.Get(r, c) == Empty :: (r, c) in spots
        invariant forall c | 0 <= c < j && b.Get(i, c) == Empty :: (i, c) in spots
        invariant forall k, l | 0 <= k < l < |spots| :: Before(spots[k], spots[l])
      {
        if b.Get(i, j) == Empty {
          spots := spots + [(i, j)];
        }
      }
    }
  }

  // ---------------------------------------------------------------------
  // Inserting tiles
  // ---------------------------------------------------------------------

  /** `insertTile(at:value:)`: fills the cell only when it is empty. */
  function InsertTile(b: Board, row: int, col: int, value: int): (b': Board)
    requires b.Valid() && b.InBounds(row, col)
    ensures b'.Valid() && b'.dimension == b.dimension
    ensures b'.Get(row, col) == if b.Get(row, col) == Empty then Tile(value) else b.Get(row, col)
    ensures forall r, c | b.InBounds(r, c) && (r, c) != (row, col) :: b'.Get(r, c) == b.Get(r, c)
  {
    if b.Get(row, col) == Empty then b.Set(row, col, Tile(value)) else b
  }

  /**
   `arc4random_uniform(upper)`: a uniform draw from `0 ..< upper`, and 0
   when `upper` is 0. The randomness is the parameter `roll`.
   */
  function RandomBelow(upper: nat, roll: nat): (r: nat)
    ensures upper == 0 ==> r == 0
    ensures upper > 0 ==> r < upper
  {
    if upper == 0 then 0 else roll % upper
  }

  /** The index `insertTileAtRandomLocation` draws among `count` open spots, as written. */
  function PickSpotAsWritten(count: nat, roll: nat): (idx: nat)
    requires count > 0
    ensures idx < count
  {
    RandomBelow(count - 1, roll)
  }

  /** With two or more open spots the last one is never drawn, whatever the roll. */
  lemma AsWrittenSkipsLastSpot(count: nat, roll: nat)
    requires count >= 2
    ensures PickSpotAsWritten(count, roll) != count - 1
  {
  }

  /** A board with exactly two open spots where the as-written draw always fills the first one. */
  lemma AsWrittenCounterexample(roll: nat)
    ensures PickSpotAsWritten(2, roll) == 0
  {
  }

  /** The index the draw over all open spots picks: any of the `count` open spots. */
  function PickSpot(count: nat, roll: nat): (idx: nat)
    requires count > 0
    ensures idx < count
  {
    RandomBelow(count, roll)
  }

  /** Every open spot can be drawn. */
  lemma PickSpotReachesAll(count: nat, i: nat)
    requires i < count
    ensures PickSpot(count, i) == i
  {
  }

  /**
   `insertTileAtRandomLocation` as written: with no open spot the board is
   unchanged; otherwise the spot at the drawn index is filled, and with two
   or more open spots the last one in row-major order is never the one filled.
   */
  method InsertTileAtRandomLocationAsWritten(b: Board, value: int, roll: nat)
    returns (b': Board, spots: seq<(int, int)>, idx: nat)
    requires b.Valid()
    ensures SpotsOf(b, spots)
    ensures spots == [] ==> b' == b
    ensures spots != [] ==> idx < |spots| && b' == b.Set(spots[idx].0, spots[idx].1, Tile(value))
    ensures |spots| >= 2 ==> idx < |spots| - 1 && b'.Get(spots[|spots| - 1].0, spots[|spots| - 1].1) == Empty
  {
    spots := EmptySpots(b);
    idx := 0;
    if spots == [] {
      return b, spots, idx;
    }
    idx := PickSpotAsWritten(|spots|, roll);
    b' := InsertTile(b, spots[idx].0, spots[idx].1, value);
    if |spots| >= 2 {
      AsWrittenSkipsLastSpot(|spots|, roll);
      assert spots[idx] != spots[|spots| - 1] by {
        assert Before(spots[idx], spots[|spots| - 1]);
      }
    }
  }

  /**
   `insertTileAtRandomLocation` with the draw over all open spots: the open
   spot at index `roll % count` is filled, so each open spot can be chosen.
   */
  method InsertTileAtRandomLocation(b: Board, value: int, roll: nat)
    returns (b': Board, spots: seq<(int, int)>, idx: nat)
    requires b.Valid()
    ensures SpotsOf(b, spots)
    ensures spots == [] ==> b' == b
    ensures spots != [] ==> idx == roll % |spots| && b' == b.Set(spots[idx].0, spots[idx].1, Tile(value))
  {
    spots := EmptySpots(b);
    idx := 0;
    if spots == [] {
      return b, spots, idx;
    }
    idx := PickSpot(|spots|, roll);
    b' := InsertTile(b, spots[idx].0, spots[idx].1, value);
  }

  // ---------------------------------------------------------------------
  // End of game
  // ---------------------------------------------------------------------

  /** `tileBelowHasSameValue`: the next cell along the row, `(x, y+1)`, holds `value`. */
  function TileBelowHasSameValue(b: Board, x: int, y: int, value: int): (r: bool)
    requires b.Valid() && b.InBounds(x, y)
    ensures r <==> y + 1 < b.dimension && b.Get(x, y + 1) == Tile(value)
  {
    if y == b.dimension - 1 then false
    else
      match b.Get(x, y + 1)
      case Tile(v) => v == value
      case Empty => false
  }

  /** `tileToRightHasSameValue`: the next cell down the column, `(x+1, y)`, holds `value`. */
  function TileToRightHasSameValue(b: Board, x: int, y: int, value: int): (r: bool)
    requires b.Valid() && b.InBounds(x, y)
    ensures r <==> x + 1 < b.dimension && b.Get(x + 1, y) == Tile(value)
  {
    if x == b.dimension - 1 then false
    else
      match b.Get(x + 1, y)
      case Tile(v) => v == value
      case Empty => false
  }

  /** Every cell holds a tile. */
  predicate Full(b: Board)
    requires b.Valid()
  {
    forall r, c | 0 <= r < b.dimension && 0 <= c < b.dimension :: b.Get(r, c).Tile?
  }

  /** No two orthogonally adjacent cells hold the same thing. */
  predicate NoEqualNeighbours(b: Board)
    requires b.Valid()
  {
    && (forall r, c | 0 <= r < b.dimension && 0 <= c < b.dimension - 1 :: b.Get(r, c) != b.Get(r, c + 1))
    && (forall r, c | 0 <= r < b.dimension - 1 && 0 <= c < b.dimension :: b.Get(r, c) != b.Get(r + 1, c))
  }

  /** `userHasLost`: the board is full and no two orthogonal neighbours are equal. */
  method UserHasLost(b: Board) returns (lost: bool)
    requires b.Valid()
    ensures lost <==> Full(b) && NoEqualNeighbours(b)
  {
    var d := b.dimension;
    var spots := EmptySpots(b);
    if spots != [] {
      assert !b.Get(spots[0].0, spots[0].1).Tile?;
      return false;
    }
    assert Full(b);
    for i := 0 to d
      invariant forall r, c | 0 <= r < i && 0 <= c < d - 1 :: b.Get(r, c) != b.Get(r, c + 1)
      invariant forall r, c | 0 <= r < i && r < d - 1 && 0 <= c < d :: b.Get(r, c) != b.Get(r + 1, c)
    {
      for j := 0 to d
        invariant forall r, c | 0 <= r < i && 0 <= c < d - 1 :: b.Get(r, c) != b.Get(r, c + 1)
        invariant forall r, c | 0 <= r < i && r < d - 1 && 0 <= c < d :: b.Get(r, c) != b.Get(r + 1, c)
        invariant forall c | 0 <= c < j && c < d - 1 :: b.Get(i, c) != b.Get(i, c + 1)
        invariant forall c | 0 <= c < j && i < d - 1 :: b.Get(i, c) != b.Get(i + 1, c)
      {
        match b.Get(i, j)
        case Empty =>
          assert false;
        case Tile(v) =>
          if TileBelowHasSameValue(b, i, j, v) || TileToRightHasSameValue(b, i, j, v) {
            return false;
          }
      }
    }
    return true;
  }

  /** The cell holds a tile of at least `threshold`. */
  predicate Winning(b: Board, threshold: int, r: int, c: int)
    requires b.Valid() && b.InBounds(r, c)
  {
    b.Get(r, c).Tile? && b.Get(r, c).value >= threshold
  }

  /**
   `userHasWon`: reports the first cell in row-major order holding a tile of
   at least `threshold`, or `(false, nil)` when there is none.
   */
  method UserHasWon(b: Board, threshold: int) returns (won: bool, at: Option<(int, int)>)
    requires b.Valid()
    ensures won <==> exists r, c | 0 <= r < b.dimension && 0 <= c < b.dimension :: Winning(b, threshold, r, c)
    ensures !won ==> at == None
    ensures won ==> && at.Some? && b.InBounds(at.value.0, at.value.1)
                    && Winning(b, threshold, at.value.0, at.value.1)
                    && forall r, c | b.InBounds(r, c) && Before((r, c), at.value) :: !Winning(b, threshold, r, c)
  {
    var d := b.dimension;
    for i := 0 to d
      invariant forall r, c | 0 <= r < i && 0 <= c < d :: !Winning(b, threshold, r, c)
    {
      for j := 0 to d
        invariant forall r, c | 0 <= r < i && 0 <= c < d :: !Winning(b, threshold, r, c)
        invariant forall c | 0 <= c < j :: !Winning(b, threshold, i, c)
      {
        if b.Get(i, j).Tile? && b.Get(i, j).value >= threshold {
          assert Winning(b, threshold, i, j);
          assert forall r, c | b.InBounds(r, c) && Before((r, c), (i, j)) :: !Winning(b, threshold, r, c);
          return true, Some((i, j));
        }
      }
    }
    assert forall r, c | 0 <= r < d && 0 <= c < d :: !Winning(b, threshold, r, c);
    return false, None;
  }

  /** Orthogonally adjacent cells. */
  predicate Neighbours(p: (int, int), q: (int, int))
  {
    || (p.0 == q.0 && (p.1 + 1 == q.1 || q.1 + 1 == p.1))
    || (p.1 == q.1 && (p.0 + 1 == q.0 || q.0 + 1 == p.0))
  }

  lemma NeighboursDiffer(b: Board, p: (nat, nat), q: (nat, nat))
    requires b.Valid() && NoEqualNeighbours(b) && b.InBounds(p.0, p.1) && b.InBounds(q.0, q.1)
    requires Neighbours(p, q)
    ensures b.Get(p.0, p.1) != b.Get(q.0, q.1)
  {
  }

  /** Consecutive cells of a line are neighbours on the board. */
  lemma CoordsAdjacent(direction: MoveDirection, d: nat, iteration: nat, k: nat)
    requires iteration < d && k + 1 < d
    ensures Neighbours(Coord(direction, d, iteration, k), Coord(direction, d, iteration, k + 1))
  {
  }

  lemma {:induction false} AllTilesValues(line: seq<TileObject>)
    requires forall k | 0 <= k < |line| :: line[k].Tile?
    ensures |TileValues(line)| == |line|
    ensures forall k | 0 <= k < |line| :: TileValues(line)[k] == line[k].value
    decreases |line|
  {
    if line != [] {
      AllTilesValues(line[..|line| - 1]);
    }
  }

  /** On a lost board no swipe in any direction changes any line. */
  lemma LostBoardCannotMove(b: Board, direction: MoveDirection, j: nat)
    requires b.Valid() && Full(b) && NoEqualNeighbours(b) && j < b.dimension
    ensures !LineMoves(b, direction, j)
  {
    var d := b.dimension;
    var line := Line(b, direction, j);
    LineCells(b, direction, j);
    assert forall k | 0 <= k < d :: line[k].Tile?;
    AllTilesValues(line);
    var vs := TileValues(line);
    forall k | 0 <= k < |vs| - 1
      ensures vs[k] != vs[k + 1]
    {
      CoordsAdjacent(direction, d, j, k);
      NeighboursDiffer(b, Coord(direction, d, j, k), Coord(direction, d, j, k + 1));
    }
    SlideFixpoint(line);
  }
}
