/**
 Value types of the 2048 rules engine: swipe directions, board slots, the
 intermediate tokens of the line reducer, the move orders it emits, and the
 generic square gameboard addressed row-major.
 */
module Auxiliary {

  datatype Option<T> = None | Some(value: T)

  /** The four swipe directions. */
  datatype MoveDirection = Up | Down | Left | Right

  /** One instruction for one line; indices are positions within the line. */
  datatype MoveOrder =
    | SingleMoveOrder(source: nat, destination: nat, value: int, wasMerge: bool)
    | DoubleMoveOrder(firstSource: nat, secondSource: nat, destination: nat, value: int)

  /** A board slot: empty, or a tile carrying its face value. */
  datatype TileObject = Empty | Tile(value: int)

  /**
   How one tile (or pair of tiles) of a line changes during a move.
   The shared destructors `value` and `source` are the value and the
   (first) source of every variant; `DoubleCombine` reports its first source.
   */
  datatype ActionToken =
    | NoAction(source: nat, value: int)
    | Move(source: nat, value: int)
    | SingleCombine(source: nat, value: int)
    | DoubleCombine(source: nat, second: nat, value: int)

  /** Row-major offset of a cell; in range whenever the cell is. */
  function Offset(dimension: nat, row: nat, col: nat): (k: nat)
    requires row < dimension && col < dimension
    ensures k < dimension * dimension
  {
    assert row * dimension + col < (row + 1) * dimension <= dimension * dimension by {
      assert (row + 1) * dimension == row * dimension + dimension;
      MulMonotone(row + 1, dimension, dimension);
    }
    row * dimension + col
  }

  lemma MulMonotone(a: nat, b: nat, d: nat)
    requires a <= b
    ensures a * d <= b * d
  {
  }

  /** Distinct cells have distinct offsets. */
  lemma OffsetInjective(dimension: nat, r1: nat, c1: nat, r2: nat, c2: nat)
    requires r1 < dimension && c1 < dimension && r2 < dimension && c2 < dimension
    requires (r1, c1) != (r2, c2)
    ensures Offset(dimension, r1, c1) != Offset(dimension, r2, c2)
  {
    if r1 < r2 {
      RowsApart(dimension, r1, c1, r2, c2);
    } else if r2 < r1 {
      RowsApart(dimension, r2, c2, r1, c1);
    }
  }

  lemma RowsApart(d: nat, r1: nat, c1: nat, r2: nat, c2: nat)
    requires r1 < r2 && c1 < d
    ensures r1 * d + c1 < r2 * d + c2
  {
    assert (r1 + 1) * d == r1 * d + d;
    MulMonotone(r1 + 1, r2, d);
  }

  /**
   A `dimension` x `dimension` grid stored flat, row-major. Every access
   must be in bounds; the source asserts this, the model requires it.
   */
  datatype SquareGameboard<T> = SquareGameboard(dimension: nat, boardArray: seq<T>) {

    predicate Valid() {
      |boardArray| == dimension * dimension
    }

    predicate InBounds(row: int, col: int) {
      0 <= row < dimension && 0 <= col < dimension
    }

    function Get(row: int, col: int): T
      requires Valid() && InBounds(row, col)
    {
      boardArray[Offset(dimension, row, col)]
    }

    /** Subscript setter: the written cell reads back, every other cell is unchanged. */
    function Set(row: int, col: int, item: T): (b: SquareGameboard<T>)
      requires Valid() && InBounds(row, col)
      ensures b.Valid() && b.dimension == dimension
      ensures b.Get(row, col) == item
      ensures forall r, c | InBounds(r, c) && (r, c) != (row, col) :: b.Get(r, c) == Get(r, c)
    {
      var b := SquareGameboard(dimension, boardArray[Offset(dimension, row, col) := item]);
      assert forall r, c | InBounds(r, c) && (r, c) != (row, col) :: b.Get(r, c) == Get(r, c) by {
        forall r, c | InBounds(r, c) && (r, c) != (row, col)
          ensures b.Get(r, c) == Get(r, c)
        {
          OffsetInjective(dimension, r, c, row, col);
        }
      }
      b
    }
  }

  /** A fresh board: `d*d` cells, all holding `initialValue`. */
  function NewBoard<T>(d: nat, initialValue: T): (b: SquareGameboard<T>)
    ensures b.Valid() && b.dimension == d
    ensures forall row, col | b.InBounds(row, col) :: b.Get(row, col) == initialValue
  {
    SquareGameboard(d, seq(d * d, _ => initialValue))
  }

  /** `setAll(to:)`: visits every cell row by row and overwrites it. */
  method SetAll<T>(board: SquareGameboard<T>, item: T) returns (r: SquareGameboard<T>)
    requires board.Valid()
    ensures r.Valid() && r.dimension == board.dimension
    ensures forall row, col | r.InBounds(row, col) :: r.Get(row, col) == item
  {
    r := board;
    for i := 0 to board.dimension
      invariant r.Valid() && r.dimension == board.dimension
      invariant forall row, col | 0 <= row < i && 0 <= col < r.dimension :: r.Get(row, col) == item
    {
      for j := 0 to board.dimension
        invariant r.Valid() && r.dimension == board.dimension
        invariant forall row, col | 0 <= row < i && 0 <= col < r.dimension :: r.Get(row, col) == item
        invariant forall col | 0 <= col < j :: r.Get(i, col) == item
      {
        r := r.Set(i, j, item);
      }
    }
  }
}
