/**
 The move engine: `performMove` reads the board as `dimension` lines in the
 direction of travel, runs the line reducer on each, writes the orders back
 cell by cell and adds the value of every merge to the score.
 */
module Engine {
  import opened Auxiliary
  import opened Reducer
  import opened LineApply

  type Board = SquareGameboard<TileObject>

  // ---------------------------------------------------------------------
  // The coordinate generator
  // ---------------------------------------------------------------------

  /**
   Cell `i` of line `iteration` for a move in `direction`, as (row, col):
   index 0 is the cell tiles travel towards.
   */
  function Coord(direction: MoveDirection, d: nat, iteration: nat, i: nat): (c: (nat, nat))
    requires iteration < d && i < d
    ensures c.0 < d && c.1 < d
  {
    match direction
    case Up => (i, iteration)
    case Down => (d - i - 1, iteration)
    case Left => (iteration, i)
    case Right => (iteration, d - i - 1)
  }

  /** The line `iteration` as a list of `d` cells. */
  function Coords(direction: MoveDirection, d: nat, iteration: nat): (cs: seq<(nat, nat)>)
    requires iteration < d
    ensures |cs| == d
  {
    seq(d, i requires 0 <= i < d => Coord(direction, d, iteration, i))
  }

  /** The line a cell belongs to for a move in `direction`. */
  function LineOf(direction: MoveDirection, d: nat, row: nat, col: nat): nat
  {
    if direction == Up || direction == Down then col else row
  }

  /** The position of a cell within its line for a move in `direction`. */
  function IndexOf(direction: MoveDirection, d: nat, row: nat, col: nat): int
  {
    match direction
    case Up => row
    case Down => d - 1 - row
    case Left => col
    case Right => d - 1 - col
  }

  /** Different (line, position) pairs name different cells. */
  lemma CoordInjective(direction: MoveDirection, d: nat, it1: nat, i1: nat, it2: nat, i2: nat)
    requires it1 < d && i1 < d && it2 < d && i2 < d
    ensures Coord(direction, d, it1, i1) == Coord(direction, d, it2, i2) <==> it1 == it2 && i1 == i2
  {
  }

  /** Every cell of the board is position `IndexOf` of line `LineOf`. */
  lemma CoordCovers(direction: MoveDirection, d: nat, row: nat, col: nat)
    requires row < d && col < d
    ensures LineOf(direction, d, row, col) < d && 0 <= IndexOf(direction, d, row, col) < d
    ensures Coord(direction, d, LineOf(direction, d, row, col), IndexOf(direction, d, row, col)) == (row, col)
  {
  }

  /** Boards that agree on every cell are equal. */
  lemma BoardExtensional(b1: Board, b2: Board)
    requires b1.Valid() && b2.Valid() && b1.dimension == b2.dimension
    requires forall r, c | 0 <= r < b1.dimension && 0 <= c < b1.dimension :: b1.Get(r, c) == b2.Get(r, c)
    ensures b1 == b2
  {
    var d := b1.dimension;
    forall k | 0 <= k < d * d
      ensures b1.boardArray[k] == b2.boardArray[k]
    {
      var r, c := k / d, k % d;
      assert r * d + c == k;
      if r >= d {
        MulMonotone(d, r, d);
      }
      assert b1.Get(r, c) == b2.Get(r, c);
    }
  }

  // ---------------------------------------------------------------------
  // Reading and writing one line of the board
  // ---------------------------------------------------------------------

  predicate CellsIn(b: Board, cs: seq<(nat, nat)>)
  {
    forall k | 0 <= k < |cs| :: b.InBounds(cs[k].0, cs[k].1)
  }

  predicate Distinct(cs: seq<(nat, nat)>)
  {
    forall k, l | 0 <= k < l < |cs| :: cs[k] != cs[l]
  }

  /** The cell lies on none of the positions of `cs`. */
  predicate OffLine(cs: seq<(nat, nat)>, row: int, col: int)
  {
    forall k | 0 <= k < |cs| :: cs[k] != (row, col)
  }

  /** `coords.map { gameboard[x, y] }`. */
  function ReadLine(b: Board, cs: seq<(nat, nat)>): (line: seq<TileObject>)
    requires b.Valid() && CellsIn(b, cs)
    ensures |line| == |cs| && forall k | 0 <= k < |cs| :: line[k] == b.Get(cs[k].0, cs[k].1)
  {
    seq(|cs|, k requires 0 <= k < |cs| => b.Get(cs[k].0, cs[k].1))
  }

  /** Line `iteration` of the board for a move in `direction`. */
  function Line(b: Board, direction: MoveDirection, iteration: nat): (line: seq<TileObject>)
    requires b.Valid() && iteration < b.dimension
    ensures |line| == b.dimension
  {
    LineCells(b, direction, iteration);
    ReadLine(b, Coords(direction, b.dimension, iteration))
  }

  lemma LineCells(b: Board, direction: MoveDirection, iteration: nat)
    requires b.Valid() && iteration < b.dimension
    ensures CellsIn(b, Coords(direction, b.dimension, iteration))
    ensures Distinct(Coords(direction, b.dimension, iteration))
  {
    var cs := Coords(direction, b.dimension, iteration);
    forall k, l | 0 <= k < l < |cs|
      ensures cs[k] != cs[l]
    {
      CoordInjective(direction, b.dimension, iteration, k, iteration, l);
    }
  }

  /** Writing position `p` of a line through the board updates exactly that position of the line. */
  lemma SetLine(b: Board, cs: seq<(nat, nat)>, p: nat, x: TileObject)
    requires b.Valid() && CellsIn(b, cs) && Distinct(cs) && p < |cs|
    ensures CellsIn(b.Set(cs[p].0, cs[p].1, x), cs)
    ensures ReadLine(b.Set(cs[p].0, cs[p].1, x), cs) == ReadLine(b, cs)[p := x]
  {
    var b' := b.Set(cs[p].0, cs[p].1, x);
    forall k | 0 <= k < |cs| && k != p
      ensures b'.Get(cs[k].0, cs[k].1) == b.Get(cs[k].0, cs[k].1)
    {
      assert cs[k] != cs[p];
    }
  }

  /** One order written through the board, as the loop body of `performMove` does. */
  function BoardOrder(b: Board, cs: seq<(nat, nat)>, o: MoveOrder): (b': Board)
    requires b.Valid() && CellsIn(b, cs) && OrderFits(o, |cs|)
    ensures b'.Valid() && b'.dimension == b.dimension
  {
    match o
    case SingleMoveOrder(s, dst, v, _) =>
      b.Set(cs[s].0, cs[s].1, Empty).Set(cs[dst].0, cs[dst].1, Tile(v))
    case DoubleMoveOrder(s1, s2, dst, v) =>
      b.Set(cs[s1].0, cs[s1].1, Empty).Set(cs[s2].0, cs[s2].1, Empty).Set(cs[dst].0, cs[dst].1, Tile(v))
  }

  /** The orders of one line written through the board in sequence. */
  function BoardOrders(b: Board, cs: seq<(nat, nat)>, orders: seq<MoveOrder>): (b': Board)
    requires b.Valid() && CellsIn(b, cs) && AllFit(orders, |cs|)
    ensures b'.Valid() && b'.dimension == b.dimension
    decreases |orders|
  {
    if orders == [] then b
    else
      var b1 := BoardOrder(b, cs, orders[0]);
      assert CellsIn(b1, cs);
      BoardOrders(b1, cs, orders[1..])
  }

  /** Cells off the line keep their contents. */
  predicate SameOffLine(b: Board, b': Board, cs: seq<(nat, nat)>)
    requires b.Valid() && b'.Valid() && b'.dimension == b.dimension
  {
    forall r, c | 0 <= r < b.dimension && 0 <= c < b.dimension && OffLine(cs, r, c) :: b'.Get(r, c) == b.Get(r, c)
  }

  /** Writing one order through the board acts on the line exactly as `ApplyOrder` does, and nowhere else. */
  lemma BoardOrderEffect(b: Board, cs: seq<(nat, nat)>, o: MoveOrder)
    requires b.Valid() && CellsIn(b, cs) && Distinct(cs) && OrderFits(o, |cs|)
    ensures CellsIn(BoardOrder(b, cs, o), cs)
    ensures ReadLine(BoardOrder(b, cs, o), cs) == ApplyOrder(ReadLine(b, cs), o)
    ensures SameOffLine(b, BoardOrder(b, cs, o), cs)
  {
    match o
    case SingleMoveOrder(s, dst, v, _) =>
      var b1 := b.Set(cs[s].0, cs[s].1, Empty);
      SetLine(b, cs, s, Empty);
      SetLine(b1, cs, dst, Tile(v));
    case DoubleMoveOrder(s1, s2, dst, v) =>
      var b1 := b.Set(cs[s1].0, cs[s1].1, Empty);
      var b2 := b1.Set(cs[s2].0, cs[s2].1, Empty);
      SetLine(b, cs, s1, Empty);
      SetLine(b1, cs, s2, Empty);
      SetLine(b2, cs, dst, Tile(v));
  }

  /** Writing a line's orders through the board acts on the line exactly as `ApplyOrders` does, and nowhere else. */
  lemma {:induction false} BoardOrdersEffect(b: Board, cs: seq<(nat, nat)>, orders: seq<MoveOrder>)
    requires b.Valid() && CellsIn(b, cs) && Distinct(cs) && AllFit(orders, |cs|)
    ensures CellsIn(BoardOrders(b, cs, orders), cs)
    ensures ReadLine(BoardOrders(b, cs, orders), cs) == ApplyOrders(ReadLine(b, cs), orders)
    ensures SameOffLine(b, BoardOrders(b, cs, orders), cs)
    decreases |orders|
  {
    if orders != [] {
      var b1 := BoardOrder(b, cs, orders[0]);
      BoardOrderEffect(b, cs, orders[0]);
      BoardOrdersEffect(b1, cs, orders[1..]);
    }
  }

  // ---------------------------------------------------------------------
  // Total face value
  // ---------------------------------------------------------------------

  function CellValue(t: TileObject): int
  {
    if t.Tile? then t.value else 0
  }

  /** Total face value of a run of slots. */
  function CellsValue(s: seq<TileObject>): int
  {
    if s == [] then 0 else CellsValue(s[..|s| - 1]) + CellValue(s[|s| - 1])
  }

  /** Total face value of the tiles on the board. */
  function BoardSum(b: Board): int
  {
    CellsValue(b.boardArray)
  }

  lemma {:induction false} CellsValueUpdate(s: seq<TileObject>, k: nat, x: TileObject)
    requires k < |s|
    ensures CellsValue(s[k := x]) == CellsValue(s) - CellValue(s[k]) + CellValue(x)
    decreases |s|
  {
    var n := |s|;
    assert s[k := x][..n - 1] == if k < n - 1 then s[..n - 1][k := x] else s[..n - 1];
    if k < n - 1 {
      CellsValueUpdate(s[..n - 1], k, x);
    }
  }

  lemma {:induction false} SumSnoc(vs: seq<int>, v: int)
    ensures Sum(vs + [v]) == Sum(vs) + v
    decreases |vs|
  {
    if vs != [] {
      assert (vs + [v])[1..] == vs[1..] + [v];
      SumSnoc(vs[1..], v);
    }
  }

  /** `LineSum` (over the gap-free values) and `CellsValue` (over the slots) agree. */
  lemma {:induction false} LineSumCells(line: seq<TileObject>)
    ensures LineSum(line) == CellsValue(line)
    decreases |line|
  {
    if line != [] {
      LineSumCells(line[..|line| - 1]);
      if line[|line| - 1].Tile? {
        SumSnoc(TileValues(line[..|line| - 1]), line[|line| - 1].value);
      }
    }
  }

  /** The face value off the line `cs`. */
  function OffLineSum(b: Board, cs: seq<(nat, nat)>): int
    requires b.Valid() && CellsIn(b, cs)
  {
    BoardSum(b) - CellsValue(ReadLine(b, cs))
  }

  /** Writing a cell of the line leaves the face value off the line alone. */
  lemma SetOffLineSum(b: Board, cs: seq<(nat, nat)>, p: nat, x: TileObject)
    requires b.Valid() && CellsIn(b, cs) && Distinct(cs) && p < |cs|
    ensures CellsIn(b.Set(cs[p].0, cs[p].1, x), cs)
    ensures OffLineSum(b.Set(cs[p].0, cs[p].1, x), cs) == OffLineSum(b, cs)
  {
    SetLine(b, cs, p, x);
    CellsValueUpdate(ReadLine(b, cs), p, x);
    CellsValueUpdate(b.boardArray, Offset(b.dimension, cs[p].0, cs[p].1), x);
  }

  lemma BoardOrderSum(b: Board, cs: seq<(nat, nat)>, o: MoveOrder)
    requires b.Valid() && CellsIn(b, cs) && Distinct(cs) && OrderFits(o, |cs|)
    ensures CellsIn(BoardOrder(b, cs, o), cs)
    ensures OffLineSum(BoardOrder(b, cs, o), cs) == OffLineSum(b, cs)
  {
    match o
    case SingleMoveOrder(s, dst, v, _) =>
      var b1 := b.Set(cs[s].0, cs[s].1, Empty);
      SetOffLineSum(b, cs, s, Empty);
      SetOffLineSum(b1, cs, dst, Tile(v));
    case DoubleMoveOrder(s1, s2, dst, v) =>
      var b1 := b.Set(cs[s1].0, cs[s1].1, Empty);
      var b2 := b1.Set(cs[s2].0, cs[s2].1, Empty);
      SetOffLineSum(b, cs, s1, Empty);
      SetOffLineSum(b1, cs, s2, Empty);
      SetOffLineSum(b2, cs, dst, Tile(v));
  }

  lemma {:induction false} BoardOrdersSum(b: Board, cs: seq<(nat, nat)>, orders: seq<MoveOrder>)
    requires b.Valid() && CellsIn(b, cs) && Distinct(cs) && AllFit(orders, |cs|)
    ensures CellsIn(BoardOrders(b, cs, orders), cs)
    ensures OffLineSum(BoardOrders(b, cs, orders), cs) == OffLineSum(b, cs)
    decreases |orders|
  {
    if orders != [] {
      var b1 := BoardOrder(b, cs, orders[0]);
      BoardOrderSum(b, cs, orders[0]);
      BoardOrdersSum(b1, cs, orders[1..]);
    }
  }

  // ---------------------------------------------------------------------
  // performMove
  // ---------------------------------------------------------------------

  /** The board after the orders of line `iteration` are written back. */
  function MoveLine(b: Board, direction: MoveDirection, iteration: nat): (b': Board)
    requires b.Valid() && iteration < b.dimension
    ensures b'.Valid() && b'.dimension == b.dimension
  {
    MoveLineDefined(b, direction, iteration);
    BoardOrders(b, Coords(direction, b.dimension, iteration), Merge(Line(b, direction, iteration)))
  }

  /** The cells of a line are on the board and its orders fit it. */
  lemma MoveLineDefined(b: Board, direction: MoveDirection, iteration: nat)
    requires b.Valid() && iteration < b.dimension
    ensures CellsIn(b, Coords(direction, b.dimension, iteration))
    ensures AllFit(Merge(Line(b, direction, iteration)), b.dimension)
  {
    LineCells(b, direction, iteration);
    MergeSlides(Line(b, direction, iteration));
  }

  /** Writing line `iteration` back slides that line. */
  lemma MoveLineSlides(b: Board, direction: MoveDirection, iteration: nat)
    requires b.Valid() && iteration < b.dimension
    ensures Line(MoveLine(b, direction, iteration), direction, iteration) == Slide(Line(b, direction, iteration))
  {
    var cs := Coords(direction, b.dimension, iteration);
    var line := Line(b, direction, iteration);
    LineCells(b, direction, iteration);
    MergeSlides(line);
    BoardOrdersEffect(b, cs, Merge(line));
  }

  /** Writing line `iteration` back keeps the board's total face value. */
  lemma MoveLineSum(b: Board, direction: MoveDirection, iteration: nat)
    requires b.Valid() && iteration < b.dimension
    ensures BoardSum(MoveLine(b, direction, iteration)) == BoardSum(b)
  {
    var cs := Coords(direction, b.dimension, iteration);
    var line := Line(b, direction, iteration);
    LineCells(b, direction, iteration);
    MergeSlides(line);
    BoardOrdersSum(b, cs, Merge(line));
    MoveLineSlides(b, direction, iteration);
    SlideConserves(line);
    LineSumCells(line);
    LineSumCells(Slide(line));
  }

  /** Writing line `iteration` back leaves every other line of the same direction alone. */
  lemma MoveLineFrame(b: Board, direction: MoveDirection, iteration: nat, j: nat)
    requires b.Valid() && iteration < b.dimension && j < b.dimension && j != iteration
    ensures Line(MoveLine(b, direction, iteration), direction, j) == Line(b, direction, j)
  {
    var d := b.dimension;
    var cs := Coords(direction, d, iteration);
    var line := Line(b, direction, iteration);
    LineCells(b, direction, iteration);
    MergeSlides(line);
    BoardOrdersEffect(b, cs, Merge(line));
    var b' := MoveLine(b, direction, iteration);
    assert SameOffLine(b, b', cs);
    forall k | 0 <= k < d
      ensures Line(b', direction, j)[k] == Line(b, direction, j)[k]
    {
      var cell := Coord(direction, d, j, k);
      forall m | 0 <= m < d
        ensures cs[m] != cell
      {
        CoordInjective(direction, d, iteration, m, j, k);
      }
      assert OffLine(cs, cell.0, cell.1);
    }
  }

  /** Boards whose lines in one direction all agree are equal: the lines cover the board. */
  lemma LinesDetermineBoard(b1: Board, b2: Board, direction: MoveDirection)
    requires b1.Valid() && b2.Valid() && b1.dimension == b2.dimension
    requires forall j | 0 <= j < b1.dimension :: Line(b1, direction, j) == Line(b2, direction, j)
    ensures b1 == b2
  {
    var d := b1.dimension;
    forall r, c | 0 <= r < d && 0 <= c < d
      ensures b1.Get(r, c) == b2.Get(r, c)
    {
      CoordCovers(direction, d, r, c);
      var j, k := LineOf(direction, d, r, c), IndexOf(direction, d, r, c);
      assert Line(b1, direction, j)[k] == Line(b2, direction, j)[k];
    }
    BoardExtensional(b1, b2);
  }

  /** Whether a swipe changes line `j`. */
  predicate LineMoves(b: Board, direction: MoveDirection, j: nat)
    requires b.Valid() && j < b.dimension
  {
    Slide(Line(b, direction, j)) != Line(b, direction, j)
  }

  /** A board whose every line is the slid line of another differs from it exactly when some line moves. */
  lemma SlidBoardDiffers(board: Board, board': Board, direction: MoveDirection)
    requires board.Valid() && board'.Valid() && board'.dimension == board.dimension
    requires forall j | 0 <= j < board.dimension :: Line(board', direction, j) == Slide(Line(board, direction, j))
    ensures (exists j | 0 <= j < board.dimension :: LineMoves(board, direction, j)) <==> board' != board
  {
    if !exists j | 0 <= j < board.dimension :: LineMoves(board, direction, j) {
      forall j | 0 <= j < board.dimension
        ensures Line(board', direction, j) == Line(board, direction, j)
      {
        assert !LineMoves(board, direction, j);
      }
      LinesDetermineBoard(board', board, direction);
    }
  }

  /** Whether a swipe changes any of lines `0 .. n-1`. */
  predicate AnyLineMoves(b: Board, direction: MoveDirection, n: nat)
    requires b.Valid() && n <= b.dimension
  {
    n > 0 && (AnyLineMoves(b, direction, n - 1) || LineMoves(b, direction, n - 1))
  }

  lemma {:induction false} AnyLineMovesExists(b: Board, direction: MoveDirection, n: nat)
    requires b.Valid() && n <= b.dimension
    ensures AnyLineMoves(b, direction, n) <==> exists j | 0 <= j < n :: LineMoves(b, direction, j)
  {
    if n > 0 {
      AnyLineMovesExists(b, direction, n - 1);
      if LineMoves(b, direction, n - 1) {
        var k: nat := n - 1;
        assert 0 <= k < n && LineMoves(b, direction, k);
      } else if AnyLineMoves(b, direction, n - 1) {
        var k: nat :| 0 <= k < n - 1 && LineMoves(b, direction, k);
        assert 0 <= k < n && LineMoves(b, direction, k);
      } else {
        forall j | 0 <= j < n
          ensures !LineMoves(b, direction, j)
        {
          if j < n - 1 {
            assert !LineMoves(b, direction, j);
          }
        }
      }
    }
  }

  /** Points from lines `0 .. n-1`: what the 2048 rule awards for merging each of them. */
  function LinesGain(b: Board, direction: MoveDirection, n: nat): int
    requires b.Valid() && n <= b.dimension
  {
    if n == 0 then 0
    else LinesGain(b, direction, n - 1) + MergeGain(TileValues(Line(b, direction, n - 1)))
  }

  /** `board'` is `board` with lines `0 .. i-1` slid and the rest untouched. */
  predicate SlidUpTo(board: Board, board': Board, direction: MoveDirection, i: nat)
    requires board.Valid() && board'.Valid() && board'.dimension == board.dimension && i <= board.dimension
  {
    && (forall j | 0 <= j < i :: Line(board', direction, j) == Slide(Line(board, direction, j)))
    && (forall j | i <= j < board.dimension :: Line(board', direction, j) == Line(board, direction, j))
  }

  lemma SlidStep(board: Board, cur: Board, direction: MoveDirection, i: nat)
    requires board.Valid() && cur.Valid() && cur.dimension == board.dimension && i < board.dimension
    requires SlidUpTo(board, cur, direction, i)
    ensures SlidUpTo(board, MoveLine(cur, direction, i), direction, i + 1)
  {
    var next := MoveLine(cur, direction, i);
    MoveLineSlides(cur, direction, i);
    forall j | 0 <= j < board.dimension && j != i
      ensures Line(next, direction, j) == Line(cur, direction, j)
    {
      MoveLineFrame(cur, direction, i, j);
    }
  }

  /**
   The inner loop of `performMove`: each order of one line written through
   the board. On the line it acts as replaying the orders does, every cell
   off the line keeps its tile, and when the orders are the line's own
   merge the line ends up slid and the score grows by its merge gain.
   */
  method WriteOrders(b: Board, coords: seq<(nat, nat)>, orders: seq<MoveOrder>, score: int)
    returns (b': Board, score': int)
    requires b.Valid() && CellsIn(b, coords) && Distinct(coords) && AllFit(orders, |coords|)
    ensures b' == BoardOrders(b, coords, orders)
    ensures score' == score + ScoreGain(orders)
    ensures b'.Valid() && b'.dimension == b.dimension && CellsIn(b', coords)
    ensures ReadLine(b', coords) == ApplyOrders(ReadLine(b, coords), orders)
    ensures SameOffLine(b, b', coords)
    ensures orders == Merge(ReadLine(b, coords)) ==>
              && ReadLine(b', coords) == Slide(ReadLine(b, coords))
              && score' == score + MergeGain(TileValues(ReadLine(b, coords)))
  {
    b', score' := b, score;
    for k := 0 to |orders|
      invariant b'.Valid() && b'.dimension == b.dimension && CellsIn(b', coords)
      invariant BoardOrders(b', coords, orders[k..]) == BoardOrders(b, coords, orders)
      invariant score' + ScoreGain(orders[k..]) == score + ScoreGain(orders)
    {
      var rest := orders[k..];
      assert rest[0] == orders[k] && rest[1..] == orders[k + 1..];
      var before := b';
      match orders[k]
      case SingleMoveOrder(s, dst, v, wasMerge) =>
        if wasMerge {
          score' := score' + v;
        }
        b' := b'.Set(coords[s].0, coords[s].1, Empty);
        b' := b'.Set(coords[dst].0, coords[dst].1, Tile(v));
      case DoubleMoveOrder(s1, s2, dst, v) =>
        score' := score' + v;
        b' := b'.Set(coords[s1].0, coords[s1].1, Empty);
        b' := b'.Set(coords[s2].0, coords[s2].1, Empty);
        b' := b'.Set(coords[dst].0, coords[dst].1, Tile(v));
      assert b' == BoardOrder(before, coords, orders[k]);
    }
    assert orders[|orders|..] == [];
    BoardOrdersEffect(b, coords, orders);
    if orders == Merge(ReadLine(b, coords)) {
      MergeSlides(ReadLine(b, coords));
      MergeScore(ReadLine(b, coords));
    }
  }

  /** Everything one iteration of the outer loop of `performMove` maintains. */
  lemma OuterStep(board: Board, cur: Board, direction: MoveDirection, i: nat)
    requires board.Valid() && cur.Valid() && cur.dimension == board.dimension && i < board.dimension
    requires SlidUpTo(board, cur, direction, i)
    ensures Line(cur, direction, i) == Line(board, direction, i)
    ensures SlidUpTo(board, MoveLine(cur, direction, i), direction, i + 1)
    ensures BoardSum(MoveLine(cur, direction, i)) == BoardSum(cur)
    ensures LinesGain(board, direction, i + 1)
            == LinesGain(board, direction, i) + ScoreGain(Merge(Line(cur, direction, i)))
    ensures AnyLineMoves(board, direction, i + 1)
            == (AnyLineMoves(board, direction, i) || |Merge(Line(cur, direction, i))| > 0)
  {
    var line := Line(cur, direction, i);
    SlidStep(board, cur, direction, i);
    MoveLineSum(cur, direction, i);
    MergeScore(line);
    MergeEmptyIff(line);
  }

  /** The board after lines `0 .. n-1` are written back in order. */
  function MoveLines(b: Board, direction: MoveDirection, n: nat): (b': Board)
    requires b.Valid() && n <= b.dimension
    ensures b'.Valid() && b'.dimension == b.dimension
  {
    if n == 0 then b else MoveLine(MoveLines(b, direction, n - 1), direction, n - 1)
  }

  /**
   One pass of the outer loop of `performMove`: read line `i` through the
   coordinate generator, reduce it, write the orders back, add the gain and
   note whether the line produced any order. Lines `0 .. i` are then slid.
   */
  method SweepLine(board: Board, cur: Board, score0: int, score: int, moved: bool,
                   direction: MoveDirection, i: nat)
    returns (cur': Board, score': int, moved': bool)
    requires board.Valid() && i < board.dimension
    requires cur == MoveLines(board, direction, i)
    requires SlidUpTo(board, cur, direction, i)
    requires score == score0 + LinesGain(board, direction, i)
    requires BoardSum(cur) == BoardSum(board)
    requires moved == AnyLineMoves(board, direction, i)
    ensures cur' == MoveLines(board, direction, i + 1)
    ensures SlidUpTo(board, cur', direction, i + 1)
    ensures score' == score0 + LinesGain(board, direction, i + 1)
    ensures BoardSum(cur') == BoardSum(board)
    ensures moved' == AnyLineMoves(board, direction, i + 1)
  {
    var coords := Coords(direction, board.dimension, i);
    LineCells(cur, direction, i);
    var tiles := ReadLine(cur, coords);
    var orders := Merge(tiles);
    MergeSlides(tiles);
    moved' := if |orders| > 0 then true else moved;
    OuterStep(board, cur, direction, i);
    cur', score' := WriteOrders(cur, coords, orders, score);
  }

  /** Lines that do not move earn nothing. */
  lemma {:induction false} StillLinesGainNothing(b: Board, direction: MoveDirection, n: nat)
    requires b.Valid() && n <= b.dimension
    ensures !AnyLineMoves(b, direction, n) ==> LinesGain(b, direction, n) == 0
  {
    if n > 0 && !AnyLineMoves(b, direction, n) {
      StillLinesGainNothing(b, direction, n - 1);
      var line := Line(b, direction, n - 1);
      MergeEmptyIff(line);
      MergeScore(line);
    }
  }

  /**
   `performMove`: the nested loops over lines and orders compute `MoveLines`.
   Every line, read in the direction of travel, ends up slid; the score
   grows by the value of every merge, and not at all when nothing moves;
   the total face value on the board is kept; and the result reports a
   change exactly when some line moved, which is exactly when the board
   changed.
   */
  method PerformMove(board: Board, score: int, direction: MoveDirection)
    returns (board': Board, score': int, changed: bool)
    requires board.Valid()
    ensures board' == MoveLines(board, direction, board.dimension)
    ensures changed == AnyLineMoves(board, direction, board.dimension)
    ensures board'.Valid() && board'.dimension == board.dimension
    ensures forall j | 0 <= j < board.dimension ::
              Line(board', direction, j) == Slide(Line(board, direction, j))
    ensures score' == score + LinesGain(board, direction, board.dimension)
    ensures !changed ==> score' == score
    ensures BoardSum(board') == BoardSum(board)
    ensures changed <==> exists j | 0 <= j < board.dimension :: LineMoves(board, direction, j)
    ensures changed <==> board' != board
  {
    board', score', changed := SweepLines(board, score, direction);
    SwipeOutcome(board, board', direction);
  }

  /** The outer loop of `performMove`, one `SweepLine` per line index. */
  method SweepLines(board: Board, score: int, direction: MoveDirection)
    returns (board': Board, score': int, changed: bool)
    requires board.Valid()
    ensures board' == MoveLines(board, direction, board.dimension)
    ensures board'.Valid() && board'.dimension == board.dimension
    ensures SlidUpTo(board, board', direction, board.dimension)
    ensures score' == score + LinesGain(board, direction, board.dimension)
    ensures BoardSum(board') == BoardSum(board)
    ensures changed == AnyLineMoves(board, direction, board.dimension)
  {
    board' := board;
    score' := score;
    var atLeastOneMove := false;
    for i := 0 to board.dimension
      invariant board' == MoveLines(board, direction, i)
      invariant SlidUpTo(board, board', direction, i)
      invariant score' == score + LinesGain(board, direction, i)
      invariant BoardSum(board') == BoardSum(board)
      invariant atLeastOneMove == AnyLineMoves(board, direction, i)
    {
      board', score', atLeastOneMove := SweepLine(board, board', score, score', atLeastOneMove, direction, i);
    }
    changed := atLeastOneMove;
  }

  /** What a fully slid board says about the swipe that produced it. */
  lemma SwipeOutcome(board: Board, board': Board, direction: MoveDirection)
    requires board.Valid() && board'.Valid() && board'.dimension == board.dimension
    requires SlidUpTo(board, board', direction, board.dimension)
    ensures forall j | 0 <= j < board.dimension ::
              Line(board', direction, j) == Slide(Line(board, direction, j))
    ensures AnyLineMoves(board, direction, board.dimension)
            <==> exists j | 0 <= j < board.dimension :: LineMoves(board, direction, j)
    ensures AnyLineMoves(board, direction, board.dimension) <==> board' != board
    ensures !AnyLineMoves(board, direction, board.dimension) ==> LinesGain(board, direction, board.dimension) == 0
  {
    AnyLineMovesExists(board, direction, board.dimension);
    SlidBoardDiffers(board, board', direction);
    StillLinesGainNothing(board, direction, board.dimension);
  }
}
