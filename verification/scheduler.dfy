/**
 The move queue of `GameModel`: swipes are queued (up to a capacity guard)
 and drained in arrival order by `timerFired`, which skips swipes that
 change nothing and stops after the first one that does, arming the settle
 timer. The timer is a flag plus an explicit "timer elapses" event; each
 completion callback is recorded in a log of `(direction, changed)` pairs.
 */
module Scheduler {
  import opened Auxiliary
  import opened Engine

  /** `maxCommands`: the guard admits a command while the queue holds at most this many. */
  const MaxCommands: nat := 100

  /** One call of a command's completion callback. */
  datatype Completion = Completion(direction: MoveDirection, changed: bool)

  datatype Game = Game(dimension: nat, threshold: int, score: int, board: Board,
                       queue: seq<MoveDirection>, timerArmed: bool, completions: seq<Completion>)
  {
    /** The board is a `dimension`-square grid and the queue within its guard. */
    predicate Valid() {
      && board.Valid() && board.dimension == dimension
      && |queue| <= MaxCommands + 1
    }

    /** Nothing waits in the queue unless the settle timer will drain it. */
    predicate Pending() {
      queue != [] ==> timerArmed
    }
  }

  /** The directions of a run of completions, in order. */
  function Directions(cs: seq<Completion>): (ds: seq<MoveDirection>)
    ensures |ds| == |cs|
    ensures forall k | 0 <= k < |cs| :: ds[k] == cs[k].direction
  {
    seq(|cs|, k requires 0 <= k < |cs| => cs[k].direction)
  }

  /** Whether the last completion of a run reported a change. */
  predicate EndsChanged(ran: seq<Completion>) {
    ran != [] && ran[|ran| - 1].changed
  }

  /**
   The state after the commands whose completions are `ran` have been
   taken from the front of the queue, in order: each reported whether its
   swipe moves the (still unchanged) board; all but the last changed
   nothing; and only a changing last swipe has touched the board and score.
   */
  predicate Ran(g: Game, g': Game, ran: seq<Completion>)
    requires g.Valid()
  {
    && g'.Valid() && g'.dimension == g.dimension && g'.threshold == g.threshold
    && g'.completions == g.completions + ran
    && Directions(ran) + g'.queue == g.queue
    && (forall k | 0 <= k < |ran| ::
          ran[k].changed == AnyLineMoves(g.board, ran[k].direction, g.dimension))
    && (forall k | 0 <= k < |ran| - 1 :: !ran[k].changed)
    && (if EndsChanged(ran) then
          && g'.board == MoveLines(g.board, ran[|ran| - 1].direction, g.dimension)
          && g'.score == g.score + LinesGain(g.board, ran[|ran| - 1].direction, g.dimension)
        else
          g'.board == g.board && g'.score == g.score)
  }

  /**
   What one drain does: it runs commands as `Ran` describes and stops
   either with an empty queue or right after a changing swipe, which arms
   the timer.
   */
  predicate Drained(g: Game, g': Game)
    requires g.Valid()
  {
    && |g.completions| <= |g'.completions|
    && var ran := g'.completions[|g.completions|..];
       && Ran(g, g', ran)
       && (g'.queue == [] || EndsChanged(ran))
       && g'.timerArmed == (g.timerArmed || EndsChanged(ran))
  }

  /** `init`: an empty `d` x `d` board, no score, nothing queued, timer idle. */
  method NewGame(d: nat, threshold: int) returns (g: Game)
    ensures g.Valid() && g.Pending()
    ensures g.dimension == d && g.threshold == threshold
    ensures g.score == 0 && g.queue == [] && !g.timerArmed && g.completions == []
    ensures forall row, col | g.board.InBounds(row, col) :: g.board.Get(row, col) == Empty
  {
    g := Game(d, threshold, 0, NewBoard(d, Empty), [], false, []);
  }

  /** `reset`: zero score, empty every cell, drop the queue, stop the timer. */
  method Reset(g: Game) returns (g': Game)
    requires g.Valid()
    ensures g'.Valid() && g'.Pending()
    ensures g'.dimension == g.dimension && g'.threshold == g.threshold
    ensures g'.score == 0 && g'.queue == [] && !g'.timerArmed
    ensures g'.completions == g.completions
    ensures forall row, col | g'.board.InBounds(row, col) :: g'.board.Get(row, col) == Empty
  {
    var board := SetAll(g.board, Empty);
    g' := g.(score := 0, board := board, queue := [], timerArmed := false);
  }

  /**
   `timerFired`: pop commands from the front and perform them until one
   changes the board or the queue runs dry; if one did, arm the timer.
   The source's `break` after a changing move is the `!changed` conjunct
   of the loop guard.
   */
  method TimerFired(g: Game) returns (g': Game)
    requires g.Valid()
    ensures Drained(g, g')
    ensures g.queue == [] ==> g' == g
    ensures g'.Pending()
  {
    g' := g;
    if |g.queue| == 0 {
      return;
    }
    var changed := false;
    var ran: seq<Completion> := [];
    assert Directions(ran) + g'.queue == g.queue;
    while |g'.queue| > 0 && !changed
      invariant Ran(g, g', ran)
      invariant g'.timerArmed == g.timerArmed
      invariant changed == EndsChanged(ran)
      decreases |g'.queue|
    {
      var direction := g'.queue[0];
      var board', score', moved := PerformMove(g'.board, g'.score, direction);
      var c := Completion(direction, moved);
      RanStep(g, g', ran, board', score', moved);
      g' := g'.(board := board', score := score', queue := g'.queue[1..], completions := g'.completions + [c]);
      ran := ran + [c];
      changed := moved;
    }
    if changed {
      g' := g'.(timerArmed := true);
    }
    assert g'.completions[|g.completions|..] == ran;
  }

  /** Performing the command at the head of the queue extends `Ran` by its completion. */
  lemma RanStep(g: Game, cur: Game, ran: seq<Completion>, board': Board, score': int, moved: bool)
    requires g.Valid() && Ran(g, cur, ran) && !EndsChanged(ran) && cur.queue != []
    requires board' == MoveLines(cur.board, cur.queue[0], cur.dimension)
    requires score' == cur.score + LinesGain(cur.board, cur.queue[0], cur.dimension)
    requires moved == AnyLineMoves(cur.board, cur.queue[0], cur.dimension)
    requires !moved ==> board' == cur.board && score' == cur.score
    ensures var c := Completion(cur.queue[0], moved);
            Ran(g, cur.(board := board', score := score', queue := cur.queue[1..],
                        completions := cur.completions + [c]), ran + [c])
  {
    var c := Completion(cur.queue[0], moved);
    DirectionsSnoc(ran, c, cur.queue);
    assert cur.board == g.board && cur.score == g.score;
    StillPrefix(ran, c);
    ReportsFaithful(ran, c, g.board);
  }

  /** Appending to a run whose last entry changed nothing keeps "only the last may change". */
  lemma StillPrefix(ran: seq<Completion>, c: Completion)
    requires forall k | 0 <= k < |ran| - 1 :: !ran[k].changed
    requires !EndsChanged(ran)
    ensures forall k | 0 <= k < |ran + [c]| - 1 :: !(ran + [c])[k].changed
    ensures EndsChanged(ran + [c]) == c.changed
  {
    assert forall k | 0 <= k < |ran| :: (ran + [c])[k] == ran[k];
  }

  /** Appending a faithful report keeps every report faithful. */
  lemma ReportsFaithful(ran: seq<Completion>, c: Completion, board: Board)
    requires board.Valid()
    requires forall k | 0 <= k < |ran| ::
               ran[k].changed == AnyLineMoves(board, ran[k].direction, board.dimension)
    requires c.changed == AnyLineMoves(board, c.direction, board.dimension)
    ensures forall k | 0 <= k < |ran + [c]| ::
              (ran + [c])[k].changed == AnyLineMoves(board, (ran + [c])[k].direction, board.dimension)
  {
    assert forall k | 0 <= k < |ran| :: (ran + [c])[k] == ran[k];
  }

  /** Moving one completion from the queue's head to the log keeps the FIFO equation. */
  lemma DirectionsSnoc(ran: seq<Completion>, c: Completion, queue: seq<MoveDirection>)
    requires queue != [] && c.direction == queue[0]
    ensures Directions(ran + [c]) + queue[1..] == Directions(ran) + queue
  {
    assert Directions(ran + [c]) == Directions(ran) + [c.direction];
    assert [queue[0]] + queue[1..] == queue;
  }

  /**
   `queueMove`: a command is dropped once the queue holds more than
   `MaxCommands`, so the queue can reach `MaxCommands + 1`; otherwise it is
   appended, and drained at once when no timer is pending.
   */
  method QueueMove(g: Game, direction: MoveDirection) returns (g': Game)
    requires g.Valid()
    ensures g'.Valid()
    ensures g.Pending() ==> g'.Pending()
    ensures |g.queue| > MaxCommands ==> g' == g
    ensures |g.queue| <= MaxCommands && g.timerArmed ==> g' == g.(queue := g.queue + [direction])
    ensures |g.queue| <= MaxCommands && !g.timerArmed ==>
              Drained(g.(queue := g.queue + [direction]), g')
  {
    if |g.queue| > MaxCommands {
      return g;
    }
    g' := g.(queue := g.queue + [direction]);
    if !g'.timerArmed {
      g' := TimerFired(g');
    }
  }

  /** The settle timer elapses: it stops being pending, then `timerFired` runs. */
  method TimerElapses(g: Game) returns (g': Game)
    requires g.Valid()
    ensures g'.Valid()
    ensures g.Pending() ==> g'.Pending()
    ensures !g.timerArmed ==> g' == g
    ensures g.timerArmed ==> Drained(g.(timerArmed := false), g')
  {
    if !g.timerArmed {
      return g;
    }
    g' := TimerFired(g.(timerArmed := false));
  }
}
