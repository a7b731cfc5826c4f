# 2048 rules engine in Dafny

This project models the rules engine of the Swift 2048 game (`GameModel` and
the value types of `AuxiliaryModel`), and proves properties of the model.

- **Value types** (`auxiliary.dfy`, module `Auxiliary`):
  - The datatypes are `MoveDirection`, `MoveOrder`, `TileObject` and `ActionToken`.
  - `ActionToken`'s shared `value` and `source` fields play the part of `getValue` and `getSource`.
  - `SquareGameboard` is the generic d×d grid, stored row-major. It has `init`, the subscript and `setAll(to:)`.
- **Line reducer** (`reducer.dfy`, module `Reducer`):
  - `Merge` is `Convert ∘ Collapse ∘ Condense`, over one row or column given in travel order. It is defined step for step like the source loops.
  - Condense and collapse are checked against independent references. `CondensedFrom` describes what condensing must yield. `MergeValues` is the 2048 merge rule on bare values: scan from the front, fuse a value with an equal successor, and use each tile at most once.
  - Convert is described token by token: every order is sound and complete for its token, and destinations strictly increase.
- **Replaying orders** (`line_apply.dfy`, module `LineApply`):
  - `Slide` is the independent description of a swipe: the merged values packed to the front, then empty cells.
  - A simulation proof shows that writing a line's orders back in sequence produces exactly `Slide(line)`. It also shows that the score grows by the merged values.
- **Move engine** (`engine.dfy`, module `Engine`):
  - It models the coordinate generator and the two nested loops of `performMove`.
  - Properties proved: every line is slid, the total face value is unchanged, the score grows by exactly the merge gains, and the result reports a change exactly when the board changed.
- **Board queries** (`rules.dfy`, module `Rules`): `gameboardEmptySpots`, `insertTile`, `insertTileAtRandomLocation`, the two neighbour tests, `userHasLost` and `userHasWon`.
- **Move queue** (`scheduler.dfy`, module `Scheduler`):
  - It models `init`, `reset`, `queueMove` and `timerFired` as a state machine over a `Game` record.
  - The settle timer is an `armed` flag plus an explicit "timer elapses" event.
  - Every call to a command's completion callback is appended to a log.

Two behaviours of the code worth knowing:

- **A tile merged across a gap** (`MergeExample`). For the line `[2, _, 2, _]` the code emits the single order `singleMoveOrder(source: 2, destination: 0, value: 4, wasMerge: true)`. The tile at position 0 is overwritten in place as the destination.
- **Queue capacity.** The guard in `queueMove` admits a command while the queue holds at most `maxCommands` = 100, so the queue can hold 101 commands (`Scheduler.QueueMove`).

## Model

| member | source | states |
|---|---|---|
| Auxiliary.NewBoard | 2048/Models/AuxiliaryModel.swift:67-70 | a new board has dimension d, d·d cells, and every cell equals the initial value |
| Auxiliary.OffsetInjective | 2048/Models/AuxiliaryModel.swift:72-83 | the row-major address `row*dimension + col` of two different in-bounds cells differs, so the subscript addresses each cell separately |
| Auxiliary.SquareGameboard.Set | 2048/Models/AuxiliaryModel.swift:78-82 | after writing (r, c), reading (r, c) gives the written value; every other cell and the dimension are unchanged |
| Auxiliary.SetAll | 2048/Models/AuxiliaryModel.swift:86-92 | after `setAll(to:)` every cell equals the item and the dimension is unchanged |
| Reducer.MergeValuesConserves | 2048/Models/GameModel.swift:264-309 | the reference merge rule keeps the sum of values and shortens the line by exactly one per fusion |
| Reducer.MergeValuesFixpoint | 2048/Models/GameModel.swift:264-309 | the reference merge rule leaves a value list unchanged exactly when no two neighbours are equal |
| Reducer.CondenseShape | 2048/Models/GameModel.swift:243-257 | condense emits one token per tile, with sources strictly increasing and values unchanged; a token is `noAction` exactly when every earlier slot holds a tile |
| Reducer.CollapseValues | 2048/Models/GameModel.swift:266-309 | the values collapse emits are exactly the reference merge of the input values |
| Reducer.CollapseGain | 2048/Models/GameModel.swift:284-294 | the values of the combine tokens collapse emits add up to the points the reference merge awards |
| Reducer.CollapseVariants | 2048/Models/GameModel.swift:259-303 | a `noAction` survives only as the unchanged input token that is still quiescent; a `singleCombine` appears only while the output has not fallen behind the input, and only as the first combine of the line |
| Reducer.CollapseCombineKinds | 2048/Models/GameModel.swift:280-294 | a combine emitted at output position p takes its first tile from slot p or a later one; it is a `singleCombine` exactly when that tile still sits in slot p (a tile, with only empty slots up to the second tile) |
| Reducer.LineCombineKinds | 2048/Models/GameModel.swift:243-294 | on any line, a combine at position k is a `singleCombine` exactly when its first tile has not moved; so a quiescent tile with an equal neighbour always yields a `singleCombine`, and every `doubleCombine` takes its first tile from a slot after k |
| Reducer.CollapseSingleUse | 2048/Models/GameModel.swift:266-309 | each input tile feeds at most one output token: the tiles the tokens name, read in order, strictly increase, and the successor of a merged pair is skipped |
| Reducer.LineSingleUse | 2048/Models/GameModel.swift:243-309 | on any line, collapse after condense uses every tile at most once |
| Reducer.CollapseSourcesAhead | 2048/Models/GameModel.swift:266-309 | the k-th collapsed token takes its tiles from position k or later, and a double combine takes its two tiles in line order |
| Reducer.ConvertFromOrdered | 2048/Models/GameModel.swift:312-327 | the orders convert emits have destinations inside the line that strictly increase |
| Reducer.ConvertFromFaithful | 2048/Models/GameModel.swift:312-327 | each order is the one its destination's token calls for (`move` gives an unmerged single order, `singleCombine` a merged one, `doubleCombine` a double order), and every token other than `noAction` yields its order |
| Reducer.ConvertTowardFront | 2048/Models/GameModel.swift:312-327 | when tokens take their tiles at or after their own positions, every emitted order's sources are at or after its destination |
| Reducer.MergeTowardFront | 2048/Models/GameModel.swift:330-336 | every order of a line has sources at or after its destination, and destinations strictly increase, so writing orders back never reads a cell an earlier order wrote |
| LineApply.CondenseSpread | 2048/Models/GameModel.swift:243-257 | putting each condensed token's tile back at its source rebuilds the original line |
| LineApply.MergeSlides | 2048/Models/GameModel.swift:213-236 | every order of a line fits the line, and writing the orders back in sequence turns the line into its slid form |
| LineApply.MergeScore | 2048/Models/GameModel.swift:213-236 | the score added while writing a line's orders back is the points the reference merge awards |
| LineApply.SlideConserves | 2048/Models/GameModel.swift:213-236 | sliding keeps a line's total face value |
| LineApply.SlideFixpoint | 2048/Models/GameModel.swift:330-336 | a line is its own slid form exactly when it has no gap before a tile and no two adjacent equal tiles |
| LineApply.MergeEmptyIff | 2048/Models/GameModel.swift:330-336 | merge returns no orders exactly when sliding leaves the line unchanged |
| LineApply.MergeExample | 2048/Models/GameModel.swift:243-336 | the line `[2, _, 2, _]` yields the single merged order from source 2 to destination 0 and slides to `[4, _, _, _]` |
| Engine.Coord | 2048/Models/GameModel.swift:187-198 | the generator's cells are in bounds for every direction, line and position |
| Engine.CoordInjective | 2048/Models/GameModel.swift:187-198 | two (line, position) pairs name the same cell exactly when they are equal, so each line has d distinct cells and lines do not overlap |
| Engine.CoordCovers | 2048/Models/GameModel.swift:187-198 | every cell of the board lies on some line at some position, so the d lines cover the board |
| Engine.LinesDetermineBoard | 2048/Models/GameModel.swift:187-198 | two boards whose lines in one direction all agree are equal |
| Engine.BoardOrdersEffect | 2048/Models/GameModel.swift:213-236 | writing a line's orders through the board changes the line exactly as replaying them on the line would, and leaves every cell off the line alone |
| Engine.BoardOrdersSum | 2048/Models/GameModel.swift:213-236 | writing orders through the board changes its total face value exactly as it changes the line's |
| Engine.MoveLineSlides | 2048/Models/GameModel.swift:201-236 | after line i is written back, line i holds its slid form |
| Engine.MoveLineFrame | 2048/Models/GameModel.swift:201-236 | writing line i back leaves every other line of the same direction unchanged |
| Engine.MoveLineSum | 2048/Models/GameModel.swift:201-236 | writing line i back keeps the board's total face value |
| Engine.WriteOrders | 2048/Models/GameModel.swift:213-236 | on the line's cells the inner loop acts exactly as replaying the orders on the line, and every cell off the line keeps its tile; when the orders are the line's own merge, the line ends up slid and the score grows by the points the reference merge awards |
| Engine.SweepLine | 2048/Models/GameModel.swift:201-236 | one outer pass slides line i, keeps the total face value, adds that line's merge gain and records whether the line produced orders |
| Engine.SweepLines | 2048/Models/GameModel.swift:200-237 | after the outer loop every line is slid, the score has grown by every line's merge gain, the total face value is kept, and the flag says whether any line moved |
| Engine.AnyLineMovesExists | 2048/Models/GameModel.swift:200-211 | the accumulated `atLeastOneMove` flag is true exactly when some line moves |
| Engine.SlidBoardDiffers | 2048/Models/GameModel.swift:200-238 | a board all of whose lines were slid differs from the original exactly when some line moves |
| Engine.StillLinesGainNothing | 2048/Models/GameModel.swift:211-230 | when no line moves, no points are earned |
| Engine.SwipeOutcome | 2048/Models/GameModel.swift:200-238 | once every line is slid: the change flag holds exactly when some line moves, which is exactly when the board changed, and no change means no points |
| Engine.PerformMove | 2048/Models/GameModel.swift:183-239 | each line read in travel order ends up slid; the total face value is kept; the score grows by exactly the merge gains and not at all when nothing moves; the result is true exactly when some line moved, which is exactly when the board changed |
| Rules.EmptySpots | 2048/Models/GameModel.swift:114-125 | the list holds every empty cell and only empty cells, each once, in row-major order |
| Rules.InsertTile | 2048/Models/GameModel.swift:94-100 | the cell receives the tile only if it was empty; every other cell is unchanged |
| Rules.InsertTileAtRandomLocationAsWritten | 2048/Models/GameModel.swift:102-112 | with no open spot the board is unchanged; otherwise the drawn spot is filled; with two or more open spots the last one always stays empty |
| Rules.AsWrittenSkipsLastSpot | 2048/Models/GameModel.swift:109 | with two or more open spots the as-written draw never yields the last index |
| Rules.InsertTileAtRandomLocation | 2048/Models/GameModel.swift:102-112 | corrected draw: the spot at index `roll mod count` among all open spots is filled |
| Rules.PickSpotReachesAll | 2048/Models/GameModel.swift:109 | the corrected draw can yield every index below the number of open spots |
| Rules.TileBelowHasSameValue | 2048/Models/GameModel.swift:127-136 | true exactly when the next cell along the row, (x, y+1), exists and holds a tile of that value |
| Rules.TileToRightHasSameValue | 2048/Models/GameModel.swift:138-147 | true exactly when the next cell down the column, (x+1, y), exists and holds a tile of that value |
| Rules.UserHasLost | 2048/Models/GameModel.swift:149-168 | true exactly when no cell is empty and no two orthogonally adjacent cells are equal; the two neighbour tests together cover both axes |
| Rules.UserHasWon | 2048/Models/GameModel.swift:170-180 | reports the first row-major cell holding a tile of at least the threshold, or (false, nil) when there is none |
| Rules.LostBoardCannotMove | 2048/Models/GameModel.swift:149-168 | on a lost board, no swipe in any direction changes any line |
| Scheduler.NewGame | 2048/Models/GameModel.swift:39-47 | a new game has an all-empty d×d board, score 0, an empty queue and an idle timer |
| Scheduler.Reset | 2048/Models/GameModel.swift:50-55 | reset zeroes the score, empties every cell, empties the queue and disarms the timer; dimension and threshold are kept |
| Scheduler.TimerFired | 2048/Models/GameModel.swift:72-91 | draining takes commands from the front in order. Each reports whether its swipe moves the board; all but the last change nothing. It stops when the queue is empty or right after the first changing swipe. Only that swipe alters board and score, and it arms the timer. An empty queue leaves the game unchanged |
| Scheduler.RanStep | 2048/Models/GameModel.swift:77-86 | performing the head command of the queue moves it from the queue to the completion log and keeps the drain description |
| Scheduler.QueueMove | 2048/Models/GameModel.swift:58-68 | a command is dropped once the queue holds more than 100, so the queue reaches 101; otherwise it is appended, and drained at once when no timer is pending; "nothing waits without a pending timer" is preserved |
| Scheduler.TimerElapses | 2048/Models/GameModel.swift:72-91 | when the settle timer elapses it stops being pending and the queue is drained; without an armed timer nothing happens |

## Left out

- Real-time timer: the 0.3-second delay, `Timer.scheduledTimer` and the `@objc` selector are reduced to the `timerArmed` flag plus the explicit `TimerElapses` event.
- Delegate callbacks (`scoreChanged`, `moveOneTile`, `moveTwoTiles`, `insertTile`) are UI notifications and are not modelled. The completion callbacks of queued commands appear only as the `(direction, changed)` log.
- `arc4random_uniform` is a parameter `roll`. The model says which spot each roll picks, not the probability distribution.
- Rules.InsertTileAtRandomLocation: states the spot picked for each roll, not that the draw is uniform, because probabilities are outside the model.
- Swift `Int` overflow of the score and of tile values is not modelled; integers are unbounded.
- The board dimension is a natural number; a negative dimension passed to `init` is not modelled.
- The source's `assert`s are modelled in three ways:
  - The subscript's bounds asserts are preconditions.
  - The "full board but an empty cell" assert in `userHasLost` is proved unreachable.
  - The "combine token in collapse input" asserts are a precondition of `Collapse`. With assertions compiled out, the source would drop such a token instead.
- Engine.MoveLines: the pure description of a whole swipe carries no lemmas of its own. Its properties are stated on `PerformMove`, which computes it.
- `reset` keeps the queue's storage capacity (`keepingCapacity: true`); storage capacity is not observable in the model.
- The game controller, the views, the appearance code and the stale duplicate `AuxModel.swift` are not part of this model.

## Findings

| source | as written | input that shows it | evidently intended | confidence | as-written member | corrected member |
|---|---|---|---|---|---|---|
| 2048/Models/GameModel.swift:109 | the spot index is drawn with `arc4random_uniform(openSpots.count - 1)`, i.e. from `0 ..< count-1` | a board with exactly two empty cells: every draw yields index 0, so the tile always lands in the first cell and never in the second | draw from `0 ..< count` so every open spot can receive the new tile | not executed | Rules.InsertTileAtRandomLocationAsWritten | Rules.InsertTileAtRandomLocation |
