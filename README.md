# Snake game engine — a verified Dafny model

This project models the simulation engine of a grid-based Snake game: the
`GameState` class of `Snake/GameState.cs`. The engine owns a `Rows × Cols`
grid of cells (Empty, Snake, Food), the snake's body as a list of positions
with the head first, a queue of at most two pending direction changes, the
current heading, the score and a run mode. Each tick (`Move`) consumes at
most one queued direction, moves the head one cell along the heading and then
does one of three things:

- it ends the game when the head leaves the grid or runs into the body;
- it makes a plain move when the cell is Empty or is the tail's cell, which
  the tail vacates in the same tick;
- it grows the snake and places new food on a random Empty cell when the
  cell holds food.

The model keeps the source's imperative shape. `GameState` is a Dafny class:

- the grid is an `array2<GridValue>`;
- the body (`snakePositions`) and the direction queue (`dirChanges`) are
  `seq` fields that the methods reassign;
- `AddSnake`, `AddFood`, `AddHead`, `RemoveTail`, `ChangeDirection` and
  `Move` are methods with `modifies` clauses;
- `EmptyPositions` is a method that only reads the grid.

Two ghost fields give the state a value-level view:

- `board`, a map from each on-grid position to its cell value, kept equal to
  the array cell for cell (`Coupled`);
- `food`, the cell that holds food, if any.

The engine's invariant is stated once, on values, in module `SnakeBoard`
(`Consistent`):

- the body is non-empty, on the grid, repeats no position, and is a chain of
  orthogonal neighbours;
- a cell is marked Snake exactly when it is a body position;
- `food` names the one Food cell, and there is none only when no cell is
  Empty.

`Valid` adds the rest:

- the score equals the body length;
- the queue holds at most two entries;
- the heading followed by the queue is a chain of quarter turns (no entry
  repeats or reverses the one before it).

The constructor establishes `Valid`, and `ChangeDirection` and `Move`
preserve it. The effect of each tick outcome on the board is proved as a pure
lemma, and the methods apply those lemmas.

Files:

- `types.dfy` (module `SnakeTypes`): the value types, which are
  `GridValue`, `GameMode`, `Direction` with its offsets and `Opposite`,
  `Position` with `Translate`, plus the sequence predicates.
- `board.dfy` (module `SnakeBoard`): the board as a value, the invariant and
  the step lemmas.
- `game_state.dfy` (module `SnakeGame`): the `GameState` class, plus the
  queue lemmas and the initial body.

`Position.cs`, `Direction.cs`, `GridValue.cs` and `GameMode.cs` are not part of
this model. Minimal versions are defined here:

- a position is a (row, col) pair compared by value;
- rows grow downwards, so `Up` has row offset −1;
- the four directions are the orthogonal ones that the UI sends;
- directions are compared by value, so the guard `newDir != lastDir.Opposite()`
  (`Snake/GameState.cs:124`) compares headings and not object identities;
- `Empty` is assumed to be the zero value of `GridValue`, so a freshly
  allocated grid (`Snake/GameState.cs:28`) is all Empty.

## Model

| member | source | states |
|---|---|---|
| SnakeTypes.Direction.Opposite | Snake/GameState.cs:124 | the opposite heading negates both offsets and is never the heading itself |
| SnakeTypes.OppositeInvolutive | Snake/GameState.cs:124 | taking the opposite twice gives the heading back |
| SnakeTypes.PerpendicularIsTurn | Snake/GameState.cs:124 | "neither the same heading nor its opposite" holds exactly when the two headings are a quarter turn apart |
| SnakeTypes.Position.Translate | Snake/GameState.cs:164 | the translated position is an orthogonal neighbour of the original |
| SnakeTypes.TranslateOpposite | Snake/GameState.cs:164 | a step along the opposite heading undoes a step |
| SnakeBoard.Cells | Snake/GameState.cs:136-139 | a position is a grid cell exactly when its row and column are within bounds |
| SnakeBoard.PlaceFood | Snake/GameState.cs:72 | the chosen cell, if any, becomes Food and every other cell keeps its value; no cell other than the chosen one is added |
| SnakeBoard.EmptyBoard | Snake/GameState.cs:28 | a freshly allocated grid (with `Empty` as the zero value): exactly the in-bounds positions, every one Empty |
| SnakeBoard.TailOnlyAtEnd | Snake/GameState.cs:80-83 | in a consistent state the tail occurs only once in the body, and the head and tail cells are marked Snake |
| SnakeBoard.FirstFoodMakesConsistent | Snake/GameState.cs:24-33 | a board holding only the body, with food put on an Empty cell (or nowhere when none is Empty), satisfies the invariant |
| SnakeBoard.PlainStepKeepsBody | Snake/GameState.cs:171-175 | removing the tail and prepending an adjacent head on an Empty or tail cell keeps the body distinct, connected and equal to the Snake cells |
| SnakeBoard.PlainStepKeepsConsistent | Snake/GameState.cs:171-175 | a plain step (tail cleared, head marked) keeps the whole invariant with the same food cell |
| SnakeBoard.GrowStepKeepsBody | Snake/GameState.cs:176-181 | prepending an adjacent non-body head without removing the tail keeps the body distinct, connected and equal to the Snake cells |
| SnakeBoard.GrowStepKeepsConsistent | Snake/GameState.cs:176-181 | eating the food and placing new food on a former Empty cell (or none when no cell is Empty) keeps the invariant with the new food cell |
| SnakeGame.SettledIsLast | Snake/GameState.cs:103-113 | applying every queued change leaves the last queued heading, or the current one when the queue is empty |
| SnakeGame.QueueTurnKeepsChain | Snake/GameState.cs:128-134 | appending a quarter turn from the settled heading keeps the heading-plus-queue a chain of quarter turns |
| SnakeGame.DequeueKeepsChain | Snake/GameState.cs:158-162 | dropping the front of a chain of quarter turns leaves a chain of quarter turns |
| SnakeGame.InitialBody | Snake/GameState.cs:35-45 | the initial body has `len` segments lying exactly on columns 1..len of its row, head at column len and tail at column 1, distinct and connected; the second segment lies one step behind the head for the initial heading Right |
| SnakeGame.NeverOntoNeck | Snake/GameState.cs:124 | when the second segment lies behind the head, keeping the heading or turning a quarter never sends the head onto that segment |
| SnakeGame.NeckAfterStep | Snake/GameState.cs:164 | after the head steps along a heading, the old head lies one step behind the new one |
| SnakeGame.GameState.OutsideGrid | Snake/GameState.cs:136-139 | a position is outside exactly when it is not a grid cell |
| SnakeGame.GameState.constructor | Snake/GameState.cs:24-33 | the new state is valid, heading Right with an empty queue, and holds food. The body is `Cols*5/10` segments on row `Rows/2`, its second segment lies behind the head, and the score equals that length |
| SnakeGame.GameState.AddSnake | Snake/GameState.cs:35-45 | on an all-Empty grid, lays the initial body and sets the score to its length. Exactly the body cells become Snake |
| SnakeGame.GameState.EmptyPositions | Snake/GameState.cs:47-60 | returns exactly the on-grid positions whose cell is Empty, in strictly increasing row-major order |
| SnakeGame.GameState.AddFood | Snake/GameState.cs:62-73 | marks one formerly Empty cell as Food and records it, changing nothing else. Only when no cell is Empty is no food placed |
| SnakeGame.GameState.HeadPosition | Snake/GameState.cs:75-78 | the head is an on-grid cell marked Snake |
| SnakeGame.GameState.TailPosition | Snake/GameState.cs:80-83 | the tail is an on-grid cell marked Snake that occurs nowhere else in the body |
| SnakeGame.GameState.AddHead | Snake/GameState.cs:90-94 | the position is prepended to the body and only its cell becomes Snake |
| SnakeGame.GameState.RemoveTail | Snake/GameState.cs:96-101 | the last position is dropped from the body and only its cell becomes Empty |
| SnakeGame.GameState.LastDirection | Snake/GameState.cs:103-113 | the result is the heading the snake settles on once the queue drains |
| SnakeGame.GameState.CanChangeDirection | Snake/GameState.cs:115-126 | a change is accepted exactly when fewer than two are queued and it is a quarter turn from the settled heading |
| SnakeGame.GameState.ChangeDirection | Snake/GameState.cs:128-134 | an accepted change is appended at the back and becomes the settled heading. A rejected one leaves the queue unchanged. The queue never exceeds two entries |
| SnakeGame.GameState.WillHit | Snake/GameState.cs:141-154 | Outside exactly off the grid; Snake exactly on a body cell other than the tail; Food exactly on the food cell; Empty exactly on the tail or an Empty cell |
| SnakeGame.GameState.TakeQueuedTurn | Snake/GameState.cs:158-162 | the oldest pending change, if any, becomes the heading and leaves the queue; it is a quarter turn from the old heading, the settled heading is unchanged, and a head whose second segment lies behind it is not sent onto that segment |
| SnakeGame.GameState.StepInto | Snake/GameState.cs:171-175 | the tail leaves, the new head is prepended, body length is unchanged, the old head lies behind the new one, and the invariant holds |
| SnakeGame.GameState.EatFood | Snake/GameState.cs:176-181 | the body grows by the new head and the score by one. New food goes on a formerly Empty cell, or nowhere exactly when none was Empty. The old head lies behind the new one, and the invariant holds |
| SnakeGame.GameState.Move | Snake/GameState.cs:156-183 | at most one queued change is consumed, from the front, and it is a quarter turn from the old heading. The head steps along the heading and is classified in the pre-state. When the second segment lay behind the head, the head is not sent onto it, and after a non-fatal tick the old head lies behind the new one. On Outside or Snake, only the mode becomes Over and the body, score, board and food are unchanged. On Empty, the result is a plain step with the score unchanged. On Food, the snake grows with score + 1. The returned score is the new score and the invariant holds |

## Left out

- `Snake/MainWindow.xaml.cs` is not part of this model. It covers drawing, timers, the countdown and game-over animations, keyboard binding and the pause/resume mode switching.
- `System.Random` in `AddFood` is replaced by an arbitrary choice among the Empty cells, so every choice is covered. The distribution is not modelled.
- `EmptyPositions` is a lazy iterator in the source. Here it returns the complete row-major sequence.
- `SnakePositions()` (`Snake/GameState.cs:85-88`) only exposes the body list. The field `snakePositions` plays that role.
- SnakeGame.GameState.constructor: requires `rows >= 1` and `cols >= 2`. A negative `rows` or `cols` fails when the grid is allocated (`Snake/GameState.cs:28`), before `AddSnake` runs. With `rows == 0` and `cols >= 2`, `AddSnake` writes outside the array. With `rows == 0` and `cols` of 0 or 1, the constructor finishes with an empty body and no food. With `rows >= 1` and `cols` of 0 or 1, the body is empty and the first `Move` fails on the empty list. The initial length `Cols * 5 / 10` (`Snake/GameState.cs:38`) is computed here on unbounded integers. In the source it is 32-bit `int` arithmetic. For `cols >= 429496730`, `Cols * 5` wraps around in an unchecked build (a checked build throws). For example, `cols = 429496730` gives a length of −214748364, an empty body and a negative score, while the model promises a body of `cols * 5 / 10` segments. Such grids are not modelled; the only caller (`Snake/MainWindow.xaml.cs:24`) builds a 32 × 32 grid.
- SnakeGame.GameState.AddSnake: computes `Cols * 5 / 10` on unbounded integers, so its promised body of `cols * 5 / 10` segments does not cover the 32-bit wrap-around of `Cols * 5` for `cols >= 429496730` described on the constructor line.
- Mode changes other than `Over` happen only in the UI, which is left out. `GameMode.cs` is not part of this model, so the initial mode `NotStarted` is assumed: `Snake/MainWindow.xaml.cs:69-74` starts a game only from `NotStarted`.
- `Score` is a 32-bit `int` in the source. It is modelled as an unbounded integer, since it is bounded by the number of cells.
- SnakeGame.GameState.Move: the dequeue step and the two non-fatal branches are written as the helper methods `TakeQueuedTurn` (lines 158-162), `StepInto` (lines 171-175) and `EatFood` (lines 176-181). Each runs the same statements in the same order as the source.
- `HeadPosition`, `TailPosition` and `WillHit` require the invariant. The source only needs a non-empty body, which the invariant implies.
- SnakeGame.GameState.AddHead: requires its position on the grid. With an off-grid position the source first prepends it to the list and then fails on the array index (`Snake/GameState.cs:92-93`), leaving the body and the grid out of step. That error path is not modelled; `Move` calls `AddHead` only with an on-grid position.
- SnakeGame.GameState.RemoveTail: requires a non-empty body whose tail is on the grid. On an empty body the source fails on the missing last node (`Snake/GameState.cs:98`). That error path is not modelled; `Move` calls `RemoveTail` only on a valid state, whose body is non-empty and on the grid.
