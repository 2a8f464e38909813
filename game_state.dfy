/** The simulation engine: a grid, the snake's body, a bounded queue of
    pending direction changes, the heading, the score and the run mode. */
module SnakeGame {
  import opened SnakeTypes
  import opened SnakeBoard

  /** The heading the snake ends up with once every pending change has been
      applied, one per tick, starting from `heading`. */
  function Settled(heading: Direction, pending: seq<Direction>): Direction
    decreases |pending|
  {
    if pending == [] then heading else Settled(pending[0], pending[1..])
  }

  /** Draining the queue leaves the snake on the last queued heading. */
  lemma {:induction false} SettledIsLast(heading: Direction, pending: seq<Direction>)
    ensures Settled(heading, pending) == if pending == [] then heading else pending[|pending| - 1]
    decreases |pending|
  {
    if pending != [] {
      SettledIsLast(pending[0], pending[1..]);
    }
  }

  /** Each heading in `chain` is a quarter turn from the one before it, so
      no step keeps the heading or reverses it. */
  predicate QuarterTurns(chain: seq<Direction>)
  {
    forall i :: 0 <= i < |chain| - 1 ==> Perpendicular(chain[i], chain[i + 1])
  }

  /** Queueing a quarter turn from the settled heading extends a chain of
      quarter turns. */
  lemma QueueTurnKeepsChain(heading: Direction, pending: seq<Direction>, d: Direction)
    requires QuarterTurns([heading] + pending)
    requires Perpendicular(Settled(heading, pending), d)
    ensures QuarterTurns([heading] + pending + [d])
  {
    SettledIsLast(heading, pending);
    var chain := [heading] + pending;
    assert chain[|chain| - 1] == Settled(heading, pending);
    forall i | 0 <= i < |chain + [d]| - 1
      ensures Perpendicular((chain + [d])[i], (chain + [d])[i + 1])
    {
      if i < |chain| - 1 {
        assert (chain + [d])[i] == chain[i] && (chain + [d])[i + 1] == chain[i + 1];
      }
    }
  }

  /** Consuming the front of a chain of quarter turns leaves a chain of quarter turns. */
  lemma DequeueKeepsChain(chain: seq<Direction>)
    requires |chain| >= 1 && QuarterTurns(chain)
    ensures QuarterTurns(chain[1..])
  {
    forall i | 0 <= i < |chain[1..]| - 1
      ensures Perpendicular(chain[1..][i], chain[1..][i + 1])
    {
      assert chain[1..][i] == chain[i + 1] && chain[1..][i + 1] == chain[i + 2];
    }
  }

  /** The second segment, when there is one, lies one step behind the head,
      against `heading`. */
  predicate NeckBehind(body: seq<Position>, heading: Direction)
  {
    |body| >= 2 ==> body[1] == body[0].Translate(heading.Opposite())
  }

  /** Keeping the heading or turning a quarter never sends the head back onto
      the segment behind it. */
  lemma NeverOntoNeck(body: seq<Position>, heading: Direction, d: Direction)
    requires d == heading || Perpendicular(heading, d)
    ensures |body| >= 2 && NeckBehind(body, heading) ==> body[0].Translate(d) != body[1]
  {
    PerpendicularIsTurn(heading, d);
    OppositeInvolutive(heading);
  }

  /** Once the head has stepped along `d`, the old head is one step behind it. */
  lemma NeckAfterStep(head: Position, d: Direction, rest: seq<Position>)
    requires rest != [] ==> rest[0] == head
    ensures NeckBehind([head.Translate(d)] + rest, d)
  {
    TranslateOpposite(head, d);
  }

  /** The body laid out by the constructor: `len` segments in row `row`,
      head at column `len`, tail at column 1. */
  function InitialBody(row: int, len: nat): (body: seq<Position>)
    ensures |body| == len
    ensures forall p {:trigger p in body} :: p in body <==> p.row == row && 1 <= p.col <= len
    ensures len > 0 ==> body[0] == Position(row, len) && body[len - 1] == Position(row, 1)
    ensures Distinct(body) && Connected(body)
    ensures NeckBehind(body, Right)
  {
    var body := seq(len, i requires 0 <= i < len => Position(row, len - i));
    assert forall c | 1 <= c <= len :: body[len - c] == Position(row, c);
    body
  }

  class GameState {
    const rows: int
    const cols: int
    const grid: array2<GridValue>
    var dir: Direction
    var score: int
    var mode: GameMode
    /** Pending direction changes, oldest first. */
    var dirChanges: seq<Direction>
    /** The body, head first and tail last. */
    var snakePositions: seq<Position>

    /** The grid has the declared dimensions. */
    predicate Shaped()
    {
      grid.Length0 == rows && grid.Length1 == cols
    }

    /** `p` lies off the board. */
    predicate OutsideGrid(p: Position)
      ensures !OutsideGrid(p) <==> p in Cells(rows, cols)
      ensures Shaped() && !OutsideGrid(p) ==> p.row < grid.Length0 && p.col < grid.Length1
    {
      p.row < 0 || p.row >= rows || p.col < 0 || p.col >= cols
    }

    /** The grid as a value: what each on-board position holds. */
    ghost var board: Board

    /** The cell holding food, if any. */
    ghost var food: Option<Position>

    /** `board` mirrors the grid array cell for cell. */
    ghost predicate Coupled()
      reads this`board, grid
      requires Shaped()
    {
      (forall p {:trigger p in board} :: p in board <==> !OutsideGrid(p)) &&
      forall p {:trigger board[p]} | p in board :: board[p] == grid[p.row, p.col]
    }

    /** The grid, its mirror and the body agree and satisfy the board invariant. */
    ghost predicate BoardValid()
      reads this`board, this`snakePositions, this`food, grid
    {
      Shaped() && Coupled() && Consistent(board, snakePositions, food)
    }

    /** At most two changes are pending, and each is a quarter turn from the
        heading before it. */
    ghost predicate TurnsValid()
      reads this`dir, this`dirChanges
    {
      |dirChanges| <= 2 && QuarterTurns([dir] + dirChanges)
    }

    ghost predicate Valid()
      reads this, grid
    {
      BoardValid() && TurnsValid() && score == |snakePositions|
    }

    constructor (rows: int, cols: int)
      requires rows >= 1 && cols >= 2
      ensures Valid() && fresh(grid)
      ensures this.rows == rows && this.cols == cols
      ensures dir == Right && dirChanges == [] && mode == NotStarted
      ensures snakePositions == InitialBody(rows / 2, cols * 5 / 10)
      ensures score == cols * 5 / 10
      ensures food.Some?
      ensures NeckBehind(snakePositions, dir)
    {
      this.rows := rows;
      this.cols := cols;
      grid := new GridValue[rows, cols]((r, c) => Empty);
      board := EmptyBoard(rows, cols);
      dir := Right;
      score := 0;
      mode := NotStarted;
      dirChanges := [];
      snakePositions := [];
      food := None;
      new;
      AddSnake();
      ghost var board0 := board;
      assert board0[Position(rows / 2, 0)] == Empty;
      AddFood();
      FirstFoodMakesConsistent(board0, snakePositions, food);
    }

    /** Lays the initial body along the middle row, head at column
        `cols * 5 / 10`, and sets the score to its length. */
    method AddSnake()
      requires Shaped() && rows >= 1 && cols >= 2
      requires snakePositions == []
      requires Coupled() && forall p {:trigger board[p]} | p in board :: board[p] == Empty
      modifies this`snakePositions, this`score, this`board, grid
      ensures Coupled()
      ensures snakePositions == InitialBody(rows / 2, cols * 5 / 10)
      ensures score == cols * 5 / 10
      ensures forall p {:trigger board[p]} | p in board :: board[p] == if p in snakePositions then Snake else Empty
      ensures BodyOk(board, snakePositions)
    {
      var r := rows / 2;
      var initSnakeLength := cols * 5 / 10;
      var c := 1;
      while c <= initSnakeLength
        invariant 1 <= c <= initSnakeLength + 1
        invariant snakePositions == InitialBody(r, c - 1)
        invariant Coupled()
        invariant forall p {:trigger board[p]} | p in board :: board[p] == if p in snakePositions then Snake else Empty
      {
        grid[r, c] := Snake;
        board := board[Position(r, c) := Snake];
        snakePositions := [Position(r, c)] + snakePositions;
        c := c + 1;
      }
      assert forall i :: 0 <= i < |snakePositions| ==> snakePositions[i] in snakePositions;
      score := initSnakeLength;
    }

    /** The Empty cells, in row-major order. */
    method EmptyPositions() returns (empty: seq<Position>)
      requires Shaped()
      ensures forall p :: p in empty <==> !OutsideGrid(p) && grid[p.row, p.col] == Empty
      ensures forall i, j :: 0 <= i < j < |empty| ==> RowMajorBefore(empty[i], empty[j])
    {
      empty := [];
      var r := 0;
      while r < rows
        invariant 0 <= r <= rows
        invariant forall p :: p in empty <==> 0 <= p.row < r && 0 <= p.col < cols && grid[p.row, p.col] == Empty
        invariant forall i, j :: 0 <= i < j < |empty| ==> RowMajorBefore(empty[i], empty[j])
      {
        var c := 0;
        while c < cols
          invariant 0 <= c <= cols
          invariant forall p :: p in empty <==>
                      ((0 <= p.row < r && 0 <= p.col < cols) || (p.row == r && 0 <= p.col < c)) &&
                      grid[p.row, p.col] == Empty
          invariant forall i, j :: 0 <= i < j < |empty| ==> RowMajorBefore(empty[i], empty[j])
          invariant forall i :: 0 <= i < |empty| ==> RowMajorBefore(empty[i], Position(r, c))
        {
          if grid[r, c] == Empty {
            empty := empty + [Position(r, c)];
          }
          c := c + 1;
        }
        r := r + 1;
      }
    }

    /** Marks one Empty cell, chosen arbitrarily, as Food and records it in
        `food`; leaves the grid alone when no cell is Empty. */
    method AddFood()
      requires Shaped() && Coupled()
      modifies this`board, this`food, grid
      ensures Coupled()
      ensures food.None? <==> Empty !in old(board).Values
      ensures food.Some? ==> food.value in old(board) && old(board)[food.value] == Empty
      ensures board == PlaceFood(old(board), food)
    {
      var empty := EmptyPositions();
      if |empty| <= 0 {
        assert Empty !in board.Values by {
          forall p | p in board ensures board[p] != Empty {
            assert p !in empty;
          }
        }
        food := None;
        return;
      }
      var i :| 0 <= i < |empty|;
      var pos := empty[i];
      assert pos in board && board[pos] == Empty;
      grid[pos.row, pos.col] := Food;
      board := board[pos := Food];
      food := Some(pos);
    }

    function HeadPosition(): (p: Position)
      reads this`board, this`snakePositions, this`food, grid
      requires BoardValid()
      ensures p in board && board[p] == Snake
    {
      TailOnlyAtEnd(board, snakePositions);
      snakePositions[0]
    }

    function TailPosition(): (p: Position)
      reads this`board, this`snakePositions, this`food, grid
      requires BoardValid()
      ensures p in board && board[p] == Snake
      ensures p !in snakePositions[..|snakePositions| - 1]
    {
      TailOnlyAtEnd(board, snakePositions);
      snakePositions[|snakePositions| - 1]
    }

    /** Prepends `pos` to the body and marks its cell Snake. */
    method AddHead(pos: Position)
      requires Shaped() && Coupled() && !OutsideGrid(pos)
      modifies this`snakePositions, this`board, grid
      ensures Coupled()
      ensures snakePositions == [pos] + old(snakePositions)
      ensures board == old(board)[pos := Snake]
    {
      snakePositions := [pos] + snakePositions;
      grid[pos.row, pos.col] := Snake;
      board := board[pos := Snake];
    }

    /** Marks the tail's cell Empty and drops the tail from the body. */
    method RemoveTail()
      requires Shaped() && Coupled() && |snakePositions| >= 1
      requires !OutsideGrid(snakePositions[|snakePositions| - 1])
      modifies this`snakePositions, this`board, grid
      ensures Coupled()
      ensures snakePositions == old(snakePositions[..|snakePositions| - 1])
      ensures board == old(board)[old(snakePositions[|snakePositions| - 1]) := Empty]
    {
      var tail := snakePositions[|snakePositions| - 1];
      grid[tail.row, tail.col] := Empty;
      board := board[tail := Empty];
      snakePositions := snakePositions[..|snakePositions| - 1];
    }

    /** The heading new requests are checked against: the last queued one,
        or the current heading when nothing is queued. */
    function LastDirection(): (d: Direction)
      reads this`dir, this`dirChanges
      ensures d == Settled(dir, dirChanges)
    {
      SettledIsLast(dir, dirChanges);
      if |dirChanges| <= 0 then dir else dirChanges[|dirChanges| - 1]
    }

    /** A request is accepted when the queue has room and it is a quarter
        turn from the heading the queue will settle on. */
    function CanChangeDirection(newDir: Direction): (ok: bool)
      reads this`dir, this`dirChanges
      ensures ok <==> |dirChanges| < 2 && Perpendicular(Settled(dir, dirChanges), newDir)
    {
      PerpendicularIsTurn(LastDirection(), newDir);
      if |dirChanges| >= 2 then false
      else
        var lastDir := LastDirection();
        newDir != lastDir && newDir != lastDir.Opposite()
    }

    /** Queues `newDir` at the back when it is accepted; otherwise does nothing. */
    method ChangeDirection(newDir: Direction)
      requires TurnsValid()
      modifies this`dirChanges
      ensures TurnsValid()
      ensures dirChanges == if old(CanChangeDirection(newDir)) then old(dirChanges) + [newDir] else old(dirChanges)
      ensures Settled(dir, dirChanges) == if old(CanChangeDirection(newDir)) then newDir else old(Settled(dir, dirChanges))
    {
      if CanChangeDirection(newDir) {
        QueueTurnKeepsChain(dir, dirChanges, newDir);
        SettledIsLast(dir, dirChanges + [newDir]);
        assert [dir] + (dirChanges + [newDir]) == [dir] + dirChanges + [newDir];
        dirChanges := dirChanges + [newDir];
      }
    }

    /** What the head would run into at `newHeadPos`. The tail's own cell
        counts as Empty, since the tail leaves it in the same tick. */
    function WillHit(newHeadPos: Position): (hit: GridValue)
      reads this`board, this`snakePositions, this`food, grid
      requires BoardValid()
      ensures hit == Outside <==> newHeadPos !in board
      ensures hit == Snake <==> newHeadPos in snakePositions[..|snakePositions| - 1]
      ensures hit == Food <==> newHeadPos in board && board[newHeadPos] == Food
      ensures hit == Empty <==>
                newHeadPos == TailPosition() || (newHeadPos in board && board[newHeadPos] == Empty)
    {
      var n := |snakePositions|;
      assert forall i :: 0 <= i < n - 1 ==> snakePositions[..n - 1][i] == snakePositions[i];
      if OutsideGrid(newHeadPos) then Outside
      else if newHeadPos == TailPosition() then Empty
      else grid[newHeadPos.row, newHeadPos.col]
    }

    /** The first step of a tick: the oldest pending change, if any, becomes
        the heading. */
    method TakeQueuedTurn()
      requires TurnsValid()
      modifies this`dir, this`dirChanges
      ensures TurnsValid()
      ensures old(dirChanges) == [] ==> dir == old(dir) && dirChanges == []
      ensures old(dirChanges) != [] ==> dir == old(dirChanges[0]) && dirChanges == old(dirChanges[1..])
      ensures Perpendicular(old(dir), dir) || dir == old(dir)
      ensures Settled(dir, dirChanges) == old(Settled(dir, dirChanges))
      ensures |snakePositions| >= 2 && NeckBehind(snakePositions, old(dir)) ==>
                snakePositions[0].Translate(dir) != snakePositions[1]
    {
      if |dirChanges| > 0 {
        DequeueKeepsChain([dir] + dirChanges);
        assert Perpendicular(([dir] + dirChanges)[0], ([dir] + dirChanges)[1]);
        assert ([dir] + dirChanges)[1..] == [dirChanges[0]] + dirChanges[1..];
        dir := dirChanges[0];
        dirChanges := dirChanges[1..];
      }
      NeverOntoNeck(snakePositions, old(dir), dir);
    }

    /** The non-fatal move onto an Empty cell or onto the vacating tail: the
        tail is removed, then the head is added. */
    method StepInto(newHeadPos: Position)
      requires BoardValid()
      requires newHeadPos == snakePositions[0].Translate(dir) && newHeadPos in board
      requires newHeadPos == snakePositions[|snakePositions| - 1] || board[newHeadPos] == Empty
      modifies this`snakePositions, this`board, grid
      ensures BoardValid()
      ensures snakePositions == [newHeadPos] + old(snakePositions[..|snakePositions| - 1])
      ensures board == old(board)[old(snakePositions[|snakePositions| - 1]) := Empty][newHeadPos := Snake]
      ensures NeckBehind(snakePositions, dir)
    {
      PlainStepKeepsConsistent(board, snakePositions, food, newHeadPos);
      NeckAfterStep(snakePositions[0], dir, snakePositions[..|snakePositions| - 1]);
      RemoveTail();
      AddHead(newHeadPos);
    }

    /** The move onto the food: the head is added, the score goes up by one and
        new food is placed. */
    method EatFood(newHeadPos: Position)
      requires BoardValid()
      requires newHeadPos == snakePositions[0].Translate(dir) && newHeadPos in board && board[newHeadPos] == Food
      modifies this`snakePositions, this`board, this`food, this`score, grid
      ensures BoardValid()
      ensures score == old(score) + 1
      ensures snakePositions == [newHeadPos] + old(snakePositions)
      ensures food.None? <==> Empty !in old(board).Values
      ensures food.Some? ==> food.value in old(board) && old(board)[food.value] == Empty
      ensures board == PlaceFood(old(board)[newHeadPos := Snake], food)
      ensures NeckBehind(snakePositions, dir)
    {
      ghost var board0, body0, food0 := board, snakePositions, food;
      NeckAfterStep(snakePositions[0], dir, snakePositions);
      AddHead(newHeadPos);
      score := score + 1;
      AddFood();
      GrowStepKeepsConsistent(board0, body0, food0, newHeadPos, food);
    }

    /** Advances one tick and returns the score. `newHead` is where the head
        was sent and `hit` what it ran into. */
    method Move() returns (newScore: int, ghost newHead: Position, ghost hit: GridValue)
      requires Valid()
      modifies this, grid
      ensures Valid()
      ensures newScore == score
      // the direction step: at most one pending change is consumed, from the front
      ensures old(dirChanges) == [] ==> dir == old(dir) && dirChanges == []
      ensures old(dirChanges) != [] ==> dir == old(dirChanges[0]) && dirChanges == old(dirChanges[1..])
      ensures Perpendicular(old(dir), dir) || dir == old(dir)
      ensures Settled(dir, dirChanges) == old(Settled(dir, dirChanges))
      // the head steps along the new heading and is classified in the pre-state
      ensures newHead == old(HeadPosition()).Translate(dir)
      ensures hit == old(WillHit(newHead))
      // the head never reverses onto the segment behind it
      ensures |old(snakePositions)| >= 2 && NeckBehind(old(snakePositions), old(dir)) ==>
                newHead != old(snakePositions[1])
      ensures hit == Empty || hit == Food ==> NeckBehind(snakePositions, dir)
      // fatal collision: only the heading and the queue may have changed
      ensures hit == Outside || hit == Snake ==>
                mode == Over && snakePositions == old(snakePositions) && score == old(score) &&
                board == old(board) && food == old(food)
      // plain move, including a move onto the vacating tail
      ensures hit == Empty ==>
                mode == old(mode) && score == old(score) && food == old(food) &&
                snakePositions == [newHead] + old(snakePositions[..|snakePositions| - 1]) &&
                board == old(board)[old(TailPosition()) := Empty][newHead := Snake]
      // growth: the body gains the new head, the score one point, and food is replaced
      ensures hit == Food ==>
                mode == old(mode) && score == old(score) + 1 &&
                snakePositions == [newHead] + old(snakePositions) &&
                (food.None? <==> Empty !in old(board).Values) &&
                (food.Some? ==> food.value in old(board) && old(board)[food.value] == Empty) &&
                board == PlaceFood(old(board)[newHead := Snake], food)
    {
      TakeQueuedTurn();
      var newHeadPos := HeadPosition().Translate(dir);
      var willHit := WillHit(newHeadPos);
      hit, newHead := willHit, newHeadPos;

      if willHit == Outside || willHit == Snake {
        mode := Over;
      } else if willHit == Empty {
        StepInto(newHeadPos);
      } else if willHit == Food {
        EatFood(newHeadPos);
      }
      newScore := score;
    }
  }
}
