/** The board seen as a value: a map from each grid position to what the
    cell holds, together with the snake's body. The engine's invariant and
    the effect of each kind of tick on it are stated and proved here. */
module SnakeBoard {
  import opened SnakeTypes

  type Board = map<Position, GridValue>

  /** Every position of a `rows` by `cols` grid. */
  function Cells(rows: int, cols: int): (cells: set<Position>)
    ensures forall p {:trigger p in cells} :: p in cells <==> 0 <= p.row < rows && 0 <= p.col < cols
  {
    var cells := set r, c | 0 <= r < rows && 0 <= c < cols :: Position(r, c);
    assert forall p: Position | 0 <= p.row < rows && 0 <= p.col < cols :: Position(p.row, p.col) in cells;
    cells
  }

  /** A `rows` by `cols` board with every cell Empty. */
  function EmptyBoard(rows: int, cols: int): (board: Board)
    ensures forall p {:trigger p in board} :: p in board <==> 0 <= p.row < rows && 0 <= p.col < cols
    ensures forall p {:trigger board[p]} | p in board :: board[p] == Empty
  {
    map p | p in Cells(rows, cols) :: Empty
  }

  /** The body is non-empty, lies on the board, never repeats a position and
      is a chain of neighbouring cells. */
  ghost predicate BodyOk(board: Board, body: seq<Position>)
  {
    |body| >= 1 &&
    (forall i :: 0 <= i < |body| ==> body[i] in board) &&
    Distinct(body) && Connected(body)
  }

  /** A cell is marked Snake exactly when it is a body position, and no cell
      holds the Outside sentinel. */
  ghost predicate SnakeCellsAreBody(board: Board, body: seq<Position>)
  {
    forall p {:trigger board[p]} | p in board :: board[p] != Outside && (board[p] == Snake <==> p in body)
  }

  /** `food` names the one cell holding food, if any; there is none only when
      no cell is Empty. */
  ghost predicate FoodOk(board: Board, food: Option<Position>)
  {
    (forall p {:trigger board[p]} | p in board :: board[p] == Food <==> food == Some(p)) &&
    (food.Some? ==> food.value in board) &&
    (food.None? ==> Empty !in board.Values)
  }

  /** The invariant the engine keeps between ticks. */
  ghost predicate Consistent(board: Board, body: seq<Position>, food: Option<Position>)
  {
    BodyOk(board, body) && SnakeCellsAreBody(board, body) && FoodOk(board, food)
  }

  /** The board after food is put on the chosen cell, if one was chosen. */
  function PlaceFood(board: Board, food: Option<Position>): (board': Board)
    ensures board'.Keys == board.Keys + (if food.Some? then {food.value} else {})
    ensures food.Some? ==> board'[food.value] == Food
    ensures forall p {:trigger board[p]} | p in board && food != Some(p) :: board'[p] == board[p]
  {
    if food.Some? then board[food.value := Food] else board
  }

  /** A board holding nothing but the body becomes consistent once food is put
      on one of its Empty cells, or on none when it has no Empty cell. */
  lemma FirstFoodMakesConsistent(board: Board, body: seq<Position>, food: Option<Position>)
    requires BodyOk(board, body)
    requires forall p {:trigger board[p]} | p in board :: board[p] == if p in body then Snake else Empty
    requires food.None? ==> Empty !in board.Values
    requires food.Some? ==> food.value in board && board[food.value] == Empty
    ensures Consistent(PlaceFood(board, food), body, food)
  {
  }

  /** The body and board of a consistent state: the tail is not repeated
      earlier in the body, and the head and tail are Snake cells. */
  lemma TailOnlyAtEnd(board: Board, body: seq<Position>)
    requires BodyOk(board, body) && SnakeCellsAreBody(board, body)
    ensures body[|body| - 1] !in body[..|body| - 1]
    ensures board[body[0]] == Snake && board[body[|body| - 1]] == Snake
  {
  }

  /** The body and Snake cells after a plain step. */
  lemma PlainStepKeepsBody(board: Board, body: seq<Position>, head: Position)
    requires BodyOk(board, body) && SnakeCellsAreBody(board, body)
    requires head in board && Adjacent(body[0], head)
    requires head == body[|body| - 1] || board[head] == Empty
    ensures BodyOk(board[body[|body| - 1] := Empty][head := Snake], [head] + body[..|body| - 1])
    ensures SnakeCellsAreBody(board[body[|body| - 1] := Empty][head := Snake], [head] + body[..|body| - 1])
  {
  }

  /** A plain step (the head moves to an Empty cell or onto the vacating
      tail, and the tail leaves) keeps the state consistent, food included. */
  lemma PlainStepKeepsConsistent(board: Board, body: seq<Position>, food: Option<Position>,
                                  head: Position)
    requires Consistent(board, body, food)
    requires head in board && Adjacent(body[0], head)
    requires head == body[|body| - 1] || board[head] == Empty
    ensures Consistent(board[body[|body| - 1] := Empty][head := Snake], [head] + body[..|body| - 1], food)
  {
  }

  /** The body and Snake cells after the head moves onto a non-body cell and
      the tail stays. */
  lemma GrowStepKeepsBody(board: Board, body: seq<Position>, head: Position, other: Board)
    requires BodyOk(board, body) && SnakeCellsAreBody(board, body)
    requires head in board && Adjacent(body[0], head) && board[head] != Snake
    requires other.Keys == board.Keys
    requires forall p {:trigger other[p]} | p in other :: other[p] == Snake <==> p == head || board[p] == Snake
    requires forall p {:trigger other[p]} | p in other :: other[p] != Outside
    ensures BodyOk(other, [head] + body) && SnakeCellsAreBody(other, [head] + body)
  {
  }

  /** A growing step (the head moves onto the food, the tail stays) keeps the
      state consistent once new food is put on a formerly Empty cell, or on
      none when no cell is Empty. */
  lemma GrowStepKeepsConsistent(board: Board, body: seq<Position>, food: Option<Position>,
                                 head: Position, placed: Option<Position>)
    requires Consistent(board, body, food)
    requires head in board && Adjacent(body[0], head) && board[head] == Food
    requires placed.None? ==> Empty !in board[head := Snake].Values
    requires placed.Some? ==> placed.value in board && board[head := Snake][placed.value] == Empty
    ensures Empty in board[head := Snake].Values <==> Empty in board.Values
    ensures placed.Some? ==> placed.value != head && board[placed.value] == Empty
    ensures Consistent(PlaceFood(board[head := Snake], placed), [head] + body, placed)
  {
    if Empty in board.Values {
      var e :| e in board && board[e] == Empty;
      assert board[head := Snake][e] == Empty;
    }
    var board' := PlaceFood(board[head := Snake], placed);
    forall p | p in board' ensures board'[p] == Food <==> placed == Some(p) {
      if p != head && (placed.None? || p != placed.value) {
        assert board'[p] == board[p];
      }
    }
    forall p | p in board' ensures board'[p] == Snake <==> p == head || board[p] == Snake {
      if p != head && (placed.None? || p != placed.value) {
        assert board'[p] == board[p];
      }
    }
    GrowStepKeepsBody(board, body, head, board');
    if placed.None? {
      forall p | p in board' ensures board'[p] != Empty {
        assert board[head := Snake][p] != Empty;
      }
    }
  }
}
