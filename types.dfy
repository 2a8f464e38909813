/** The value types the snake engine works with: cell values, run modes,
    the four headings and grid positions. */
module SnakeTypes {

  datatype Option<T> = None | Some(value: T)

  /** What a grid cell holds. `Outside` is only ever a classification result
      for a position off the board; it is never stored in the grid. */
  datatype GridValue = Empty | Snake | Food | Outside

  /** The run mode of a session; the engine itself only ever sets `Over`. */
  datatype GameMode = NotStarted | Started | Paused | Resuming | Over

  /** The four orthogonal headings. Rows grow downwards, so `Up` decreases the row. */
  datatype Direction = Left | Right | Up | Down
  {
    function RowOffset(): int
    {
      match this
      case Up => -1
      case Down => 1
      case _ => 0
    }

    function ColOffset(): int
    {
      match this
      case Left => -1
      case Right => 1
      case _ => 0
    }

    /** The heading with both offsets negated. */
    function Opposite(): (o: Direction)
      ensures o.RowOffset() == -RowOffset() && o.ColOffset() == -ColOffset()
      ensures o != this
    {
      match this
      case Left => Right
      case Right => Left
      case Up => Down
      case Down => Up
    }
  }

  /** A direction is determined by its offsets, so negating twice gives it back. */
  lemma OppositeInvolutive(d: Direction)
    ensures d.Opposite().Opposite() == d
  {
  }

  /** `b` turns a quarter away from `a`: their offset vectors are orthogonal. */
  predicate Perpendicular(a: Direction, b: Direction)
  {
    a.RowOffset() * b.RowOffset() + a.ColOffset() * b.ColOffset() == 0
  }

  /** The guard used on direction changes ("neither the same heading nor its
      opposite") is exactly a quarter turn. */
  lemma PerpendicularIsTurn(a: Direction, b: Direction)
    ensures Perpendicular(a, b) <==> b != a && b != a.Opposite()
  {
  }

  /** A cell of the grid, compared by value. */
  datatype Position = Position(row: int, col: int)
  {
    /** This position moved one step along `d`. */
    function Translate(d: Direction): (p: Position)
      ensures Adjacent(this, p)
    {
      Position(row + d.RowOffset(), col + d.ColOffset())
    }
  }

  /** Stepping back along the opposite heading undoes a step. */
  lemma TranslateOpposite(p: Position, d: Direction)
    ensures p.Translate(d).Translate(d.Opposite()) == p
  {
  }

  /** `p` and `q` are orthogonal neighbours. */
  predicate Adjacent(p: Position, q: Position)
  {
    (p.row == q.row && (p.col - q.col == 1 || q.col - p.col == 1)) ||
    (p.col == q.col && (p.row - q.row == 1 || q.row - p.row == 1))
  }

  /** `p` comes strictly before `q` when the grid is read row by row. */
  predicate RowMajorBefore(p: Position, q: Position)
  {
    p.row < q.row || (p.row == q.row && p.col < q.col)
  }

  /** No position occurs twice. */
  predicate Distinct(s: seq<Position>)
  {
    forall i, j :: 0 <= i < j < |s| ==> s[i] != s[j]
  }

  /** Every segment is an orthogonal neighbour of the next one. */
  predicate Connected(s: seq<Position>)
  {
    forall i :: 0 <= i < |s| - 1 ==> Adjacent(s[i], s[i + 1])
  }
}
