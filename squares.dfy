/**
 * Board coordinates and rook geometry. The classes that provide them
 * (`Square`, `Move`) are not part of this model; they are described here
 * only through the operations the board engine and the search call:
 * the linear index, `rookMove`, `between`, `direction`, `isEdge` and
 * the table of rook moves.
 */
module Squares {
  import opened Options

  const SIZE: int := 9

  type Coord = x: int | 0 <= x < 9

  /** A square (column, row), both counted from 0. */
  datatype Square = Sq(col: Coord, row: Coord)

  /** A move from one square to another. */
  datatype Move = Move(from: Square, to: Square)

  /** The linear index of a square: column plus nine times the row. */
  function Index(s: Square): (i: nat)
    ensures i < 81
  {
    s.col + 9 * s.row
  }

  /** The square with linear index `i`. */
  function SquareAt(i: int): (s: Square)
    requires 0 <= i < 81
    ensures Index(s) == i
  {
    Sq(i % 9, i / 9)
  }

  lemma SquareAtIndex(s: Square)
    ensures SquareAt(Index(s)) == s
  {
  }

  /** Every square, the catalogue the Java code iterates as SQUARE_LIST. */
  function AllSquares(): set<Square>
  {
    set c: Coord, r: Coord | 0 <= c < 9 && 0 <= r < 9 :: Sq(c, r)
  }

  lemma InAllSquares(s: Square)
    ensures s in AllSquares()
  {
    assert Sq(s.col, s.row) == s;
  }

  /** The throne and the four squares around it. */
  const THRONE: Square := Sq(4, 4)
  const NTHRONE: Square := Sq(4, 5)
  const STHRONE: Square := Sq(4, 3)
  const WTHRONE: Square := Sq(3, 4)
  const ETHRONE: Square := Sq(5, 4)

  /** The squares that surround the throne, in the order they are listed. */
  const SURROUNDING_THRONE: seq<Square> := [NTHRONE, STHRONE, WTHRONE, ETHRONE]

  predicate IsEdge(s: Square) {
    s.col == 0 || s.col == 8 || s.row == 0 || s.row == 8
  }

  /** Directions 0..3 are north (row + 1), east (column + 1), south and west. */
  predicate IsDir(d: int) { 0 <= d < 4 }

  function ColAfter(s: Square, d: int, n: int): int
    requires IsDir(d)
  {
    if d == 1 then s.col + n else if d == 3 then s.col - n else s.col
  }

  function RowAfter(s: Square, d: int, n: int): int
    requires IsDir(d)
  {
    if d == 0 then s.row + n else if d == 2 then s.row - n else s.row
  }

  /** The square `n` steps from `s` in direction `d`, or none when that leaves the board (`rookMove`). */
  function RookMove(s: Square, d: int, n: int): (r: Option<Square>)
    requires IsDir(d)
    ensures r.Some? <==> 0 <= ColAfter(s, d, n) < 9 && 0 <= RowAfter(s, d, n) < 9
  {
    var c, w := ColAfter(s, d, n), RowAfter(s, d, n);
    if 0 <= c < 9 && 0 <= w < 9 then Some(Sq(c, w)) else None
  }

  /** How many squares lie beyond `s` in direction `d` before the edge. */
  function RayLen(s: Square, d: int): (n: nat)
    requires IsDir(d)
    ensures n < 9
  {
    if d == 0 then 8 - s.row else if d == 1 then 8 - s.col else if d == 2 then s.row else s.col
  }

  /**
   * The squares reached by one rook move from `s` in direction `d`, nearest
   * first: the destinations of the move table entry for `s` and `d`.
   */
  function Ray(s: Square, d: int): (ray: seq<Square>)
    requires IsDir(d)
    ensures |ray| == RayLen(s, d)
    ensures forall k :: 0 <= k < |ray| ==> RookMove(s, d, k + 1) == Some(ray[k])
    ensures forall k :: 0 <= k < |ray| ==> IsRookMove(s, ray[k])
  {
    seq(RayLen(s, d), k requires 0 <= k < RayLen(s, d) => Sq(ColAfter(s, d, k + 1), RowAfter(s, d, k + 1)))
  }

  /** The rook moves from `s` in direction `d`, nearest destination first (`ROOK_MOVES`). */
  function RookMoves(s: Square, d: int): (ms: seq<Move>)
    requires IsDir(d)
    ensures |ms| == RayLen(s, d)
    ensures forall k :: 0 <= k < |ms| ==> ms[k] == Move(s, Ray(s, d)[k])
  {
    seq(RayLen(s, d), k requires 0 <= k < RayLen(s, d) => Move(s, Ray(s, d)[k]))
  }

  lemma RayEnds(s: Square, d: int)
    requires IsDir(d)
    ensures RookMove(s, d, RayLen(s, d) + 1).None?
  {
  }

  /** A move along one row or one column to a different square. */
  predicate IsRookMove(from: Square, to: Square) {
    from != to && (from.col == to.col || from.row == to.row)
  }

  /** The direction of a rook move. */
  function Direction(from: Square, to: Square): (d: int)
    requires IsRookMove(from, to)
    ensures IsDir(d)
  {
    if from.col == to.col then (if to.row > from.row then 0 else 2)
    else (if to.col > from.col then 1 else 3)
  }

  /** The number of steps of a rook move. */
  function Dist(from: Square, to: Square): (n: nat)
    requires IsRookMove(from, to)
    ensures 1 <= n <= RayLen(from, Direction(from, to))
  {
    if from.col == to.col then (if to.row > from.row then to.row - from.row else from.row - to.row)
    else (if to.col > from.col then to.col - from.col else from.col - to.col)
  }

  /** A rook move lands on its ray, `Dist` squares out. */
  lemma RayReaches(from: Square, to: Square)
    requires IsRookMove(from, to)
    ensures Dist(from, to) <= RayLen(from, Direction(from, to))
    ensures Ray(from, Direction(from, to))[Dist(from, to) - 1] == to
  {
  }

  /** Every square of a ray is a rook move away, in that direction and at that distance. */
  lemma RayIsRookMoves(s: Square, d: int, k: nat)
    requires IsDir(d) && k < RayLen(s, d)
    ensures IsRookMove(s, Ray(s, d)[k])
    ensures Direction(s, Ray(s, d)[k]) == d && Dist(s, Ray(s, d)[k]) == k + 1
  {
  }

  /** The square midway between two squares two steps apart (`between`). */
  function Between(a: Square, b: Square): (m: Square)
  {
    Sq((a.col + b.col) / 2, (a.row + b.row) / 2)
  }

  /** Between a square and the square two steps away lies the adjacent square. */
  lemma BetweenTwoSteps(s: Square, d: int)
    requires IsDir(d) && RookMove(s, d, 2).Some?
    ensures RookMove(s, d, 1).Some?
    ensures Between(s, RookMove(s, d, 2).value) == RookMove(s, d, 1).value
  {
  }

  /** The square two steps out is itself a neighbour of the square in between. */
  lemma FarIsNeighbourOfMid(s: Square, d: int)
    requires IsDir(d) && RookMove(s, d, 2).Some?
    ensures RookMove(s, d, 1).Some?
    ensures RookMove(RookMove(s, d, 1).value, d, 1) == RookMove(s, d, 2)
  {
  }
}
