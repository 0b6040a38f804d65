/**
 * The rules of Tablut on a value-level picture of the board: every field
 * of a `Board` object gathered in one `BoardState`, and one function per
 * step of the board engine (put, record, the repetition check, captures,
 * the winner rules, move generation, undo). The `Board` class proves its
 * methods against these functions; the lemmas here state what the rules
 * promise.
 */
module Rules {
  import opened Options
  import opened Pieces
  import opened Squares

  /** Java's Integer.MAX_VALUE. */
  const INT_MAX: int := 0x7fff_ffff

  /** Java `int` arithmetic: the result of an operation truncated to 32 bits, two's complement. */
  function Wrap32(x: int): (r: int)
    ensures -INT_MAX - 1 <= r <= INT_MAX
    ensures -INT_MAX - 1 <= x <= INT_MAX ==> r == x
  {
    (x + 0x8000_0000) % 0x1_0000_0000 - 0x8000_0000
  }

  /** The 81 cells, indexed by `Index`. */
  type Grid = g: seq<Piece> | |g| == 81 witness seq(81, _ => EMPTY)

  function Get(g: Grid, s: Square): Piece {
    g[Index(s)]
  }

  /** A recorded position: the grid and the king's square. Two snapshots count as the same position when their grids agree. */
  datatype Snapshot = Snapshot(grid: Grid, king: Option<Square>)

  /** Everything a board holds. `history` is the undo stack, its top last; `seen` the set of recorded grids. */
  datatype BoardState = BoardState(
    grid: Grid,
    king: Option<Square>,
    turn: Piece,
    winner: Option<Piece>,
    moveCount: int,
    moveLimit: int,
    repeated: bool,
    whites: set<Square>,
    blacks: set<Square>,
    history: seq<Snapshot>,
    seen: set<Grid>)

  /** The squares whose piece belongs to `side`. */
  function SideSquares(g: Grid, side: Piece): (r: set<Square>)
    ensures forall s :: s in r <==> Side(Get(g, s)) == side
  {
    var r := set s | s in AllSquares() && Side(Get(g, s)) == side;
    assert forall s :: Side(Get(g, s)) == side ==> s in r by {
      forall s | Side(Get(g, s)) == side ensures s in r { InAllSquares(s); }
    }
    r
  }

  /** The white and black index sets hold exactly the squares of each side. */
  ghost predicate SetsExact(st: BoardState) {
    st.whites == SideSquares(st.grid, WHITE) && st.blacks == SideSquares(st.grid, BLACK)
  }

  /** The recorded king position is the one square holding the king, and there is none when the king is off the board. */
  ghost predicate KingExact(st: BoardState) {
    forall s :: Get(st.grid, s) == KING <==> st.king == Some(s)
  }

  /** The bookkeeping every move and undo keeps. */
  ghost predicate Consistent(st: BoardState) {
    IsSide(st.turn) && SetsExact(st) && KingExact(st)
  }

  // ---------------------------------------------------------------------
  // The starting position

  const INITIAL_ATTACKERS: seq<Square> := [
    Sq(0, 3), Sq(0, 4), Sq(0, 5), Sq(1, 4),
    Sq(8, 3), Sq(8, 4), Sq(8, 5), Sq(7, 4),
    Sq(3, 0), Sq(4, 0), Sq(5, 0), Sq(4, 1),
    Sq(3, 8), Sq(4, 8), Sq(5, 8), Sq(4, 7)]

  const INITIAL_DEFENDERS: seq<Square> := [
    NTHRONE, ETHRONE, STHRONE, WTHRONE,
    Sq(4, 6), Sq(4, 2), Sq(2, 4), Sq(6, 4)]

  /** Attackers stand on the two outer bands, defenders inside them and off the diagonal, so no square gets two pieces. */
  lemma InitialBands(s: Square)
    ensures s in INITIAL_ATTACKERS ==> s.col <= 1 || s.col >= 7 || s.row <= 1 || s.row >= 7
    ensures s in INITIAL_DEFENDERS ==> 2 <= s.col <= 6 && 2 <= s.row <= 6 && s.col != s.row
  {
  }

  function InitialPiece(s: Square): Piece {
    if s in INITIAL_ATTACKERS then BLACK
    else if s in INITIAL_DEFENDERS then WHITE
    else if s == THRONE then KING
    else EMPTY
  }

  function InitialGrid(): (g: Grid)
    ensures forall s :: Get(g, s) == InitialPiece(s)
  {
    var g: Grid := seq(81, i requires 0 <= i < 81 => InitialPiece(SquareAt(i)));
    assert forall s :: Get(g, s) == InitialPiece(s) by {
      forall s ensures Get(g, s) == InitialPiece(s) { SquareAtIndex(s); }
    }
    g
  }

  /** The squares listed in `xs`. */
  function Members(xs: seq<Square>): (r: set<Square>)
    ensures forall s :: s in r <==> s in xs
  {
    set s | s in xs
  }

  /** `put(p, s)` for every `s` of `xs` in turn. */
  function PlaceAll(st: BoardState, p: Piece, xs: seq<Square>): (r: BoardState)
    ensures r == st.(grid := r.grid, king := r.king, whites := r.whites, blacks := r.blacks)
    decreases |xs|
  {
    if xs == [] then st else Put(PlaceAll(st, p, xs[..|xs| - 1]), p, xs[|xs| - 1])
  }

  /** Placing `p` on each square of `xs` fills exactly those squares. */
  lemma {:induction false} PlaceAllGrid(st: BoardState, p: Piece, xs: seq<Square>, s: Square)
    ensures Get(PlaceAll(st, p, xs).grid, s) == if s in xs then p else Get(st.grid, s)
    decreases |xs|
  {
    if xs != [] {
      var init, last := xs[..|xs| - 1], xs[|xs| - 1];
      PlaceAllGrid(st, p, init, s);
      assert s in xs <==> s in init || s == last;
      if s != last {
        SquareAtIndex(s);
        SquareAtIndex(last);
      }
    }
  }

  /** Placing a soldier on each square of `xs` adds exactly those squares to its side's index set. */
  lemma {:induction false} PlaceAllSets(st: BoardState, p: Piece, xs: seq<Square>)
    requires IsSide(p)
    ensures PlaceAll(st, p, xs).king == st.king
    ensures PlaceAll(st, p, xs).whites == if p == WHITE then st.whites + Members(xs) else st.whites
    ensures PlaceAll(st, p, xs).blacks == if p == BLACK then st.blacks + Members(xs) else st.blacks
    decreases |xs|
  {
    if xs != [] {
      var init, last := xs[..|xs| - 1], xs[|xs| - 1];
      PlaceAllSets(st, p, init);
      assert Members(xs) == Members(init) + {last} by {
        assert xs == init + [last];
      }
    }
  }

  /** The position `init` produces: attackers, defenders and king placed, one snapshot recorded, Black to move. */
  function InitialState(): BoardState {
    BoardState(
      InitialGrid(), Some(THRONE), BLACK, None, 0, INT_MAX, false,
      Members(INITIAL_DEFENDERS) + {THRONE}, Members(INITIAL_ATTACKERS),
      [Snapshot(InitialGrid(), Some(THRONE))], {InitialGrid()})
  }

  /** The pieces `init()` puts on the board: attackers, defenders, then the king on the throne. */
  function Placed(st: BoardState): BoardState {
    Put(PlaceAll(PlaceAll(st, BLACK, INITIAL_ATTACKERS), WHITE, INITIAL_DEFENDERS), KING, THRONE)
  }

  /** The pieces `init` places on an empty board are those of the initial position. */
  lemma InitialPlacement(empty: BoardState)
    requires forall s :: Get(empty.grid, s) == EMPTY
    requires empty.whites == {} && empty.blacks == {} && empty.king == None
    ensures var placed := Placed(empty);
      && placed.grid == InitialGrid()
      && placed.king == Some(THRONE)
      && placed.whites == Members(INITIAL_DEFENDERS) + {THRONE}
      && placed.blacks == Members(INITIAL_ATTACKERS)
  {
    var a := PlaceAll(empty, BLACK, INITIAL_ATTACKERS);
    PlaceAllSets(empty, BLACK, INITIAL_ATTACKERS);
    var d := PlaceAll(a, WHITE, INITIAL_DEFENDERS);
    PlaceAllSets(a, WHITE, INITIAL_DEFENDERS);
    var placed := Put(d, KING, THRONE);
    forall i | 0 <= i < 81 ensures placed.grid[i] == InitialGrid()[i] {
      var s := SquareAt(i);
      PlaceAllGrid(empty, BLACK, INITIAL_ATTACKERS, s);
      PlaceAllGrid(a, WHITE, INITIAL_DEFENDERS, s);
      SquareAtIndex(s);
      SquareAtIndex(THRONE);
      InitialBands(s);
    }
  }

  /** The steps of `init()` from a cleared board. */
  function InitSteps(st: BoardState): BoardState {
    Record(Placed(st)).(turn := BLACK, repeated := false, winner := None, moveCount := 0, moveLimit := INT_MAX)
  }

  /** From a cleared board, `init()` reaches the initial position whatever the other fields held. */
  lemma InitStepsFromEmpty(empty: BoardState)
    requires forall s :: Get(empty.grid, s) == EMPTY
    requires empty.whites == {} && empty.blacks == {} && empty.king == None
    requires empty.history == [] && empty.seen == {}
    ensures InitSteps(empty) == InitialState()
  {
    InitialPlacement(empty);
  }

  // ---------------------------------------------------------------------
  // Elementary updates

  /** Set square `s` to `p`, keeping the index sets and the king position as `put` does. */
  function Put(st: BoardState, p: Piece, s: Square): (r: BoardState)
    ensures r.grid == st.grid[Index(s) := p]
    ensures r.turn == st.turn && r.winner == st.winner && r.repeated == st.repeated
    ensures r.moveCount == st.moveCount && r.moveLimit == st.moveLimit
    ensures r.history == st.history && r.seen == st.seen
    ensures r.king == if p == KING then Some(s) else st.king
  {
    var st1 := st.(grid := st.grid[Index(s) := p]);
    match p
    case EMPTY => st1.(whites := st.whites - {s}, blacks := st.blacks - {s})
    case KING => st1.(king := Some(s), whites := st.whites + {s})
    case WHITE => st1.(whites := st.whites + {s})
    case BLACK => st1.(blacks := st.blacks + {s})
  }

  /** Push the current position on the undo stack and add its grid to the set of seen grids. */
  function Record(st: BoardState): (r: BoardState)
    ensures r.history == st.history + [Snapshot(st.grid, st.king)]
    ensures r.seen == st.seen + {st.grid}
    ensures r == st.(history := r.history, seen := r.seen)
  {
    st.(history := st.history + [Snapshot(st.grid, st.king)], seen := st.seen + {st.grid})
  }

  /** If the grid has been seen before, the side to move's opponent wins by repetition. */
  function CheckRepeated(st: BoardState): (r: BoardState)
    ensures st.grid in st.seen ==> r.repeated && r.winner == Opponent(st.turn)
    ensures st.grid !in st.seen ==> r == st
    ensures r == st.(winner := r.winner, repeated := r.repeated)
  {
    if st.grid in st.seen then st.(winner := Opponent(st.turn), repeated := true) else st
  }

  // ---------------------------------------------------------------------
  // Paths and legality

  /** Every square after `from` up to and including `to` is empty. */
  predicate PathClear(g: Grid, from: Square, to: Square)
    requires IsRookMove(from, to)
  {
    var ray := Ray(from, Direction(from, to));
    forall k :: 0 <= k < Dist(from, to) ==> Get(g, ray[k]) == EMPTY
  }

  /** `isLegal(from, to)`: the game is on, `from` holds a piece of the side to move, the path is clear and only the king may land on the throne. */
  predicate IsLegal(st: BoardState, from: Square, to: Square)
    requires IsRookMove(from, to)
  {
    && st.winner.None?
    && Side(Get(st.grid, from)) == st.turn
    && PathClear(st.grid, from, to)
    && (to != THRONE || Get(st.grid, from) == KING)
  }

  /** `isLegal(move)`: a null move is never legal. */
  predicate IsLegalMove(st: BoardState, m: Option<Move>)
    requires m.Some? ==> IsRookMove(m.value.from, m.value.to)
  {
    m.Some? && IsLegal(st, m.value.from, m.value.to)
  }

  // ---------------------------------------------------------------------
  // Captures

  /** The number of the four squares around the throne that hold an attacker. */
  function BlackAroundThrone(g: Grid): (n: nat)
    ensures n <= 4
  {
    (if Get(g, NTHRONE) == BLACK then 1 else 0) + (if Get(g, STHRONE) == BLACK then 1 else 0)
    + (if Get(g, WTHRONE) == BLACK then 1 else 0) + (if Get(g, ETHRONE) == BLACK then 1 else 0)
  }

  /**
   * `isAllied(p, s)`: square `s` sides with `p`'s side: it holds a piece of
   * that side, or it is the empty throne, or (for Black) it is the occupied
   * throne with at least three attackers around it.
   */
  predicate Allied(g: Grid, p: Piece, s: Square) {
    var side := Side(p);
    || Side(Get(g, s)) == side
    || (s == THRONE && Get(g, THRONE) == EMPTY)
    || (side == BLACK && s == THRONE && Get(g, THRONE) != EMPTY && BlackAroundThrone(g) >= 3)
  }

  /** 1 when the neighbour of `s` in direction `d` exists and is allied to `p`, else 0. */
  function AlliedStep(g: Grid, p: Piece, s: Square, d: int): (n: nat)
    requires IsDir(d)
    ensures n <= 1
  {
    var nb := RookMove(s, d, 1);
    if nb.Some? && Allied(g, p, nb.value) then 1 else 0
  }

  /** How many of the neighbours of `s` in directions 0 to n - 1 are allied to `p`. */
  function AlliedUpTo(g: Grid, p: Piece, s: Square, n: nat): (c: nat)
    requires n <= 4
    ensures c <= n
  {
    if n == 0 then 0 else AlliedUpTo(g, p, s, n - 1) + AlliedStep(g, p, s, n - 1)
  }

  /** How many of the four neighbours of `s` are allied to `p`. */
  function AlliedAround(g: Grid, p: Piece, s: Square): nat {
    AlliedUpTo(g, p, s, 4)
  }

  /**
   * The capture test of `tryCapture` for direction `i` after a piece landed
   * on `sq`: the adjacent square holds an opponent, and either it is a
   * soldier with an allied square beyond it, or it is the king away from
   * the throne with an allied square beyond it, or it is the king with
   * more than three allied neighbours.
   */
  predicate CaptureIn(g: Grid, sq: Square, i: int)
    requires IsDir(i)
  {
    var side := Side(Get(g, sq));
    var far := RookMove(sq, i, 2);
    && far.Some?
    && var mid := Between(sq, far.value);
    && Opponent(side) == Some(Side(Get(g, mid)))
    && if Get(g, mid) != KING then Allied(g, side, far.value)
       else if mid != THRONE && mid !in SURROUNDING_THRONE && Allied(g, side, far.value) then true
       else AlliedAround(g, side, mid) > 3
  }

  /** The partner squares (two steps out) of the captures in directions 0 to n - 1, in direction order. */
  function Partners(g: Grid, sq: Square, n: nat): (ps: seq<Square>)
    requires n <= 4
    ensures |ps| <= n
  {
    if n == 0 then []
    else Partners(g, sq, n - 1) + (if CaptureIn(g, sq, n - 1) then [RookMove(sq, n - 1, 2).value] else [])
  }

  /** `capture(sq0, sq2)`: empty the square in between; losing the king clears its position. */
  function Capture(st: BoardState, sq0: Square, sq2: Square): (r: BoardState)
    ensures r == st.(grid := r.grid, king := r.king, whites := r.whites, blacks := r.blacks)
  {
    var mid := Between(sq0, sq2);
    var st1 := if Get(st.grid, mid) == KING then st.(king := None) else st;
    Put(st1, EMPTY, mid)
  }

  function CaptureAll(st: BoardState, sq0: Square, ps: seq<Square>): (r: BoardState)
    ensures r == st.(grid := r.grid, king := r.king, whites := r.whites, blacks := r.blacks)
    decreases |ps|
  {
    if ps == [] then st else CaptureAll(Capture(st, sq0, ps[0]), sq0, ps[1..])
  }

  // ---------------------------------------------------------------------
  // Move generation

  /** A square a sliding piece cannot enter: occupied, or (for pieces other than the king) the throne. */
  predicate Blocked(g: Grid, s: Square, throneBlocks: bool) {
    Get(g, s) != EMPTY || (throneBlocks && s == THRONE)
  }

  /** The length of the longest unblocked stretch of `ray` starting at position `j`, counted from the start of the ray. */
  function PassFrom(g: Grid, ray: seq<Square>, throneBlocks: bool, j: nat): (n: nat)
    requires j <= |ray|
    ensures j <= n <= |ray|
    ensures forall k :: j <= k < n ==> !Blocked(g, ray[k], throneBlocks)
    ensures n < |ray| ==> Blocked(g, ray[n], throneBlocks)
    decreases |ray| - j
  {
    if j == |ray| || Blocked(g, ray[j], throneBlocks) then j else PassFrom(g, ray, throneBlocks, j + 1)
  }

  /** How far a piece can slide along `ray`. */
  function PassLen(g: Grid, ray: seq<Square>, throneBlocks: bool): nat
  {
    PassFrom(g, ray, throneBlocks, 0)
  }

  /** The king's moves among the first `n` squares of direction `d` that pass `isLegal`, nearest first. */
  function KingDirMoves(st: BoardState, k: Square, d: int, n: nat): (ms: seq<Move>)
    requires IsDir(d) && n <= RayLen(k, d)
    ensures forall m :: m in ms ==> m.from == k && IsRookMove(m.from, m.to) && IsLegal(st, m.from, m.to)
  {
    if n == 0 then []
    else
      var to := Ray(k, d)[n - 1];
      KingDirMoves(st, k, d, n - 1) + (if IsLegal(st, k, to) then [Move(k, to)] else [])
  }

  /** The king's moves in directions 0 to dirs - 1. */
  function KingMovesUpTo(st: BoardState, k: Square, dirs: nat): (ms: seq<Move>)
    requires dirs <= 4
    ensures forall m :: m in ms ==> m.from == k && IsRookMove(m.from, m.to) && IsLegal(st, m.from, m.to)
  {
    if dirs == 0 then []
    else
      var d := dirs - 1;
      KingMovesUpTo(st, k, d) + KingDirMoves(st, k, d, PassLen(st.grid, Ray(k, d), false))
  }

  /** The king's moves in the directions below `d` followed by those in direction `d` are its moves in the directions below `d + 1`. */
  lemma KingMovesStep(st: BoardState, k: Square, d: nat, ms: seq<Move>, dm: seq<Move>)
    requires d < 4 && ms == KingMovesUpTo(st, k, d)
    requires dm == KingDirMoves(st, k, d, PassLen(st.grid, Ray(k, d), false))
    ensures ms + dm == KingMovesUpTo(st, k, d + 1)
  {
  }

  /** The king's part of `legalMoves(WHITE)`. */
  function KingMoves(st: BoardState): (ms: seq<Move>)
    requires st.king.Some?
  {
    KingMovesUpTo(st, st.king.value, 4)
  }

  /** The moves of an ordinary piece on `s` in direction `d`: up to the first occupied square or the throne. */
  function PieceDirMoves(g: Grid, s: Square, d: int): (ms: seq<Move>)
    requires IsDir(d)
    ensures forall m :: m in ms ==> m.from == s
  {
    RookMoves(s, d)[..PassLen(g, Ray(s, d), true)]
  }

  /** The moves of an ordinary piece on `s` in directions 0 to dirs - 1. */
  function PieceMovesUpTo(g: Grid, s: Square, dirs: nat): (ms: seq<Move>)
    requires dirs <= 4
    ensures forall m :: m in ms ==> m.from == s
  {
    if dirs == 0 then [] else PieceMovesUpTo(g, s, dirs - 1) + PieceDirMoves(g, s, dirs - 1)
  }

  /** The moves of an ordinary piece on `s`, direction by direction, nearest first. */
  function PieceMoves(g: Grid, s: Square): (ms: seq<Move>)
    ensures forall m :: m in ms ==> m.from == s
  {
    PieceMovesUpTo(g, s, 4)
  }

  /** `pieceLocations(side)`. */
  function Locations(st: BoardState, side: Piece): set<Square>
    requires side != EMPTY
  {
    if Side(side) == WHITE then st.whites else st.blacks
  }

  /** The king's part of `legalMoves(side)`: the king's moves for White, nothing for Black. */
  function KingPart(st: BoardState, side: Piece): seq<Move>
    requires side == WHITE ==> st.king.Some?
  {
    if side == WHITE then KingMoves(st) else []
  }

  /** `m` is a move of a piece other than the king listed in `side`'s index set. */
  ghost predicate SoldierMove(st: BoardState, side: Piece, m: Move)
    requires side != EMPTY
  {
    m.from in Locations(st, side) && Get(st.grid, m.from) != KING && m in PieceMoves(st.grid, m.from)
  }

  /**
   * `moves` is a list `legalMoves(side)` may return: the king's part first,
   * in its fixed order; then, in an order left open (the pieces come from a
   * hash set), exactly the moves of every other piece listed for the side.
   */
  ghost predicate LegalMoveList(st: BoardState, side: Piece, moves: seq<Move>)
    requires side != EMPTY && (side == WHITE ==> st.king.Some?)
  {
    var kms := KingPart(st, side);
    && |kms| <= |moves|
    && moves[..|kms|] == kms
    && forall m :: m in moves[|kms|..] <==> SoldierMove(st, side, m)
  }

  /** The moves `legalMoves(side)` lists for the piece on `s`: none unless `s` is in the side's index set and does not hold the king. */
  function SoldierMovesAt(st: BoardState, side: Piece, s: Square): (ms: seq<Move>)
    requires side != EMPTY
  {
    if s in Locations(st, side) && Get(st.grid, s) != KING then PieceMoves(st.grid, s) else []
  }

  /** A move is listed for its own square exactly when it is a soldier move. */
  lemma SoldierMovesAtSpec(st: BoardState, side: Piece, s: Square, m: Move)
    requires side != EMPTY
    ensures m in SoldierMovesAt(st, side, s) <==> m.from == s && SoldierMove(st, side, m)
  {
  }

  /** The lists `f` gives the squares of index below `i`, concatenated in index order. */
  function ConcatUpTo(f: Square -> seq<Move>, i: nat): seq<Move>
    requires i <= 81
  {
    if i == 0 then [] else ConcatUpTo(f, i - 1) + f(SquareAt(i - 1))
  }

  /** When every list of `f` holds only moves from its own square, a move is in the concatenation exactly when its square is below `i` and `f` lists it there. */
  lemma {:induction false} ConcatUpToSpec(f: Square -> seq<Move>, i: nat, m: Move)
    requires i <= 81
    requires forall s :: m in f(s) ==> m.from == s
    ensures m in ConcatUpTo(f, i) <==> Index(m.from) < i && m in f(m.from)
  {
    if i > 0 {
      ConcatUpToSpec(f, i - 1, m);
      if Index(m.from) == i - 1 {
        SquareAtIndex(m.from);
      }
    }
  }

  /**
   * The moves of the pieces other than the king listed for `side`, the
   * squares taken in index order. The hash set `legalMoves` iterates fixes
   * no order; this model takes index order.
   */
  function SoldierMovesUpTo(st: BoardState, side: Piece, i: nat): (ms: seq<Move>)
    requires side != EMPTY && i <= 81
  {
    ConcatUpTo(s => SoldierMovesAt(st, side, s), i)
  }

  /** One more square appends its soldier moves. */
  lemma SoldierMovesStep(st: BoardState, side: Piece, i: nat)
    requires side != EMPTY && i < 81
    ensures SoldierMovesUpTo(st, side, i + 1) == SoldierMovesUpTo(st, side, i) + SoldierMovesAt(st, side, SquareAt(i))
  {
  }

  /** The squares below `i` contribute exactly their soldier moves. */
  lemma SoldierMovesUpToSpec(st: BoardState, side: Piece, i: nat, m: Move)
    requires side != EMPTY && i <= 81
    ensures m in SoldierMovesUpTo(st, side, i) <==> Index(m.from) < i && SoldierMove(st, side, m)
  {
    forall s | m in SoldierMovesAt(st, side, s) ensures m.from == s {
      SoldierMovesAtSpec(st, side, s, m);
    }
    ConcatUpToSpec(s => SoldierMovesAt(st, side, s), i, m);
    SoldierMovesAtSpec(st, side, m.from, m);
  }

  /** `legalMoves(side)` with the listed pieces taken in index order. */
  function LegalMovesOf(st: BoardState, side: Piece): seq<Move>
    requires side != EMPTY && (side == WHITE ==> st.king.Some?)
  {
    KingPart(st, side) + SoldierMovesUpTo(st, side, 81)
  }

  /** All squares together contribute exactly the soldier moves. */
  lemma SoldierMovesExact(st: BoardState, side: Piece)
    requires side != EMPTY
    ensures forall m :: m in SoldierMovesUpTo(st, side, 81) <==> SoldierMove(st, side, m)
  {
    forall m ensures m in SoldierMovesUpTo(st, side, 81) <==> SoldierMove(st, side, m) {
      SoldierMovesUpToSpec(st, side, 81, m);
    }
  }

  /** The index-order list is one of the lists `legalMoves(side)` may return. */
  lemma LegalMovesOfIsList(st: BoardState, side: Piece)
    requires side != EMPTY && (side == WHITE ==> st.king.Some?)
    ensures LegalMoveList(st, side, LegalMovesOf(st, side))
  {
    SoldierMovesExact(st, side);
    KingPartThen(st, side, SoldierMovesUpTo(st, side, 81));
  }

  /** The king's part followed by a list holding exactly the soldier moves is one of the lists `legalMoves(side)` may return. */
  lemma KingPartThen(st: BoardState, side: Piece, sms: seq<Move>)
    requires side != EMPTY && (side == WHITE ==> st.king.Some?)
    requires forall m :: m in sms <==> SoldierMove(st, side, m)
    ensures LegalMoveList(st, side, KingPart(st, side) + sms)
  {
    var kms := KingPart(st, side);
    var moves := kms + sms;
    assert moves[..|kms|] == kms;
    assert moves[|kms|..] == sms;
  }


  /** `hasMove(side)`: the list `legalMoves(side)` returns is not empty. */
  predicate HasMove(st: BoardState, side: Piece)
    requires side != EMPTY && (side == WHITE ==> st.king.Some?)
  {
    |LegalMovesOf(st, side)| > 0
  }

  /** Two lists `legalMoves(side)` may return are empty together: the order the hash set gives the pieces does not matter. */
  lemma LegalMoveListsAgree(st: BoardState, side: Piece, xs: seq<Move>, ys: seq<Move>)
    requires side != EMPTY && (side == WHITE ==> st.king.Some?)
    requires LegalMoveList(st, side, xs) && LegalMoveList(st, side, ys)
    ensures |xs| > 0 <==> |ys| > 0
  {
    var k := |KingPart(st, side)|;
    if |xs| > k {
      assert xs[k] in xs[k..];
      assert xs[k] in ys[k..];
    }
    if |ys| > k {
      assert ys[k] in ys[k..];
      assert ys[k] in xs[k..];
    }
  }

  /** Any list `legalMoves(side)` may return is non-empty exactly when `hasMove(side)` holds. */
  lemma LegalMoveListNonEmpty(st: BoardState, side: Piece, moves: seq<Move>)
    requires side != EMPTY && (side == WHITE ==> st.king.Some?)
    requires LegalMoveList(st, side, moves)
    ensures |moves| > 0 <==> HasMove(st, side)
  {
    LegalMovesOfIsList(st, side);
    LegalMoveListsAgree(st, side, moves, LegalMovesOf(st, side));
  }

  /** The piece on `s` is one `legalMoves(side)` lists after the king's part, and it can move. */
  ghost predicate SoldierCanMove(st: BoardState, side: Piece, s: Square)
    requires side != EMPTY
  {
    s in Locations(st, side) && Get(st.grid, s) != KING && PieceMoves(st.grid, s) != []
  }

  /** The first move listed for the pieces other than the king belongs to a piece that can move. */
  lemma FirstSoldierMove(st: BoardState, side: Piece)
    requires side != EMPTY && SoldierMovesUpTo(st, side, 81) != []
    ensures SoldierCanMove(st, side, SoldierMovesUpTo(st, side, 81)[0].from)
  {
    SoldierMovesUpToSpec(st, side, 81, SoldierMovesUpTo(st, side, 81)[0]);
  }

  /** A piece other than the king that can move contributes its first move to the list. */
  lemma SoldierMoveListed(st: BoardState, side: Piece, s: Square)
    requires side != EMPTY && SoldierCanMove(st, side, s)
    ensures PieceMoves(st.grid, s)[0] in SoldierMovesUpTo(st, side, 81)
  {
    SoldierMovesUpToSpec(st, side, 81, PieceMoves(st.grid, s)[0]);
  }

  /** The pieces other than the king list some move exactly when one of them can move. */
  lemma SoldierMovesNonEmpty(st: BoardState, side: Piece)
    requires side != EMPTY
    ensures SoldierMovesUpTo(st, side, 81) != [] <==> exists s :: SoldierCanMove(st, side, s)
  {
    if SoldierMovesUpTo(st, side, 81) != [] {
      FirstSoldierMove(st, side);
    }
    if exists s :: SoldierCanMove(st, side, s) {
      var s :| SoldierCanMove(st, side, s);
      SoldierMoveListed(st, side, s);
    }
  }

  /** A side has a move exactly when its king (for White) can move or some other listed piece can. */
  lemma HasMoveSpec(st: BoardState, side: Piece)
    requires side != EMPTY && (side == WHITE ==> st.king.Some?)
    ensures HasMove(st, side) <==> (KingPart(st, side) != [] || exists s :: SoldierCanMove(st, side, s))
  {
    HasMoveParts(st, side);
    SoldierMovesNonEmpty(st, side);
  }

  /** A side has a move exactly when the king's part or the other pieces' part of its list is not empty. */
  lemma HasMoveParts(st: BoardState, side: Piece)
    requires side != EMPTY && (side == WHITE ==> st.king.Some?)
    ensures HasMove(st, side) <==> (KingPart(st, side) != [] || SoldierMovesUpTo(st, side, 81) != [])
  {
  }

  // ---------------------------------------------------------------------
  // Making a move

  /** The piece on `from` moves to `to` and `from` is emptied. */
  function Relocate(st: BoardState, from: Square, to: Square): (r: BoardState)
    ensures r == st.(grid := r.grid, king := r.king, whites := r.whites, blacks := r.blacks)
  {
    Put(Put(st, Get(st.grid, from), to), EMPTY, from)
  }

  /** The winner rules of `makeMove`, tried in order after the move has been recorded. */
  ghost function DecideWinner(st: BoardState, to: Square): (r: BoardState)
    requires IsSide(st.turn)
    ensures r == st.(winner := r.winner)
    ensures r.winner == st.winner || r.winner == Some(WHITE) || r.winner == Some(BLACK)
  {
    if st.moveCount / 2 >= st.moveLimit then st.(winner := Opponent(st.turn))
    else if Get(st.grid, to) == KING && IsEdge(to) then st.(winner := Some(WHITE))
    else if st.king.None? then st.(winner := Some(BLACK))
    else if !HasMove(st, WHITE) then st.(winner := Some(BLACK))
    else if !HasMove(st, BLACK) then st.(winner := Some(WHITE))
    else st
  }

  /** The first steps of `makeMove`: relocate, check for repetition, flip the turn, count the move. */
  function Advanced(st: BoardState, from: Square, to: Square): (r: BoardState)
    requires IsSide(st.turn)
    ensures IsSide(r.turn) && r.turn != st.turn
  {
    var moved := CheckRepeated(Relocate(st, from, to));
    moved.(turn := Opponent(moved.turn).value, moveCount := moved.moveCount + 1)
  }

  /** The capture steps of `makeMove`: find the partners of `to` on the current grid, remove the captured pieces, record. */
  function Captured(st: BoardState, to: Square): BoardState {
    Record(CaptureAll(st, to, Partners(st.grid, to, 4)))
  }

  /** The state just before the winner rules. */
  function BeforeVerdict(st: BoardState, from: Square, to: Square): (r: BoardState)
    requires IsSide(st.turn)
    ensures IsSide(r.turn) && r.turn != st.turn
  {
    Captured(Advanced(st, from, to), to)
  }

  /** `makeMove(from, to)`. */
  ghost function AfterMove(st: BoardState, from: Square, to: Square): BoardState
    requires IsSide(st.turn)
  {
    DecideWinner(BeforeVerdict(st, from, to), to)
  }

  // ---------------------------------------------------------------------
  // Undo, clearUndo, copy, move limit, encoding

  /** The undo stack is deep enough for every move counted. */
  predicate HistoryCovers(st: BoardState) {
    0 <= st.moveCount && st.moveCount + 1 <= |st.history|
  }

  /** The top of the undo stack is the current position, as it is after every `record()`. */
  predicate TopIsCurrent(st: BoardState) {
    |st.history| >= 1 && st.history[|st.history| - 1] == Snapshot(st.grid, st.king)
  }

  /**
   * `undo()`: nothing at move count 0; otherwise drop the two top
   * snapshots (and their grids from the seen set), restore the older one,
   * count back, flip the turn back, clear winner and repetition, rebuild
   * the index sets from the grid, and record the restored position.
   */
  function UndoState(st: BoardState): (r: BoardState)
    requires HistoryCovers(st) && IsSide(st.turn)
  {
    if st.moveCount == 0 then st
    else
      var n := |st.history|;
      var top, prev := st.history[n - 1], st.history[n - 2];
      Record(st.(
        grid := prev.grid, king := prev.king, history := st.history[..n - 2],
        seen := st.seen - {top.grid} - {prev.grid},
        moveCount := st.moveCount - 1, turn := Opponent(st.turn).value,
        repeated := false, winner := None,
        whites := SideSquares(prev.grid, WHITE), blacks := SideSquares(prev.grid, BLACK)))
  }

  /** The grids of the snapshots on an undo stack. */
  function HistoryGrids(h: seq<Snapshot>): set<Grid> {
    set s | s in h :: s.grid
  }

  /**
   * `undo()` as its comment describes it: as `UndoState`, except that the
   * grid of the position undone stays in the seen set when a snapshot
   * below it on the undo stack holds the same grid.
   */
  function UndoKeepingSeen(st: BoardState): (r: BoardState)
    requires HistoryCovers(st) && IsSide(st.turn)
    ensures r == UndoState(st).(seen := r.seen)
    ensures UndoState(st).seen <= r.seen
  {
    if st.moveCount == 0 then st
    else
      var n := |st.history|;
      var top, prev := st.history[n - 1], st.history[n - 2];
      var kept := if top.grid in HistoryGrids(st.history[..n - 1]) then {} else {top.grid};
      UndoState(st).(seen := st.seen - kept - {prev.grid} + {prev.grid})
  }

  /** `clearUndo()`: keep only the bottom snapshot, seen set reduced to its grid, move count zero. */
  function ClearedUndo(st: BoardState): (r: BoardState)
    requires |st.history| >= 1
    ensures r.history == st.history[..1] && r.seen == {st.history[0].grid} && r.moveCount == 0
    ensures r.grid == st.grid && r.king == st.king && r.winner == st.winner && r.turn == st.turn
  {
    st.(history := st.history[..1], seen := {st.history[0].grid}, moveCount := 0)
  }

  /** `copy(model)`: everything is copied except the move count and the move limit, which `init` resets. */
  function Copied(st: BoardState): BoardState {
    st.(moveCount := 0, moveLimit := INT_MAX)
  }

  /** `setMoveLimit(lim)` refuses a limit when `2 * lim`, computed in 32 bits, is at most the move count. */
  predicate LimitRefused(lim: int, moveCount: int) {
    Wrap32(2 * lim) <= moveCount
  }

  /** `encodedBoard()`: the turn's symbol, then one symbol per square in index order. */
  function Encode(st: BoardState): (e: string)
    ensures |e| == 82
  {
    [Symbol(st.turn)[0]] + seq(81, i requires 0 <= i < 81 => Symbol(st.grid[i])[0])
  }
}
