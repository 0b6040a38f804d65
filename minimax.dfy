/**
 * The computer player's search as values: depth-limited minimax with
 * alpha-beta pruning over the positions `makeMove` produces, the one-time
 * deepening of the search when few pieces are left, and the heuristic
 * score of a leaf position. Scores are Java `int`s; the one sum that can
 * leave the 32-bit range is wrapped as Java wraps it. The random jitter
 * the controller supplies is a stream `rolls` read at position `draws`.
 */
module Minimax {
  import opened Options
  import opened Pieces
  import opened Squares
  import opened Rules
  import opened RulesFacts
  import opened MoveFacts

  const INFTY: int := INT_MAX
  const WINNING_VALUE: int := INT_MAX - 20
  const WILL_WIN_VALUE: int := INT_MAX - 40
  const WHITE_PIECE_VALUE: int := 300
  const BLACK_PIECE_VALUE: int := 250
  const WHITE_CLOSE_TO_WIN: int := 10000
  const BLACK_CLOSE_TO_WIN: int := 5000
  const RANDOM_ADDED_SCORE: int := 5
  const SUB_FUTURE_MOVE: int := -1000
  const NUM_PCS_TO_INC: int := 20
  const INITIAL_MAX_DEPTH: int := 2

  /** What the search keeps between calls: the move found, the depth settings, and how much of the random stream is used. */
  datatype SearchState = SearchState(lastFound: Option<Move>, incDepth: bool, maxDepth: int, draws: nat)

  /** The depth the search may still reach: the current maximum, plus one while the deepening is still to come. */
  function Budget(a: SearchState): int {
    a.maxDepth + (if a.incDepth then 0 else 1)
  }

  /** A search direction: 1 for White, which maximises, -1 for Black, which minimises. */
  predicate IsSense(sense: int) {
    sense == 1 || sense == -1
  }

  function SideOf(sense: int): (p: Piece)
    ensures IsSide(p)
  {
    if sense > 0 then WHITE else BLACK
  }

  function Max(x: int, y: int): int { if x >= y then x else y }

  function Min(x: int, y: int): int { if x <= y then x else y }

  /** A position the search may explore: bookkeeping exact, game on, the king on the board away from the edge. */
  ghost predicate Playable(st: BoardState) {
    && Consistent(st) && HistoryCovers(st) && st.winner.None?
    && st.king.Some? && !IsEdge(st.king.value)
  }

  // ---------------------------------------------------------------------
  // The search depth

  /** The number of occupied cells of index below `n`. */
  function OccupiedUpTo(g: Grid, n: nat): (c: nat)
    requires n <= 81
    ensures c <= n
  {
    if n == 0 then 0 else OccupiedUpTo(g, n - 1) + (if g[n - 1] != EMPTY then 1 else 0)
  }

  /** `maxDepth(board)`: the first time fewer than 20 cells are occupied, the maximum depth grows by one, once and for all. */
  function Deepened(a: SearchState, g: Grid): (r: SearchState)
    ensures Budget(r) == Budget(a) && r.maxDepth >= a.maxDepth && r.incDepth
            == (a.incDepth || OccupiedUpTo(g, 81) < NUM_PCS_TO_INC)
    ensures r.maxDepth == a.maxDepth + (if !a.incDepth && OccupiedUpTo(g, 81) < NUM_PCS_TO_INC then 1 else 0)
    ensures r.lastFound == a.lastFound && r.draws == a.draws
  {
    if !a.incDepth && OccupiedUpTo(g, 81) < NUM_PCS_TO_INC then a.(incDepth := true, maxDepth := a.maxDepth + 1)
    else a
  }

  // ---------------------------------------------------------------------
  // The static score

  /** How many of the first `n` listed moves take the king on `k` to an edge square. */
  function EdgeMovesUpTo(moves: seq<Move>, k: Square, n: nat): (c: nat)
    requires n <= |moves|
    ensures c <= n
  {
    if n == 0 then 0
    else EdgeMovesUpTo(moves, k, n - 1) + (if moves[n - 1].from == k && IsEdge(moves[n - 1].to) then 1 else 0)
  }

  /** The number of attackers among the neighbours of `k` in directions 0 to n - 1. */
  function BlackNeighbours(g: Grid, k: Square, n: nat): (c: nat)
    requires n <= 4 && !IsEdge(k)
    ensures c <= n
  {
    if n == 0 then 0
    else BlackNeighbours(g, k, n - 1) + (if Get(g, RookMove(k, n - 1, 1).value) == BLACK then 1 else 0)
  }

  /**
   * The threat factor after the first `n` directions: an attacker next to
   * a king off the throne starts it at 1, every further one triples it.
   */
  function ThreatUpTo(g: Grid, k: Square, n: nat): int
    requires n <= 4 && !IsEdge(k)
  {
    if n == 0 then 0
    else
      var prev := ThreatUpTo(g, k, n - 1);
      if Get(g, RookMove(k, n - 1, 1).value) == BLACK && k != THRONE then (if prev == 0 then 1 else prev * 3)
      else prev
  }

  function Pow3(n: nat): (r: nat)
    ensures r >= 1
  {
    if n == 0 then 1 else 3 * Pow3(n - 1)
  }

  /** `OccupiedUpTo` counts the set of occupied cells of index below `n`. */
  lemma {:induction false} OccupiedIsCount(g: Grid, n: nat)
    requires n <= 81
    ensures OccupiedUpTo(g, n) == |set i | 0 <= i < n && g[i] != EMPTY|
  {
    if n > 0 {
      OccupiedIsCount(g, n - 1);
      var P := i => 0 <= i < 81 && g[i] != EMPTY;
      CountStep(P, n);
      assert (set i | 0 <= i < n && P(i)) == (set i | 0 <= i < n && g[i] != EMPTY);
      assert (set i | 0 <= i < n - 1 && P(i)) == (set i | 0 <= i < n - 1 && g[i] != EMPTY);
    }
  }

  /** `EdgeMovesUpTo` counts the set of positions, among the first `n`, of king moves to an edge square. */
  lemma {:induction false} EdgeMovesIsCount(moves: seq<Move>, k: Square, n: nat)
    requires n <= |moves|
    ensures EdgeMovesUpTo(moves, k, n) == |set j | 0 <= j < n && moves[j].from == k && IsEdge(moves[j].to)|
  {
    if n > 0 {
      EdgeMovesIsCount(moves, k, n - 1);
      var P := j => 0 <= j < |moves| && moves[j].from == k && IsEdge(moves[j].to);
      CountStep(P, n);
      assert (set j | 0 <= j < n && P(j)) == (set j | 0 <= j < n && moves[j].from == k && IsEdge(moves[j].to));
      assert (set j | 0 <= j < n - 1 && P(j)) == (set j | 0 <= j < n - 1 && moves[j].from == k && IsEdge(moves[j].to));
    }
  }

  /** The neighbour of `k` in direction `d` is an attacker. */
  predicate AttackerNext(g: Grid, k: Square, d: int) {
    IsDir(d) && !IsEdge(k) && Get(g, RookMove(k, d, 1).value) == BLACK
  }

  /** `BlackNeighbours` counts the set of directions, among the first `n`, in which the neighbour of `k` is an attacker. */
  lemma {:induction false} BlackNeighboursIsCount(g: Grid, k: Square, n: nat)
    requires n <= 4 && !IsEdge(k)
    ensures BlackNeighbours(g, k, n) == |set d | 0 <= d < n && AttackerNext(g, k, d)|
  {
    if n > 0 {
      BlackNeighboursIsCount(g, k, n - 1);
      var P := d => AttackerNext(g, k, d);
      CountStep(P, n);
      assert (set d | 0 <= d < n && P(d)) == (set d | 0 <= d < n && AttackerNext(g, k, d));
      assert (set d | 0 <= d < n - 1 && P(d)) == (set d | 0 <= d < n - 1 && AttackerNext(g, k, d));
    }
  }

  /** The attackers around the throne are the attackers next to a king on the throne. */
  lemma BlackAroundThroneIsNeighbours(g: Grid)
    ensures BlackAroundThrone(g) == BlackNeighbours(g, THRONE, 4)
  {
    var here := (s: Square) => if Get(g, s) == BLACK then 1 else 0;
    assert RookMove(THRONE, 0, 1).value == NTHRONE && RookMove(THRONE, 1, 1).value == ETHRONE;
    assert RookMove(THRONE, 2, 1).value == STHRONE && RookMove(THRONE, 3, 1).value == WTHRONE;
    assert BlackNeighbours(g, THRONE, 2) == here(NTHRONE) + here(ETHRONE);
    assert BlackNeighbours(g, THRONE, 4) == BlackNeighbours(g, THRONE, 2) + here(STHRONE) + here(WTHRONE);
  }

  /** The threat factor is 3 to the power of one less than the number of attackers next to the king, and 0 on the throne or with none. */
  lemma {:induction false} ThreatIsPower(g: Grid, k: Square, n: nat)
    requires n <= 4 && !IsEdge(k)
    ensures ThreatUpTo(g, k, n) == if k != THRONE && BlackNeighbours(g, k, n) >= 1 then Pow3(BlackNeighbours(g, k, n) - 1) else 0
  {
    if n > 0 {
      ThreatIsPower(g, k, n - 1);
    }
  }

  /** The king's moves to the edge once the turn is set to White. */
  function KingEdgeMoves(st: BoardState): nat
    requires st.king.Some?
  {
    var moves := KingMoves(st.(turn := WHITE));
    EdgeMovesUpTo(moves, st.king.value, |moves|)
  }

  /** Counting over a concatenation adds the counts of its parts. */
  lemma {:induction false} EdgeMovesAppend(xs: seq<Move>, ys: seq<Move>, k: Square, n: nat)
    requires n <= |ys|
    ensures EdgeMovesUpTo(xs + ys, k, |xs| + n) == EdgeMovesUpTo(xs, k, |xs|) + EdgeMovesUpTo(ys, k, n)
  {
    if n == 0 {
      assert forall j :: 0 <= j <= |xs| ==> EdgeMovesUpTo(xs + ys, k, j) == EdgeMovesUpTo(xs, k, j) by {
        forall j | 0 <= j <= |xs| ensures EdgeMovesUpTo(xs + ys, k, j) == EdgeMovesUpTo(xs, k, j) {
          EdgeMovesPrefix(xs + ys, xs, k, j);
        }
      }
    } else {
      EdgeMovesAppend(xs, ys, k, n - 1);
      assert (xs + ys)[|xs| + n - 1] == ys[n - 1];
    }
  }

  /** The count over the first `n` moves depends only on those moves. */
  lemma {:induction false} EdgeMovesPrefix(xs: seq<Move>, ys: seq<Move>, k: Square, n: nat)
    requires n <= |xs| && n <= |ys| && xs[..n] == ys[..n]
    ensures EdgeMovesUpTo(xs, k, n) == EdgeMovesUpTo(ys, k, n)
  {
    if n > 0 {
      assert xs[..n - 1] == xs[..n][..n - 1] && ys[..n - 1] == ys[..n][..n - 1];
      EdgeMovesPrefix(xs, ys, k, n - 1);
      assert xs[n - 1] == xs[..n][n - 1] && ys[n - 1] == ys[..n][n - 1];
    }
  }

  /** Moves none of which starts on `k` count nothing. */
  lemma {:induction false} EdgeMovesElsewhere(ys: seq<Move>, k: Square, n: nat)
    requires n <= |ys| && forall m :: m in ys ==> m.from != k
    ensures EdgeMovesUpTo(ys, k, n) == 0
  {
    if n > 0 {
      EdgeMovesElsewhere(ys, k, n - 1);
      assert ys[n - 1] in ys;
    }
  }

  /** Moves after the king's that do not start on its square add nothing to the count. */
  lemma EdgeMovesKingFirst(kms: seq<Move>, sms: seq<Move>, k: Square)
    requires forall m :: m in sms ==> m.from != k
    ensures EdgeMovesUpTo(kms + sms, k, |kms + sms|) == EdgeMovesUpTo(kms, k, |kms|)
  {
    EdgeMovesElsewhere(sms, k, |sms|);
    EdgeMovesAppend(kms, sms, k, |sms|);
  }

  /** No move of the pieces other than the king starts on the king's square. */
  lemma SoldiersOffKing(st: BoardState, side: Piece, k: Square)
    requires side != EMPTY && Get(st.grid, k) == KING
    ensures forall m :: m in SoldierMovesUpTo(st, side, 81) ==> m.from != k
  {
    forall m | m in SoldierMovesUpTo(st, side, 81) ensures m.from != k {
      SoldierMovesUpToSpec(st, side, 81, m);
    }
  }

  /**
   * Counting the king's edge moves over the whole of `legalMoves(WHITE)`,
   * as `staticScore` does, gives `KingEdgeMoves`: no other listed move
   * starts on the king's square.
   */
  lemma LegalEdgeMoves(st: BoardState)
    requires KingExact(st) && st.king.Some?
    ensures var moves := LegalMovesOf(st.(turn := WHITE), WHITE);
      EdgeMovesUpTo(moves, st.king.value, |moves|) == KingEdgeMoves(st)
  {
    var w := st.(turn := WHITE);
    var k := st.king.value;
    SoldiersOffKing(w, WHITE, k);
    EdgeMovesKingFirst(KingMoves(w), SoldierMovesUpTo(w, WHITE, 81), k);
  }

  /**
   * `staticScore(board)`: 300 per white piece (king included) less 250 per
   * black piece; a king with two ways to the edge is a forced win, one way
   * is worth 10000; attackers next to the king off the throne cost 5000
   * times the threat factor; two draws from the random stream add a
   * jitter of -4 to 4.
   */
  function StaticValue(a: SearchState, st: BoardState, rolls: nat -> nat): (r: (SearchState, int))
    requires st.king.Some? && !IsEdge(st.king.value)
  {
    Scored(a, |st.whites|, |st.blacks|, KingEdgeMoves(st), ThreatUpTo(st.grid, st.king.value, 4), rolls)
  }

  /** The static score from the piece counts, the king's ways to the edge and the threat factor. */
  function Scored(a: SearchState, whites: int, blacks: int, wm: int, threat: int, rolls: nat -> nat): (r: (SearchState, int))
    ensures r.0 == a.(draws := r.0.draws) && r.0.draws <= a.draws + 2
  {
    if wm >= 2 then (a, WILL_WIN_VALUE)
    else
      var score := whites * WHITE_PIECE_VALUE - blacks * BLACK_PIECE_VALUE
        + (if wm == 1 then WHITE_CLOSE_TO_WIN else 0) - threat * BLACK_CLOSE_TO_WIN;
      (a.(draws := a.draws + 2), score + rolls(a.draws) % RANDOM_ADDED_SCORE - rolls(a.draws + 1) % RANDOM_ADDED_SCORE)
  }

  // ---------------------------------------------------------------------
  // The search

  /** `m` slides a piece along a row or column and passes `isLegal` on `st`. */
  ghost predicate LegalMove(st: BoardState, m: Move) {
    IsRookMove(m.from, m.to) && IsLegal(st, m.from, m.to)
  }

  /** Every move of `moves` slides a piece along a row or column and passes `isLegal` on `st`. */
  ghost predicate AllLegal(st: BoardState, moves: seq<Move>) {
    forall m :: m in moves ==> LegalMove(st, m)
  }

  /** When `side` is to move in a playable position, every move `legalMoves(side)` lists passes `isLegal`. */
  lemma ListedMovesLegal(st: BoardState, side: Piece)
    requires Playable(st) && IsSide(side) && st.turn == side
    ensures AllLegal(st, LegalMovesOf(st, side))
  {
    var moves := LegalMovesOf(st, side);
    LegalMovesOfIsList(st, side);
    forall m | m in moves ensures LegalMove(st, m) {
      LegalMovesAreLegal(st, side, moves, m);
    }
  }

  /** After a legal move from a playable position that leaves the game on, the position is playable and the other side is to move. */
  lemma ChildPlayable(st: BoardState, side: Piece, m: Move)
    requires Playable(st) && IsSide(side) && st.turn == side && LegalMove(st, m)
    ensures AfterMove(Copied(st), m.from, m.to).winner.None? ==>
      Playable(AfterMove(Copied(st), m.from, m.to)) && AfterMove(Copied(st), m.from, m.to).turn == Opponent(side).value
  {
    var c := Copied(st);
    assert IsLegal(c, m.from, m.to);
    AfterMoveConsistent(c, m.from, m.to);
    AfterMoveBookkeeping(c, m.from, m.to);
    if AfterMove(c, m.from, m.to).winner.None? {
      KingStaysInside(c, m.from, m.to);
    }
  }

  /** A position the search may explore at `depth`: still in play, with `sense`'s side to move, within the depth limit. */
  ghost predicate Searchable(a: SearchState, st: BoardState, depth: int, sense: int) {
    Playable(st) && IsSense(sense) && st.turn == SideOf(sense) && 0 <= depth <= a.maxDepth
  }

  /**
   * The search at `depth` from position `st` (`findMove(board, depth,
   * saveMove, sense, alpha, beta)`): after the depth check, a leaf gets
   * its static score; otherwise the moves of the side to move are scanned.
   * The result is the new search state and the score.
   */
  ghost function Search(a: SearchState, st: BoardState, depth: int, saveMove: bool, sense: int,
                        alpha: int, beta: int, rootSense: int, rolls: nat -> nat): (r: (SearchState, int))
    requires Searchable(a, st, depth, sense)
    ensures Budget(r.0) == Budget(a) && r.0.maxDepth >= a.maxDepth && (a.incDepth ==> r.0.incDepth)
    ensures !saveMove ==> r.0.lastFound == a.lastFound
    decreases Budget(a) - depth, 1, 0
  {
    var a1 := Deepened(a, st.grid);
    if depth == a1.maxDepth then StaticValue(a1, st, rolls)
    else
      var moves := LegalMovesOf(st, SideOf(sense));
      ListedMovesLegal(st, SideOf(sense));
      Scan(a1, st, moves, 0, depth, saveMove, sense, -sense * INFTY, alpha, beta, rootSense, rolls)
  }

  /**
   * A search ends with its depth limit at `depth` exactly when it stopped
   * at a leaf: a scan only happens below the (deepened) limit, which it
   * never lowers.
   */
  lemma LeafIffAtLimit(a: SearchState, st: BoardState, depth: int, saveMove: bool, sense: int,
                       alpha: int, beta: int, rootSense: int, rolls: nat -> nat)
    requires Searchable(a, st, depth, sense)
    ensures Search(a, st, depth, saveMove, sense, alpha, beta, rootSense, rolls).0.maxDepth == depth
            <==> depth == Deepened(a, st.grid).maxDepth
  {
  }

  /** At the depth limit the search returns the static score of the position and records no move. */
  lemma LeafIsStatic(a: SearchState, st: BoardState, depth: int, saveMove: bool, sense: int,
                     alpha: int, beta: int, rootSense: int, rolls: nat -> nat)
    requires Searchable(a, st, depth, sense) && depth == Deepened(a, st.grid).maxDepth
    ensures Search(a, st, depth, saveMove, sense, alpha, beta, rootSense, rolls)
            == StaticValue(Deepened(a, st.grid), st, rolls)
    ensures Search(a, st, depth, saveMove, sense, alpha, beta, rootSense, rolls).0.lastFound == a.lastFound
  {
  }

  /** Below the depth limit, a side without listed moves scores `-sense * INFTY`, and nothing is recorded. */
  lemma NoMovesScore(a: SearchState, st: BoardState, depth: int, saveMove: bool, sense: int,
                     alpha: int, beta: int, rootSense: int, rolls: nat -> nat)
    requires Searchable(a, st, depth, sense) && depth != Deepened(a, st.grid).maxDepth
    requires LegalMovesOf(st, SideOf(sense)) == []
    ensures Search(a, st, depth, saveMove, sense, alpha, beta, rootSense, rolls) == (Deepened(a, st.grid), -sense * INFTY)
  {
  }

  /**
   * The value of one move `m` from `st` and the search state after it: a
   * win for White or Black scores plus or minus `WINNING_VALUE`; otherwise
   * the reply is searched one level deeper, for the other side, without
   * recording moves, and the result is shifted by `_sense * -1000 *
   * depth` in 32-bit arithmetic.
   */
  ghost function ChildValue(a: SearchState, st: BoardState, m: Move, depth: int, sense: int,
                            alpha: int, beta: int, rootSense: int, rolls: nat -> nat): (r: (SearchState, int))
    requires Playable(st) && IsSense(sense) && st.turn == SideOf(sense) && 0 <= depth < a.maxDepth
    requires LegalMove(st, m)
    ensures Budget(r.0) == Budget(a) && r.0.maxDepth >= a.maxDepth && (a.incDepth ==> r.0.incDepth)
    ensures r.0.lastFound == a.lastFound
    decreases Budget(a) - depth, 0, 0
  {
    var child := AfterMove(Copied(st), m.from, m.to);
    ChildPlayable(st, SideOf(sense), m);
    if child.winner.None? then
      var sub := Search(a, child, depth + 1, false, -sense, alpha, beta, rootSense, rolls);
      (sub.0, Shifted(rootSense, depth, sub.1))
    else if child.winner == Some(WHITE) then (a, WINNING_VALUE)
    else (a, -WINNING_VALUE)
  }

  /** A move that wins outright scores `WINNING_VALUE` for White and `-WINNING_VALUE` for Black, and the search state is left alone. */
  lemma WinValue(a: SearchState, st: BoardState, m: Move, depth: int, sense: int,
                 alpha: int, beta: int, rootSense: int, rolls: nat -> nat)
    requires Playable(st) && IsSense(sense) && st.turn == SideOf(sense) && 0 <= depth < a.maxDepth
    requires LegalMove(st, m)
    ensures AfterMove(Copied(st), m.from, m.to).winner == Some(WHITE)
            ==> ChildValue(a, st, m, depth, sense, alpha, beta, rootSense, rolls) == (a, WINNING_VALUE)
    ensures AfterMove(Copied(st), m.from, m.to).winner == Some(BLACK)
            ==> ChildValue(a, st, m, depth, sense, alpha, beta, rootSense, rolls) == (a, -WINNING_VALUE)
  {
  }

  /** The value of a move that ends nothing is that of the reply, shifted. */
  lemma ReplyValue(a: SearchState, st: BoardState, m: Move, depth: int, sense: int,
                   alpha: int, beta: int, rootSense: int, rolls: nat -> nat)
    requires Playable(st) && IsSense(sense) && st.turn == SideOf(sense) && 0 <= depth < a.maxDepth
    requires LegalMove(st, m)
    requires AfterMove(Copied(st), m.from, m.to).winner.None?
    ensures Playable(AfterMove(Copied(st), m.from, m.to)) && IsSense(-sense)
    ensures AfterMove(Copied(st), m.from, m.to).turn == SideOf(-sense)
    ensures ChildValue(a, st, m, depth, sense, alpha, beta, rootSense, rolls).0 == Search(a, AfterMove(Copied(st), m.from, m.to), depth + 1, false, -sense, alpha, beta, rootSense, rolls).0
    ensures ChildValue(a, st, m, depth, sense, alpha, beta, rootSense, rolls).1 == Shifted(rootSense, depth, Search(a, AfterMove(Copied(st), m.from, m.to), depth + 1, false, -sense, alpha, beta, rootSense, rolls).1)
  {
    ChildPlayable(st, SideOf(sense), m);
    OppositeSense(sense);
  }

  /** `tmpScore = _sense * SUB_FUTURE_MOVE * depth + findMove(...)` in 32-bit `int` arithmetic: a reply found deeper is worth a little less to the root side. */
  function Shifted(rootSense: int, depth: int, v: int): int {
    Wrap32(rootSense * SUB_FUTURE_MOVE * depth + v)
  }

  /** Whether a move's value replaces the best so far: strictly greater for White, strictly smaller for Black. */
  predicate Improves(sense: int, tmp: int, score: int) {
    if sense > 0 then tmp > score else tmp < score
  }

  /** Where the scan of `findMove` stands: the search state, the best score so far and the window. */
  datatype Progress = Progress(state: SearchState, score: int, alpha: int, beta: int)

  /**
   * The scan's bookkeeping for one move `m` whose value and state are `c`:
   * keep the first move of the best value (saving it when asked) and narrow
   * the window on the side to move.
   */
  function Consider(c: (SearchState, int), m: Move, saveMove: bool, sense: int, score: int, alpha: int, beta: int): (p: Progress)
    ensures p.state == c.0 || p.state == c.0.(lastFound := Some(m))
    ensures !saveMove ==> p.state == c.0
    ensures sense > 0 ==> p.score >= score && p.beta == beta && p.alpha == Max(alpha, p.score)
    ensures sense < 0 ==> p.score <= score && p.alpha == alpha && p.beta == Min(beta, p.score)
    ensures c.1 == score ==> p.score == score && p.state == c.0
  {
    var better := Improves(sense, c.1, score);
    var score' := if better then c.1 else score;
    Progress(if better && saveMove then c.0.(lastFound := Some(m)) else c.0, score',
             if sense > 0 then Max(alpha, score') else alpha,
             if sense > 0 then beta else Min(beta, score'))
  }

  /**
   * The best score becomes the maximum (White) or minimum (Black) of the
   * best so far and the move's value; the search state changes only when
   * the move is saved and improves on the best score, and then it records
   * that move.
   */
  lemma ConsiderSaves(c: (SearchState, int), m: Move, saveMove: bool, sense: int, score: int, alpha: int, beta: int)
    ensures var p := Consider(c, m, saveMove, sense, score, alpha, beta);
      && (sense > 0 ==> p.score == Max(score, c.1))
      && (sense < 0 ==> p.score == Min(score, c.1))
      && (p.state != c.0 ==> saveMove && Improves(sense, c.1, score))
      && (saveMove && Improves(sense, c.1, score) ==> p.state == c.0.(lastFound := Some(m)))
  {
  }

  /**
   * The loop of `findMove` from the `i`-th move on, with the best score
   * and the window so far: each move is considered in turn, and the scan
   * stops once alpha >= beta.
   */
  ghost function Scan(a: SearchState, st: BoardState, moves: seq<Move>, i: nat, depth: int, saveMove: bool, sense: int,
                      score: int, alpha: int, beta: int, rootSense: int, rolls: nat -> nat): (r: (SearchState, int))
    requires Playable(st) && IsSense(sense) && st.turn == SideOf(sense) && 0 <= depth < a.maxDepth
    requires AllLegal(st, moves) && i <= |moves|
    ensures Budget(r.0) == Budget(a) && r.0.maxDepth >= a.maxDepth && (a.incDepth ==> r.0.incDepth)
    ensures !saveMove ==> r.0.lastFound == a.lastFound
    ensures r.0.lastFound == a.lastFound || (r.0.lastFound.Some? && r.0.lastFound.value in moves)
    ensures sense > 0 ==> r.1 >= score
    ensures sense < 0 ==> r.1 <= score
    decreases Budget(a) - depth, 0, |moves| - i
  {
    if i == |moves| then (a, score)
    else
      var p := Consider(ChildValue(a, st, moves[i], depth, sense, alpha, beta, rootSense, rolls),
                        moves[i], saveMove, sense, score, alpha, beta);
      if p.alpha >= p.beta then (p.state, p.score)
      else Scan(p.state, st, moves, i + 1, depth, saveMove, sense, p.score, p.alpha, p.beta, rootSense, rolls)
  }

  /**
   * The scan from the `i`-th move on, with this state, best score and
   * window, when the arguments are those `findMove` scans with (and None
   * when they are not).
   */
  ghost function ScanOutcome(a: SearchState, st: BoardState, moves: seq<Move>, i: nat, depth: int, saveMove: bool, sense: int,
                             score: int, alpha: int, beta: int, rootSense: int, rolls: nat -> nat): (r: Option<(SearchState, int)>)
    ensures r.Some? <==> (Playable(st) && IsSense(sense) && st.turn == SideOf(sense) && 0 <= depth < a.maxDepth
                          && AllLegal(st, moves) && i <= |moves|)
  {
    if Playable(st) && IsSense(sense) && st.turn == SideOf(sense) && 0 <= depth < a.maxDepth
       && AllLegal(st, moves) && i <= |moves|
    then Some(Scan(a, st, moves, i, depth, saveMove, sense, score, alpha, beta, rootSense, rolls))
    else None
  }

  /** One step of the scan: the `i`-th move is considered, then the scan stops or goes on from the next move. */
  lemma ScanStep(a: SearchState, st: BoardState, moves: seq<Move>, i: nat, depth: int, saveMove: bool, sense: int,
                 score: int, alpha: int, beta: int, rootSense: int, rolls: nat -> nat)
    requires Playable(st) && IsSense(sense) && st.turn == SideOf(sense) && 0 <= depth < a.maxDepth
    requires AllLegal(st, moves) && i < |moves|
    ensures var p := Consider(ChildValue(a, st, moves[i], depth, sense, alpha, beta, rootSense, rolls),
                              moves[i], saveMove, sense, score, alpha, beta);
      && Budget(p.state) == Budget(a) && p.state.maxDepth >= a.maxDepth
      && Scan(a, st, moves, i, depth, saveMove, sense, score, alpha, beta, rootSense, rolls)
         == if p.alpha >= p.beta then (p.state, p.score)
            else Scan(p.state, st, moves, i + 1, depth, saveMove, sense, p.score, p.alpha, p.beta, rootSense, rolls)
  {
  }

  /** Past the last move the scan ends where it is. */
  lemma ScanDone(a: SearchState, st: BoardState, moves: seq<Move>, depth: int, saveMove: bool, sense: int,
                 score: int, alpha: int, beta: int, rootSense: int, rolls: nat -> nat, target: (SearchState, int))
    requires ScanOutcome(a, st, moves, |moves|, depth, saveMove, sense, score, alpha, beta, rootSense, rolls) == Some(target)
    ensures target == (a, score)
  {
  }

  // ---------------------------------------------------------------------
  // What the search promises

  /** A copy of a playable position is playable: the copy keeps everything but the move count and limit. */
  lemma CopyPlayable(st: BoardState)
    requires Playable(st)
    ensures Playable(Copied(st)) && Copied(st).turn == st.turn
  {
  }

  /** The side of the opposite sense is the opponent. */
  lemma OppositeSense(sense: int)
    requires IsSense(sense)
    ensures IsSense(-sense) && Opponent(SideOf(sense)) == Some(SideOf(-sense))
  {
  }

  /**
   * `findMove()`: the move the search from a copy of the position leaves
   * in `_lastFoundMove`, when there is one, is listed by `legalMoves` for
   * the side to move and passes `isLegal` on the position itself.
   */
  lemma FoundMoveIsLegal(a: SearchState, st: BoardState, sense: int, rolls: nat -> nat)
    requires Playable(st) && IsSense(sense) && st.turn == SideOf(sense) && 0 <= a.maxDepth
    ensures var r := Search(a.(lastFound := None), Copied(st), 0, true, sense, -INFTY, INFTY, sense, rolls);
      r.0.lastFound.Some? ==>
        && r.0.lastFound.value in LegalMovesOf(st, SideOf(sense))
        && IsRookMove(r.0.lastFound.value.from, r.0.lastFound.value.to)
        && IsLegal(st, r.0.lastFound.value.from, r.0.lastFound.value.to)
  {
    var c := Copied(st);
    var side := SideOf(sense);
    var r := Search(a.(lastFound := None), c, 0, true, sense, -INFTY, INFTY, sense, rolls);
    if r.0.lastFound.Some? {
      var m := r.0.lastFound.value;
      var moves := LegalMovesOf(c, side);
      assert m in moves;
      LegalMovesOfIsList(c, side);
      LegalMovesAreLegal(c, side, moves, m);
      assert IsLegal(st, m.from, m.to);
      CopiedListsSame(st, side);
    }
  }

  /** A copy lists the same moves: `legalMoves` does not look at the move count or the limit. */
  lemma CopiedListsSame(st: BoardState, side: Piece)
    requires side != EMPTY && (side == WHITE ==> st.king.Some?)
    ensures LegalMovesOf(Copied(st), side) == LegalMovesOf(st, side)
  {
    var c := Copied(st);
    if side == WHITE {
      KingMovesCopied(st, st.king.value, 4);
    }
    SoldierMovesCopied(st, side, 81);
  }

  /** A copy lists the same moves for the pieces other than the king on the squares below `i`. */
  lemma {:induction false} SoldierMovesCopied(st: BoardState, side: Piece, i: nat)
    requires side != EMPTY && i <= 81
    ensures SoldierMovesUpTo(Copied(st), side, i) == SoldierMovesUpTo(st, side, i)
  {
    if i > 0 {
      SoldierMovesCopied(st, side, i - 1);
      var sq := SquareAt(i - 1);
      SoldierMovesStep(st, side, i - 1);
      SoldierMovesStep(Copied(st), side, i - 1);
      assert SoldierMovesAt(Copied(st), side, sq) == SoldierMovesAt(st, side, sq);
    }
  }

  lemma {:induction false} KingMovesCopied(st: BoardState, k: Square, dirs: nat)
    requires dirs <= 4
    ensures KingMovesUpTo(Copied(st), k, dirs) == KingMovesUpTo(st, k, dirs)
  {
    if dirs > 0 {
      KingMovesCopied(st, k, dirs - 1);
      var d := dirs - 1;
      KingDirCopied(st, k, d, PassLen(st.grid, Ray(k, d), false));
    }
  }

  lemma {:induction false} KingDirCopied(st: BoardState, k: Square, d: int, n: nat)
    requires IsDir(d) && n <= RayLen(k, d)
    ensures KingDirMoves(Copied(st), k, d, n) == KingDirMoves(st, k, d, n)
  {
    if n > 0 {
      KingDirCopied(st, k, d, n - 1);
    }
  }

  /**
   * The static score: a king with two ways to the edge scores
   * `WILL_WIN_VALUE` and draws nothing; otherwise the score is the piece
   * balance, plus 10000 for one way out, less 5000 times 3 to the power
   * of one less than the attackers next to a king off the throne, within
   * 4 either way, and two numbers are drawn.
   */
  lemma StaticValueSpec(a: SearchState, st: BoardState, rolls: nat -> nat)
    requires st.king.Some? && !IsEdge(st.king.value)
    ensures var r := StaticValue(a, st, rolls);
      var k, wm := st.king.value, KingEdgeMoves(st);
      var attackers := BlackNeighbours(st.grid, k, 4);
      var threat := if k != THRONE && attackers >= 1 then Pow3(attackers - 1) else 0;
      var base := |st.whites| * WHITE_PIECE_VALUE - |st.blacks| * BLACK_PIECE_VALUE
        + (if wm == 1 then WHITE_CLOSE_TO_WIN else 0) - threat * BLACK_CLOSE_TO_WIN;
      && (wm >= 2 ==> r == (a, WILL_WIN_VALUE))
      && (wm < 2 ==> r.0 == a.(draws := a.draws + 2) && base - 4 <= r.1 <= base + 4)
  {
    ThreatIsPower(st.grid, st.king.value, 4);
  }

  /**
   * The 32-bit wrap of the child score turns a win for the other side
   * than the one searching into what looks like a win for the searching
   * side: at any depth from 1 to 1000, shifting `-_sense * WINNING_VALUE`
   * or `-_sense * WILL_WIN_VALUE` by `_sense * -1000 * depth` leaves the
   * `int` range and comes back with the opposite sign.
   */
  lemma WrappedWinFlips(rootSense: int, depth: int, sub: int)
    requires IsSense(rootSense) && 1 <= depth <= 1000
    requires sub == -rootSense * WINNING_VALUE || sub == -rootSense * WILL_WIN_VALUE
    ensures rootSense * sub < 0 && rootSense * Shifted(rootSense, depth, sub) > 0
  {
  }
}
