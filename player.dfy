/**
 * The computer player: an object holding the move it last found, the
 * depth settings and the root sense, searching copies of a `Board` with
 * minimax and alpha-beta pruning. Each method is proved against the
 * value-level search of the `Minimax` module: the new search state and
 * the returned score are those the search functions give.
 */
module AIPlayer {
  import opened Options
  import opened Pieces
  import opened Squares
  import opened Rules
  import opened MoveFacts
  import opened Minimax
  import opened Tablut

  class AI {
    /** The side this player plays. */
    const myPiece: Piece
    /** The controller's random numbers, in the order `randInt` hands them out. */
    const rolls: nat -> nat
    var lastFoundMove: Option<Move>
    var incDepth: bool
    var maxDepth: int
    /** The sense of the side the current search is for: 1 for White, -1 for Black. */
    var rootSense: int
    /** How many random numbers have been drawn. */
    var draws: nat

    /** The fields the search reads and writes, as a value. */
    function State(): SearchState
      reads this
    {
      SearchState(lastFoundMove, incDepth, maxDepth, draws)
    }

    /** A player for `piece`: no move found yet, depth 2, not yet deepened. */
    constructor (piece: Piece, rolls: nat -> nat)
      ensures myPiece == piece && this.rolls == rolls && rootSense == 0
      ensures State() == SearchState(None, false, INITIAL_MAX_DEPTH, 0)
    {
      myPiece, this.rolls := piece, rolls;
      lastFoundMove, incDepth, maxDepth := None, false, INITIAL_MAX_DEPTH;
      rootSense, draws := 0, 0;
    }

    /** `_controller.randInt(n)`: the next number of the stream, reduced below `n`. */
    method RandInt(n: int) returns (r: int)
      requires n > 0
      modifies this
      ensures r == rolls(old(draws)) % n && 0 <= r < n
      ensures State() == old(State()).(draws := old(draws) + 1) && rootSense == old(rootSense)
    {
      r := rolls(draws) % n;
      draws := draws + 1;
    }

    /** `maxDepth(board)`: until the search has been deepened, count the occupied cells and deepen it once when fewer than 20 are. */
    method MaxDepth(board: Board) returns (depth: int)
      requires board.grid.Length == 81
      modifies this
      ensures State() == Deepened(old(State()), board.grid[..]) && depth == maxDepth
      ensures rootSense == old(rootSense)
    {
      if !incDepth {
        var pieceCount := 0;
        for i := 0 to 81
          invariant pieceCount == OccupiedUpTo(board.grid[..], i)
        {
          if board.grid[i] != EMPTY {
            pieceCount := pieceCount + 1;
          }
        }
        if pieceCount < NUM_PCS_TO_INC {
          incDepth := true;
          maxDepth := maxDepth + 1;
        }
      }
      depth := maxDepth;
    }

    /**
     * `staticScore(board)`: the piece balance, the king's ways to the edge
     * once the turn is set to White, the attackers next to the king, and
     * two random draws. The board is left with White to move.
     */
    method StaticScore(board: Board) returns (score: int)
      requires board.Valid() && KingExact(board.Abs()) && board.king.Some? && !IsEdge(board.king.value)
      modifies this, board
      ensures (State(), score) == Scored(old(State()), |old(board.whites)|, |old(board.blacks)|,
        KingEdgeMoves(old(board.Abs())), ThreatUpTo(old(board.grid[..]), old(board.king.value), 4), rolls)
      ensures board.Valid() && board.Abs() == old(board.Abs()).(turn := WHITE)
      ensures rootSense == old(rootSense)
    {
      var whites, blacks, winningMoves, scoreAdd := Features(board);
      score := Combine(whites, blacks, winningMoves, scoreAdd);
    }

    /**
     * The arithmetic steps of `staticScore`: the piece balance, then a
     * forced win for two ways to the edge, a bonus for one, the threat
     * penalty and the random jitter.
     */
    method Combine(whites: int, blacks: int, winningMoves: int, scoreAdd: int) returns (score: int)
      modifies this
      ensures (State(), score) == Scored(old(State()), whites, blacks, winningMoves, scoreAdd, rolls)
      ensures rootSense == old(rootSense)
    {
      score := whites * WHITE_PIECE_VALUE - blacks * BLACK_PIECE_VALUE;
      if winningMoves >= 2 {
        return WILL_WIN_VALUE;
      } else if winningMoves == 1 {
        score := score + WHITE_CLOSE_TO_WIN;
      }
      score := score - scoreAdd * BLACK_CLOSE_TO_WIN;
      score := AddJitter(score);
    }

    /**
     * The board steps of `staticScore`: count the pieces of each side, set
     * the turn to White, count the king's moves to an edge square among
     * White's moves, and, unless there are two, the threat factor.
     */
    static method Features(board: Board) returns (whites: int, blacks: int, winningMoves: int, scoreAdd: int)
      requires board.Valid() && KingExact(board.Abs()) && board.king.Some? && !IsEdge(board.king.value)
      modifies board
      ensures whites == |old(board.whites)| && blacks == |old(board.blacks)|
      ensures winningMoves == KingEdgeMoves(old(board.Abs()))
      ensures winningMoves < 2 ==> scoreAdd == ThreatUpTo(old(board.grid[..]), old(board.king.value), 4)
      ensures board.Valid() && board.Abs() == old(board.Abs()).(turn := WHITE)
    {
      ghost var st := board.Abs();
      var whiteSet := board.PieceLocations(WHITE);
      var blackSet := board.PieceLocations(BLACK);
      whites, blacks := |whiteSet|, |blackSet|;
      var kingPos := board.king.value;
      board.SetTurn(WHITE);
      var moves := board.LegalMoves(WHITE);
      winningMoves := CountEdgeMoves(moves, kingPos);
      LegalEdgeMoves(st);
      scoreAdd := 0;
      if winningMoves < 2 {
        scoreAdd := Threat(board, kingPos);
      }
    }

    /** The threat factor of `staticScore`: each attacker next to a king off the throne makes it 1, then triples it. */
    static method Threat(board: Board, kingPos: Square) returns (scoreAdd: int)
      requires board.grid.Length == 81 && !IsEdge(kingPos)
      ensures scoreAdd == ThreatUpTo(board.grid[..], kingPos, 4)
    {
      scoreAdd := 0;
      for i := 0 to 4
        invariant scoreAdd == ThreatUpTo(board.grid[..], kingPos, i)
      {
        if board.grid[Index(RookMove(kingPos, i, 1).value)] == BLACK && kingPos != THRONE {
          if scoreAdd == 0 {
            scoreAdd := 1;
          } else {
            scoreAdd := scoreAdd * 3;
          }
        }
      }
    }

    /** The last two steps of `staticScore`: add one random number below 5 and subtract another. */
    method AddJitter(score0: int) returns (score: int)
      modifies this
      ensures score == score0 + rolls(old(draws)) % RANDOM_ADDED_SCORE - rolls(old(draws) + 1) % RANDOM_ADDED_SCORE
      ensures State() == old(State()).(draws := old(draws) + 2) && rootSense == old(rootSense)
    {
      score := score0;
      var up := RandInt(RANDOM_ADDED_SCORE);
      score := score + up;
      var down := RandInt(RANDOM_ADDED_SCORE);
      score := score - down;
    }

    /** The counting loop of `staticScore`: the listed moves that take the king on `kingPos` to an edge square. */
    static method CountEdgeMoves(moves: seq<Move>, kingPos: Square) returns (winningMoves: int)
      ensures winningMoves == EdgeMovesUpTo(moves, kingPos, |moves|)
    {
      winningMoves := 0;
      for i := 0 to |moves|
        invariant winningMoves == EdgeMovesUpTo(moves, kingPos, i)
      {
        if moves[i].from == kingPos && IsEdge(moves[i].to) {
          winningMoves := winningMoves + 1;
        }
      }
    }

    /**
     * The first steps of one pass of the loop of `findMove(board, ...)`: a
     * copy of the board, whose position is `st`, with move `m` made on it.
     */
    static method Child(st: BoardState, m: Move) returns (b: Board)
      requires IsSide(st.turn) && HistoryCovers(st)
      ensures fresh(b) && fresh(b.grid) && b.Valid()
      ensures b.Abs() == AfterMove(Copied(st), m.from, m.to)
    {
      b := new Board.Of(st);
      b.MakeMove(m.from, m.to);
    }

    /**
     * One pass of the loop of `findMove(board, ...)` on a board whose
     * position is `st`: make move `m` on a copy and score it, a win
     * outright or the reply searched one level deeper, shifted by the
     * depth in 32-bit arithmetic.
     */
    method ScoreMove(st: BoardState, m: Move, depth: int, sense: int, alpha: int, beta: int) returns (tmpScore: int)
      requires Playable(st) && IsSense(sense) && st.turn == SideOf(sense)
      requires 0 <= depth < maxDepth && LegalMove(st, m)
      modifies this
      ensures (State(), tmpScore) == ChildValue(old(State()), st, m, depth, sense, alpha, beta, rootSense, rolls)
      ensures rootSense == old(rootSense)
      decreases Budget(State()) - depth, 1
    {
      ghost var a0 := State();
      var b := Child(st, m);
      ChildPlayable(st, SideOf(sense), m);
      if b.winner.None? {
        var sub := Reply(b, b.Abs(), depth, sense, alpha, beta);
        tmpScore := Shifted(rootSense, depth, sub);
        ReplyValue(a0, st, m, depth, sense, alpha, beta, rootSense, rolls);
      } else if b.winner == Some(WHITE) {
        tmpScore := WINNING_VALUE;
        assert (State(), tmpScore) == ChildValue(a0, st, m, depth, sense, alpha, beta, rootSense, rolls);
      } else {
        tmpScore := -WINNING_VALUE;
        assert (State(), tmpScore) == ChildValue(a0, st, m, depth, sense, alpha, beta, rootSense, rolls);
      }
    }

    /** `board` holds a position still in play with `sense`'s side to move. */
    static ghost predicate Ready(board: Board, sense: int)
      reads board, board.grid
    {
      board.Valid() && Playable(board.Abs()) && IsSense(sense) && board.turn == SideOf(sense)
    }

    /** The reply to a move that ends nothing: the other side's search one level deeper from `b`, whose position is `child`. */
    method Reply(b: Board, ghost child: BoardState, depth: int, sense: int, alpha: int, beta: int) returns (sub: int)
      requires Ready(b, -sense) && b.Abs() == child && IsSense(sense)
      requires 0 <= depth < maxDepth
      modifies this, b
      ensures State() == Search(old(State()), child, depth + 1, false, -sense, alpha, beta, rootSense, rolls).0
      ensures sub == Search(old(State()), child, depth + 1, false, -sense, alpha, beta, rootSense, rolls).1
      ensures b.Valid() && b.Abs() == child.(turn := b.turn)
      ensures b.turn == if maxDepth == depth + 1 then WHITE else child.turn
      ensures rootSense == old(rootSense)
      decreases Budget(State()) - depth, 0
    {
      OppositeSense(sense);
      ghost var r := Search(State(), child, depth + 1, false, -sense, alpha, beta, rootSense, rolls);
      sub := FindMoveAt(b, child, depth + 1, false, -sense, alpha, beta);
      assert (State(), sub) == r;
    }

    /**
     * `findMove(board, depth, saveMove, sense, alpha, beta)`: a leaf is
     * scored statically; otherwise the legal moves of the side to move
     * are scanned.
     */
    method FindMoveAt(board: Board, ghost st: BoardState, depth: int, saveMove: bool, sense: int, alpha: int, beta: int) returns (score: int)
      requires Ready(board, sense) && board.Abs() == st && 0 <= depth <= maxDepth
      modifies this, board
      ensures (State(), score) == Search(old(State()), st, depth, saveMove, sense, alpha, beta, rootSense, rolls)
      ensures board.Valid() && board.Abs() == st.(turn := board.turn)
      ensures board.turn == if maxDepth == depth then WHITE else st.turn
      ensures rootSense == old(rootSense)
      decreases Budget(State()) - depth, 5
    {
      ghost var a0 := State();
      var md := MaxDepth(board);
      ghost var a1 := State();
      assert board.Abs() == st;
      if depth == md {
        score := StaticScore(board);
        assert (State(), score) == StaticValue(a1, st, rolls);
        assert (State(), score) == Search(a0, st, depth, saveMove, sense, alpha, beta, rootSense, rolls);
      } else {
        var moves := board.LegalMoves(SideOf(sense));
        ListedMovesLegal(st, SideOf(sense));
        score := ScanFrom(board.Abs(), moves, depth, saveMove, sense, alpha, beta);
        assert (State(), score) == Search(a0, st, depth, saveMove, sense, alpha, beta, rootSense, rolls);
      }
    }

    /**
     * The loop of `findMove(board, ...)` over the listed moves `moves` of
     * the side to move, on a board whose position is `st` (the loop leaves
     * the board itself alone).
     */
    method ScanFrom(st: BoardState, moves: seq<Move>, depth: int, saveMove: bool, sense: int, alpha: int, beta: int)
      returns (score: int)
      requires Playable(st) && IsSense(sense) && st.turn == SideOf(sense)
      requires 0 <= depth < maxDepth && AllLegal(st, moves)
      modifies this
      ensures (State(), score) == Scan(old(State()), st, moves, 0, depth, saveMove, sense, -sense * INFTY, alpha, beta, rootSense, rolls)
      ensures rootSense == old(rootSense)
      decreases Budget(State()) - depth, 3
    {
      ghost var a0 := State();
      score := -sense * INFTY;
      var al, be := alpha, beta;
      ghost var target := Scan(a0, st, moves, 0, depth, saveMove, sense, score, al, be, rootSense, rolls);
      assert ScanOutcome(a0, st, moves, 0, depth, saveMove, sense, score, al, be, rootSense, rolls) == Some(target);
      var i := 0;
      while i < |moves|
        invariant 0 <= i <= |moves|
        invariant Budget(State()) == Budget(a0) && rootSense == old(rootSense)
        invariant ScanOutcome(State(), st, moves, i, depth, saveMove, sense, score, al, be, rootSense, rolls) == Some(target)
        decreases |moves| - i
      {
        score, al, be := ConsiderMove(st, moves, i, depth, saveMove, sense, score, al, be, target);
        if al >= be {
          return;
        }
        i := i + 1;
      }
      ScanDone(State(), st, moves, depth, saveMove, sense, score, al, be, rootSense, rolls, target);
    }

    /**
     * The body of the loop of `findMove(board, ...)` for the `i`-th move:
     * score it; a strictly better score becomes the best (and the move the
     * saved one when asked); then the window narrows on the side to move.
     */
    method ConsiderMove(st: BoardState, moves: seq<Move>, i: nat, depth: int, saveMove: bool, sense: int,
                        score0: int, alpha: int, beta: int, ghost target: (SearchState, int))
      returns (score: int, al: int, be: int)
      requires i < |moves|
      requires ScanOutcome(State(), st, moves, i, depth, saveMove, sense, score0, alpha, beta, rootSense, rolls) == Some(target)
      modifies this
      ensures Budget(State()) == Budget(old(State())) && rootSense == old(rootSense)
      ensures al >= be ==> (State(), score) == target
      ensures al < be ==> ScanOutcome(State(), st, moves, i + 1, depth, saveMove, sense, score, al, be, rootSense, rolls) == Some(target)
      decreases Budget(State()) - depth, 2
    {
      ghost var a0 := State();
      var m := moves[i];
      ScanStep(a0, st, moves, i, depth, saveMove, sense, score0, alpha, beta, rootSense, rolls);
      var tmpScore := ScoreMove(st, m, depth, sense, alpha, beta);
      score, al, be := Keep(m, saveMove, sense, tmpScore, score0, alpha, beta);
    }

    /** The bookkeeping of the loop of `findMove(board, ...)` once move `m` has scored `tmpScore`. */
    method Keep(m: Move, saveMove: bool, sense: int, tmpScore: int, score0: int, alpha: int, beta: int)
      returns (score: int, al: int, be: int)
      modifies this
      ensures Progress(State(), score, al, be) == Consider((old(State()), tmpScore), m, saveMove, sense, score0, alpha, beta)
      ensures rootSense == old(rootSense)
    {
      score, al, be := score0, alpha, beta;
      if sense > 0 {
        if tmpScore > score {
          score := tmpScore;
          if saveMove {
            lastFoundMove := Some(m);
          }
        }
        al := Max(al, score);
      } else {
        if tmpScore < score {
          score := tmpScore;
          if saveMove {
            lastFoundMove := Some(m);
          }
        }
        be := Min(be, score);
      }
    }

    /**
     * `findMove()`: search a copy of `board` from depth 0 for this
     * player's side with the widest window, saving the best move, and
     * return it. A move it returns is legal on `board`.
     */
    method FindMove(board: Board) returns (m: Option<Move>)
      requires board.Valid() && Playable(board.Abs()) && IsSide(myPiece) && board.turn == myPiece
      requires 0 <= maxDepth
      modifies this
      ensures rootSense == (if myPiece == WHITE then 1 else -1) && m == lastFoundMove
      ensures State() == Search(old(State()).(lastFound := None), Copied(board.Abs()), 0, true, rootSense,
                                -INFTY, INFTY, rootSense, rolls).0
      ensures m.Some? ==> m.value in LegalMovesOf(board.Abs(), myPiece)
                          && IsRookMove(m.value.from, m.value.to) && IsLegal(board.Abs(), m.value.from, m.value.to)
    {
      var b := new Board.Clone(board);
      var sense := if myPiece == WHITE then 1 else -1;
      rootSense := sense;
      lastFoundMove := None;
      CopyPlayable(board.Abs());
      var score := FindMoveAt(b, b.Abs(), 0, true, sense, -INFTY, INFTY);
      m := lastFoundMove;
      FoundMoveIsLegal(old(State()), board.Abs(), sense, rolls);
    }
  }
}
