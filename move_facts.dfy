/**
 * What one call of `makeMove` does to a position: which pieces a capture
 * removes, that the index sets and the king position stay exact, the
 * effect on the grid and the counters, the winner rules, and what `undo`
 * restores afterwards.
 */
module MoveFacts {
  import opened Options
  import opened Pieces
  import opened Squares
  import opened Rules
  import opened RulesFacts

  /** Writing one cell changes that cell and no other. */
  lemma GetUpdate(g: Grid, p: Piece, s: Square, t: Square)
    ensures Get(g[Index(s) := p], t) == if t == s then p else Get(g, t)
  {
    if t != s {
      SquareAtIndex(s);
      SquareAtIndex(t);
    }
  }

  // ---------------------------------------------------------------------
  // When a capture fires

  /** More than three allied neighbours means all four neighbours exist and are allied. */
  lemma AllAroundAllied(g: Grid, p: Piece, s: Square, d: int)
    requires AlliedAround(g, p, s) > 3 && IsDir(d)
    ensures RookMove(s, d, 1).Some? && Allied(g, p, RookMove(s, d, 1).value)
  {
    assert AlliedUpTo(g, p, s, 1) == AlliedStep(g, p, s, 0);
    assert AlliedUpTo(g, p, s, 2) == AlliedUpTo(g, p, s, 1) + AlliedStep(g, p, s, 1);
    assert AlliedUpTo(g, p, s, 3) == AlliedUpTo(g, p, s, 2) + AlliedStep(g, p, s, 2);
    assert AlliedAround(g, p, s) == AlliedUpTo(g, p, s, 3) + AlliedStep(g, p, s, 3);
  }

  /** `tryCapture` lists a partner square exactly when the capture test fires in its direction; it lies two steps away. */
  lemma {:induction false} PartnersSpec(g: Grid, sq: Square, n: nat, p: Square)
    requires n <= 4
    ensures p in Partners(g, sq, n) <==> exists i :: 0 <= i < n && CaptureIn(g, sq, i) && RookMove(sq, i, 2) == Some(p)
  {
    if n > 0 {
      var k := n - 1;
      PartnersSpec(g, sq, k, p);
      var last := if CaptureIn(g, sq, k) then [RookMove(sq, k, 2).value] else [];
      assert Partners(g, sq, n) == Partners(g, sq, k) + last;
      if p in last {
        assert 0 <= k < n && CaptureIn(g, sq, k) && RookMove(sq, k, 2) == Some(p);
      }
      if exists i :: 0 <= i < n && CaptureIn(g, sq, i) && RookMove(sq, i, 2) == Some(p) {
        var i :| 0 <= i < n && CaptureIn(g, sq, i) && RookMove(sq, i, 2) == Some(p);
        if i == k {
          assert p in last;
        }
      }
    }
  }

  /**
   * A soldier next to `sq` is taken exactly when the piece on `sq` belongs
   * to the other side and the square beyond the soldier sides with it.
   */
  lemma SoldierCapture(g: Grid, sq: Square, i: int, mid: Square)
    requires IsDir(i) && RookMove(sq, i, 2).Some? && RookMove(sq, i, 1) == Some(mid)
    requires Get(g, mid) != KING
    ensures CaptureIn(g, sq, i) <==>
      && Get(g, sq) != EMPTY && Get(g, mid) != EMPTY && Side(Get(g, mid)) != Side(Get(g, sq))
      && Allied(g, Get(g, sq), RookMove(sq, i, 2).value)
  {
    BetweenTwoSteps(sq, i);
  }

  /**
   * Away from the throne and its four neighbours the king is taken like a
   * soldier, by an attacker on `sq` and an allied square beyond the king;
   * the count of allied neighbours never adds a capture there.
   */
  lemma KingCaptureAway(g: Grid, sq: Square, i: int, mid: Square)
    requires IsDir(i) && RookMove(sq, i, 2).Some? && RookMove(sq, i, 1) == Some(mid)
    requires Get(g, mid) == KING && mid != THRONE && mid !in SURROUNDING_THRONE
    ensures CaptureIn(g, sq, i) <==> Get(g, sq) == BLACK && Allied(g, BLACK, RookMove(sq, i, 2).value)
  {
    BetweenTwoSteps(sq, i);
    if CaptureIn(g, sq, i) && !Allied(g, Side(Get(g, sq)), RookMove(sq, i, 2).value) {
      AllAroundAllied(g, Side(Get(g, sq)), mid, i);
      FarIsNeighbourOfMid(sq, i);
    }
  }

  /** On the throne or next to it the king is taken only by an attacker when all four of its neighbours side with Black. */
  lemma KingCaptureNearThrone(g: Grid, sq: Square, i: int, mid: Square)
    requires IsDir(i) && RookMove(sq, i, 2).Some? && RookMove(sq, i, 1) == Some(mid)
    requires Get(g, mid) == KING && (mid == THRONE || mid in SURROUNDING_THRONE)
    ensures CaptureIn(g, sq, i) <==>
      && Get(g, sq) == BLACK
      && forall d :: IsDir(d) ==> RookMove(mid, d, 1).Some? && Allied(g, BLACK, RookMove(mid, d, 1).value)
  {
    BetweenTwoSteps(sq, i);
    if CaptureIn(g, sq, i) {
      forall d | IsDir(d) ensures RookMove(mid, d, 1).Some? && Allied(g, BLACK, RookMove(mid, d, 1).value) {
        AllAroundAllied(g, BLACK, mid, d);
      }
    }
    if Get(g, sq) == BLACK && forall d :: IsDir(d) ==> RookMove(mid, d, 1).Some? && Allied(g, BLACK, RookMove(mid, d, 1).value) {
      assert AlliedStep(g, BLACK, mid, 0) == 1 && AlliedStep(g, BLACK, mid, 1) == 1;
      assert AlliedStep(g, BLACK, mid, 2) == 1 && AlliedStep(g, BLACK, mid, 3) == 1;
      assert AlliedUpTo(g, BLACK, mid, 1) == 1;
      assert AlliedUpTo(g, BLACK, mid, 2) == 2;
      assert AlliedUpTo(g, BLACK, mid, 3) == 3;
      assert AlliedAround(g, BLACK, mid) == 4;
    }
  }

  // ---------------------------------------------------------------------
  // What a capture removes

  /** A capture empties the square between the two and touches no other cell. */
  lemma CaptureGrid(st: BoardState, sq0: Square, sq2: Square, s: Square)
    ensures Get(Capture(st, sq0, sq2).grid, s) == if s == Between(sq0, sq2) then EMPTY else Get(st.grid, s)
  {
    GetUpdate(st.grid, EMPTY, Between(sq0, sq2), s);
  }

  /** A capture keeps the index sets exact and clears the king position exactly when it takes the king. */
  lemma CaptureConsistent(st: BoardState, sq0: Square, sq2: Square)
    requires SetsExact(st) && KingExact(st)
    ensures SetsExact(Capture(st, sq0, sq2)) && KingExact(Capture(st, sq0, sq2))
    ensures Capture(st, sq0, sq2).king.None? <==> st.king.None? || st.king == Some(Between(sq0, sq2))
  {
    var mid := Between(sq0, sq2);
    var st1 := if Get(st.grid, mid) == KING then st.(king := None) else st;
    PutSetsExact(st1, EMPTY, mid);
    var r := Capture(st, sq0, sq2);
    forall s ensures Get(r.grid, s) == KING <==> r.king == Some(s) {
      CaptureGrid(st, sq0, sq2, s);
    }
  }

  /** Capturing towards a list of partners empties the squares between and nothing else. */
  lemma {:induction false} CaptureAllGrid(st: BoardState, sq0: Square, ps: seq<Square>, s: Square)
    ensures Get(CaptureAll(st, sq0, ps).grid, s) ==
      if exists j :: 0 <= j < |ps| && Between(sq0, ps[j]) == s then EMPTY else Get(st.grid, s)
    decreases |ps|
  {
    if ps != [] {
      var st1 := Capture(st, sq0, ps[0]);
      CaptureAllGrid(st1, sq0, ps[1..], s);
      CaptureGrid(st, sq0, ps[0], s);
      if exists j :: 0 <= j < |ps[1..]| && Between(sq0, ps[1..][j]) == s {
        var j :| 0 <= j < |ps[1..]| && Between(sq0, ps[1..][j]) == s;
        assert Between(sq0, ps[j + 1]) == s;
      }
      if exists j :: 0 <= j < |ps| && Between(sq0, ps[j]) == s {
        var j :| 0 <= j < |ps| && Between(sq0, ps[j]) == s;
        if j > 0 {
          assert Between(sq0, ps[1..][j - 1]) == s;
        }
      }
    }
  }

  /** Every capture of a move keeps the index sets and the king position exact. */
  lemma {:induction false} CaptureAllConsistent(st: BoardState, sq0: Square, ps: seq<Square>)
    requires SetsExact(st) && KingExact(st)
    ensures SetsExact(CaptureAll(st, sq0, ps)) && KingExact(CaptureAll(st, sq0, ps))
    decreases |ps|
  {
    if ps != [] {
      CaptureConsistent(st, sq0, ps[0]);
      CaptureAllConsistent(Capture(st, sq0, ps[0]), sq0, ps[1..]);
    }
  }

  /** Square `s` is the neighbour of `to` in a direction in which the capture test fires on grid `g`. */
  predicate CapturedBy(g: Grid, to: Square, s: Square) {
    exists i :: 0 <= i < 4 && CaptureIn(g, to, i) && RookMove(to, i, 1) == Some(s)
  }

  /** The capture step of a move empties exactly the neighbours the capture test selects, all judged on the grid before any is removed. */
  lemma CapturedSquares(st: BoardState, to: Square, s: Square)
    ensures Get(Captured(st, to).grid, s) == if CapturedBy(st.grid, to, s) then EMPTY else Get(st.grid, s)
  {
    var ps := Partners(st.grid, to, 4);
    CaptureAllGrid(st, to, ps, s);
    if exists j :: 0 <= j < |ps| && Between(to, ps[j]) == s {
      var j :| 0 <= j < |ps| && Between(to, ps[j]) == s;
      PartnersSpec(st.grid, to, 4, ps[j]);
      var i :| 0 <= i < 4 && CaptureIn(st.grid, to, i) && RookMove(to, i, 2) == Some(ps[j]);
      BetweenTwoSteps(to, i);
      assert RookMove(to, i, 1) == Some(s);
    }
    if CapturedBy(st.grid, to, s) {
      var i :| 0 <= i < 4 && CaptureIn(st.grid, to, i) && RookMove(to, i, 1) == Some(s);
      var p := RookMove(to, i, 2).value;
      PartnersSpec(st.grid, to, 4, p);
      BetweenTwoSteps(to, i);
      var j :| 0 <= j < |ps| && ps[j] == p;
      assert Between(to, ps[j]) == s;
    }
  }

  /** The moving piece itself is never captured: every captured square is a neighbour of `to`. */
  lemma NotCapturedSelf(g: Grid, to: Square)
    ensures !CapturedBy(g, to, to)
  {
  }

  // ---------------------------------------------------------------------
  // One move

  /** The two `put` calls of a move: `to` gets the piece from `from`, `from` is emptied, nothing else changes. */
  lemma RelocateGrid(st: BoardState, from: Square, to: Square, s: Square)
    ensures Get(Relocate(st, from, to).grid, s) ==
      if s == from then EMPTY else if s == to then Get(st.grid, from) else Get(st.grid, s)
  {
    var st1 := Put(st, Get(st.grid, from), to);
    GetUpdate(st.grid, Get(st.grid, from), to, s);
    GetUpdate(st1.grid, EMPTY, from, s);
  }

  /** Moving a piece onto an empty square keeps the index sets and the king position exact. */
  lemma RelocateConsistent(st: BoardState, from: Square, to: Square)
    requires SetsExact(st) && KingExact(st) && Get(st.grid, to) == EMPTY && from != to
    ensures SetsExact(Relocate(st, from, to)) && KingExact(Relocate(st, from, to))
  {
    var st1 := Put(st, Get(st.grid, from), to);
    PutSetsExact(st, Get(st.grid, from), to);
    PutSetsExact(st1, EMPTY, from);
    var r := Relocate(st, from, to);
    forall s ensures Get(r.grid, s) == KING <==> r.king == Some(s) {
      RelocateGrid(st, from, to, s);
    }
  }

  /** A legal move lands on an empty square. */
  lemma LegalTargetEmpty(st: BoardState, from: Square, to: Square)
    requires IsRookMove(from, to) && IsLegal(st, from, to)
    ensures Get(st.grid, to) == EMPTY
  {
    RayReaches(from, to);
  }

  /**
   * After `makeMove(from, to)` the square `from` is empty, `to` holds the
   * piece that moved, the neighbours of `to` that the capture test selects
   * on the grid after the move are empty, and every other cell is as it was.
   */
  lemma MoveGrid(st: BoardState, from: Square, to: Square, s: Square)
    requires IsSide(st.turn)
    ensures Get(AfterMove(st, from, to).grid, s) ==
      if s == from then EMPTY
      else if s == to then Get(st.grid, from)
      else if CapturedBy(Relocate(st, from, to).grid, to, s) then EMPTY
      else Get(st.grid, s)
  {
    var adv := Advanced(st, from, to);
    CapturedSquares(adv, to, s);
    RelocateGrid(st, from, to, s);
    NotCapturedSelf(adv.grid, to);
  }

  /**
   * A legal move keeps the index sets and the king position exact: the
   * king position follows a moving king and is cleared when the king is
   * captured.
   */
  lemma AfterMoveConsistent(st: BoardState, from: Square, to: Square)
    requires Consistent(st) && IsRookMove(from, to) && IsLegal(st, from, to)
    ensures Consistent(AfterMove(st, from, to))
  {
    LegalTargetEmpty(st, from, to);
    RelocateConsistent(st, from, to);
    var adv := Advanced(st, from, to);
    CaptureAllConsistent(adv, to, Partners(adv.grid, to, 4));
  }

  /**
   * The counters and records after a move: the turn passes to the other
   * side, the move count grows by one, the limit is unchanged, exactly one
   * snapshot (the new position) is pushed and its grid added to the seen
   * set, and the position counts as repeated when the grid after the two
   * `put` calls had been seen.
   */
  lemma AfterMoveBookkeeping(st: BoardState, from: Square, to: Square)
    requires IsSide(st.turn)
    ensures var r := AfterMove(st, from, to);
      && r.turn == Opponent(st.turn).value && r.moveCount == st.moveCount + 1 && r.moveLimit == st.moveLimit
      && r.history == st.history + [Snapshot(r.grid, r.king)] && r.seen == st.seen + {r.grid}
      && r.repeated == (st.repeated || Relocate(st, from, to).grid in st.seen)
      && (HistoryCovers(st) ==> HistoryCovers(r)) && TopIsCurrent(r)
  {
  }

  // ---------------------------------------------------------------------
  // The winner rules

  /** The move limit is reached when the move count after the move, halved, is at least the limit. */
  predicate LimitReached(st: BoardState) {
    (st.moveCount + 1) / 2 >= st.moveLimit
  }

  /** The king has just been moved onto an edge square. */
  predicate KingEscapes(st: BoardState, from: Square, to: Square) {
    Get(st.grid, from) == KING && IsEdge(to)
  }

  /**
   * The winner after a legal move, with `b` the position the winner rules
   * judge: reaching the limit wins for the side that moved; otherwise a
   * king reaching the edge wins for White; otherwise a captured king, or
   * White without a move, wins for Black; otherwise Black without a move
   * wins for White; otherwise a repeated position loses for the side that
   * moved; and only then is the game still on.
   */
  lemma WinnerRules(st: BoardState, from: Square, to: Square)
    requires IsSide(st.turn) && IsRookMove(from, to) && IsLegal(st, from, to)
    ensures var b, r := BeforeVerdict(st, from, to), AfterMove(st, from, to);
      && (LimitReached(st) ==> r.winner == Some(st.turn))
      && (!LimitReached(st) && KingEscapes(st, from, to) ==> r.winner == Some(WHITE))
      && (!LimitReached(st) && !KingEscapes(st, from, to) && (b.king.None? || !HasMove(b, WHITE)) ==> r.winner == Some(BLACK))
      && (!LimitReached(st) && !KingEscapes(st, from, to) && b.king.Some? && HasMove(b, WHITE) && !HasMove(b, BLACK) ==> r.winner == Some(WHITE))
      && (r.winner.None? <==>
            !LimitReached(st) && !KingEscapes(st, from, to) && b.king.Some? && HasMove(b, WHITE) && HasMove(b, BLACK)
            && Relocate(st, from, to).grid !in st.seen)
      && ((!LimitReached(st) && !KingEscapes(st, from, to) && b.king.Some? && HasMove(b, WHITE) && HasMove(b, BLACK)
            && Relocate(st, from, to).grid in st.seen) ==> r.winner == Opponent(st.turn))
  {
    var b := BeforeVerdict(st, from, to);
    OpponentInvolution(st.turn);
    assert Get(b.grid, to) == Get(st.grid, from) by {
      MoveGrid(st, from, to, to);
    }
  }

  /** A move only ever declares a side the winner, so the search's "invalid winner" error cannot arise. */
  lemma WinnerIsSide(st: BoardState, from: Square, to: Square)
    requires IsSide(st.turn) && (st.winner.None? || IsSide(st.winner.value))
    ensures AfterMove(st, from, to).winner.None? || IsSide(AfterMove(st, from, to).winner.value)
  {
    var moved := Relocate(st, from, to);
    var a := Advanced(st, from, to);
    assert a.winner == CheckRepeated(moved).winner;
    var b := BeforeVerdict(st, from, to);
    assert b.winner == a.winner;
  }

  /**
   * When a legal move leaves the game on, the king is still on the board
   * and not on an edge, so the search may evaluate the position.
   */
  lemma KingStaysInside(st: BoardState, from: Square, to: Square)
    requires Consistent(st) && IsRookMove(from, to) && IsLegal(st, from, to)
    requires st.king.Some? && !IsEdge(st.king.value)
    requires AfterMove(st, from, to).winner.None?
    ensures AfterMove(st, from, to).king.Some? && !IsEdge(AfterMove(st, from, to).king.value)
  {
    var r := AfterMove(st, from, to);
    WinnerRules(st, from, to);
    AfterMoveConsistent(st, from, to);
    var k := r.king.value;
    assert Get(r.grid, k) == KING;
    MoveGrid(st, from, to, k);
    if k != to {
      assert Get(st.grid, k) == KING;
    }
  }

  // ---------------------------------------------------------------------
  // Undoing a move

  /**
   * `undo()` right after `makeMove` gives back the position, the turn, the
   * move count, the index sets and the undo stack, with the game on again;
   * the seen set loses the grid the move produced and regains the grid
   * before it, so a repeated grid is forgotten even if it had been seen
   * before the move.
   */
  lemma UndoAfterMove(st: BoardState, from: Square, to: Square)
    requires IsSide(st.turn) && HistoryCovers(st) && TopIsCurrent(st) && SetsExact(st)
    ensures HistoryCovers(AfterMove(st, from, to)) && IsSide(AfterMove(st, from, to).turn)
    ensures UndoState(AfterMove(st, from, to)) ==
      st.(winner := None, repeated := false, seen := (st.seen - {AfterMove(st, from, to).grid}) + {st.grid})
  {
    AfterMoveBookkeeping(st, from, to);
    UndoPushed(st, AfterMove(st, from, to));
  }

  /** Undoing a state that is `st` with one more snapshot pushed and the turn passed gives back `st`, as `UndoAfterMove` states. */
  lemma UndoPushed(st: BoardState, r: BoardState)
    requires IsSide(st.turn) && HistoryCovers(st) && TopIsCurrent(st) && SetsExact(st)
    requires r.turn == Opponent(st.turn).value && r.moveCount == st.moveCount + 1 && r.moveLimit == st.moveLimit
    requires r.history == st.history + [Snapshot(r.grid, r.king)] && r.seen == st.seen + {r.grid}
    ensures HistoryCovers(r) && IsSide(r.turn)
    ensures UndoState(r) == st.(winner := None, repeated := false, seen := (st.seen - {r.grid}) + {st.grid})
  {
    OpponentInvolution(st.turn);
    var n := |r.history|;
    assert r.history[n - 2] == Snapshot(st.grid, st.king);
    assert r.history[..n - 2] + [Snapshot(st.grid, st.king)] == st.history;
  }

  /**
   * As written, `undo()` forgets a grid that is still on the undo stack:
   * when a move returns to a grid seen earlier, undoing it removes that
   * grid from the seen set although the earlier snapshot stays, so the
   * seen set no longer holds the grids of the undo stack.
   */
  lemma UndoForgetsEarlierGrid(st: BoardState, from: Square, to: Square)
    requires IsSide(st.turn) && HistoryCovers(st) && TopIsCurrent(st) && SetsExact(st)
    requires st.seen == HistoryGrids(st.history)
    requires AfterMove(st, from, to).grid in st.seen && AfterMove(st, from, to).grid != st.grid
    ensures HistoryCovers(AfterMove(st, from, to)) && IsSide(AfterMove(st, from, to).turn)
    ensures var u := UndoState(AfterMove(st, from, to));
      && AfterMove(st, from, to).grid in HistoryGrids(u.history) && AfterMove(st, from, to).grid !in u.seen
      && u.seen != HistoryGrids(u.history)
  {
    UndoAfterMove(st, from, to);
  }

  /** With the seen set holding the grids of the undo stack, the intended `undo()` after `makeMove` gives back the whole state, seen set included. */
  lemma UndoKeepingSeenAfterMove(st: BoardState, from: Square, to: Square)
    requires IsSide(st.turn) && HistoryCovers(st) && TopIsCurrent(st) && SetsExact(st)
    requires st.seen == HistoryGrids(st.history)
    ensures HistoryCovers(AfterMove(st, from, to)) && IsSide(AfterMove(st, from, to).turn)
    ensures UndoKeepingSeen(AfterMove(st, from, to)) == st.(winner := None, repeated := false)
  {
    var r := AfterMove(st, from, to);
    AfterMoveBookkeeping(st, from, to);
    UndoAfterMove(st, from, to);
    var n := |r.history|;
    assert r.history[..n - 1] == st.history;
    assert r.history[n - 2] == Snapshot(st.grid, st.king);
    assert st.grid in st.seen by {
      assert st.history[|st.history| - 1] in st.history;
    }
  }

  /** The intended `undo()` keeps the seen set equal to the grids of the undo stack. */
  lemma UndoKeepingSeenKeepsHistory(st: BoardState)
    requires HistoryCovers(st) && IsSide(st.turn)
    requires st.seen == HistoryGrids(st.history)
    ensures UndoKeepingSeen(st).seen == HistoryGrids(UndoKeepingSeen(st).history)
  {
    if st.moveCount > 0 {
      var n := |st.history|;
      var prev := st.history[n - 2];
      assert st.history == st.history[..n - 1] + [st.history[n - 1]];
      assert st.history[..n - 1] == st.history[..n - 2] + [prev];
      assert UndoKeepingSeen(st).history == st.history[..n - 2] + [prev];
    }
  }
}
