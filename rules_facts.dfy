/**
 * What the rules of `Rules` guarantee: the initial layout, when the index
 * sets and the king position stay exact, what a legal move list contains,
 * how captures, repetition and the winner rules play out in a move, what
 * undo restores, and that the encoding tells positions apart.
 */
module RulesFacts {
  import opened Options
  import opened Pieces
  import opened Squares
  import opened Rules

  // ---------------------------------------------------------------------
  // The initial position

  /** Black stands exactly on the attackers' squares, White on the defenders', the king on the throne, nothing elsewhere. */
  lemma InitialLayout(s: Square)
    ensures Get(InitialState().grid, s) == BLACK <==> s in INITIAL_ATTACKERS
    ensures Get(InitialState().grid, s) == WHITE <==> s in INITIAL_DEFENDERS
    ensures Get(InitialState().grid, s) == KING <==> s == THRONE
    ensures Get(InitialState().grid, s) == EMPTY <==> s !in INITIAL_ATTACKERS && s !in INITIAL_DEFENDERS && s != THRONE
  {
    InitialBands(s);
  }

  /** The initial position keeps its index sets and king position exact, and its one snapshot is the position itself. */
  lemma InitialConsistent()
    ensures Consistent(InitialState()) && HistoryCovers(InitialState()) && TopIsCurrent(InitialState())
    ensures |InitialState().history| == 1 && InitialState().seen == {InitialState().grid}
  {
    var st := InitialState();
    forall s ensures s in st.whites <==> s in SideSquares(st.grid, WHITE) {
      InitialLayout(s);
    }
    forall s ensures s in st.blacks <==> s in SideSquares(st.grid, BLACK) {
      InitialLayout(s);
    }
    forall s ensures Get(st.grid, s) == KING <==> st.king == Some(s) {
      InitialLayout(s);
    }
  }

  // ---------------------------------------------------------------------
  // put and the bookkeeping

  /** `put` keeps the index sets exact exactly when the square was empty, the new content is empty, or both are of one side. */
  lemma PutSetsExact(st: BoardState, p: Piece, s: Square)
    requires SetsExact(st)
    ensures SetsExact(Put(st, p, s)) <==> Get(st.grid, s) == EMPTY || p == EMPTY || Side(p) == Side(Get(st.grid, s))
  {
    var r := Put(st, p, s);
    var old_ := Get(st.grid, s);
    forall t | t != s ensures Get(r.grid, t) == Get(st.grid, t) {
      SquareAtIndex(s);
      SquareAtIndex(t);
    }
    assert Get(r.grid, s) == p;
    if !(old_ == EMPTY || p == EMPTY || Side(p) == Side(old_)) {
      if Side(old_) == WHITE {
        assert s in r.whites && s !in SideSquares(r.grid, WHITE);
      } else {
        assert s in r.blacks && s !in SideSquares(r.grid, BLACK);
      }
    }
  }

  /** `put(EMPTY, s)` on the king's square leaves the king position pointing at the now empty square. */
  lemma PutEmptyLeavesKing(st: BoardState, s: Square)
    requires st.king == Some(s)
    ensures Put(st, EMPTY, s).king == Some(s) && Get(Put(st, EMPTY, s).grid, s) == EMPTY
    ensures !KingExact(Put(st, EMPTY, s))
  {
  }

  // ---------------------------------------------------------------------
  // Move generation

  /** No square a move passes over or lands on is the throne. */
  predicate AvoidsThrone(from: Square, to: Square)
    requires IsRookMove(from, to)
  {
    forall k :: 0 <= k < Dist(from, to) ==> Ray(from, Direction(from, to))[k] != THRONE
  }

  /** Every move an ordinary piece on `s` has in the directions below `dirs` slides over empty squares and never reaches the throne. */
  lemma {:induction false} PieceMovesUpToShape(g: Grid, s: Square, dirs: nat, m: Move)
    requires dirs <= 4 && m in PieceMovesUpTo(g, s, dirs)
    ensures m.from == s && IsRookMove(m.from, m.to)
    ensures PathClear(g, s, m.to) && AvoidsThrone(s, m.to)
  {
    var d := dirs - 1;
    if m in PieceMovesUpTo(g, s, d) {
      PieceMovesUpToShape(g, s, d, m);
    } else {
      var ray := Ray(s, d);
      var n := PassLen(g, ray, true);
      var pre := RookMoves(s, d)[..n];
      assert m in pre;
      var t :| 0 <= t < n && pre[t] == m;
      assert m == Move(s, ray[t]);
      RayIsRookMoves(s, d, t);
    }
  }

  /**
   * Every move `legalMoves(side)` lists starts on a piece of `side`, is a
   * rook move over empty squares onto an empty square, and, unless the
   * king makes it, neither crosses nor reaches the throne.
   */
  lemma LegalMovesSound(st: BoardState, side: Piece, moves: seq<Move>, m: Move)
    requires Consistent(st) && side != EMPTY && (side == WHITE ==> st.king.Some?)
    requires LegalMoveList(st, side, moves) && m in moves
    ensures IsRookMove(m.from, m.to)
    ensures Side(Get(st.grid, m.from)) == Side(side)
    ensures PathClear(st.grid, m.from, m.to)
    ensures Get(st.grid, m.from) != KING ==> AvoidsThrone(m.from, m.to)
  {
    var kms := KingPart(st, side);
    var i :| 0 <= i < |moves| && moves[i] == m;
    if i < |kms| {
      assert m == moves[..|kms|][i];
      KingMovesSound(st, m);
    } else {
      assert m == moves[|kms|..][i - |kms|];
      SoldierMoveSound(st, side, m);
    }
  }

  /** The king's listed moves start on the king and pass `isLegal`. */
  lemma KingMovesSound(st: BoardState, m: Move)
    requires KingExact(st) && st.king.Some? && m in KingMoves(st)
    ensures m.from == st.king.value && Get(st.grid, m.from) == KING
    ensures IsRookMove(m.from, m.to) && IsLegal(st, m.from, m.to)
    ensures PathClear(st.grid, m.from, m.to)
  {
  }

  /** A listed move of an ordinary piece starts on a piece of the side and slides over empty squares, clear of the throne. */
  lemma SoldierMoveSound(st: BoardState, side: Piece, m: Move)
    requires SetsExact(st) && side != EMPTY && SoldierMove(st, side, m)
    ensures IsRookMove(m.from, m.to) && Side(Get(st.grid, m.from)) == Side(side)
    ensures PathClear(st.grid, m.from, m.to) && AvoidsThrone(m.from, m.to)
  {
    PieceMovesUpToShape(st.grid, m.from, 4, m);
  }

  /** When `side` is to move and the game is on, every move `legalMoves(side)` lists passes `isLegal`. */
  lemma LegalMovesAreLegal(st: BoardState, side: Piece, moves: seq<Move>, m: Move)
    requires Consistent(st) && side != EMPTY && (side == WHITE ==> st.king.Some?)
    requires LegalMoveList(st, side, moves) && m in moves
    requires st.turn == Side(side) && st.winner.None?
    ensures IsRookMove(m.from, m.to) && IsLegal(st, m.from, m.to)
  {
    LegalMovesSound(st, side, moves, m);
    RayReaches(m.from, m.to);
  }

  /** The king's moves in direction `d` include every legal one within the first `n` squares. */
  lemma {:induction false} KingDirMovesComplete(st: BoardState, k: Square, d: int, n: nat, t: nat)
    requires IsDir(d) && t < n <= RayLen(k, d)
    requires IsLegal(st, k, Ray(k, d)[t])
    ensures Move(k, Ray(k, d)[t]) in KingDirMoves(st, k, d, n)
  {
    var to := Ray(k, d)[n - 1];
    if t < n - 1 {
      KingDirMovesComplete(st, k, d, n - 1, t);
      assert KingDirMoves(st, k, d, n - 1) <= KingDirMoves(st, k, d, n);
    } else {
      assert KingDirMoves(st, k, d, n) == KingDirMoves(st, k, d, n - 1) + [Move(k, to)];
    }
  }

  /** The king's moves in the directions below `dirs` include every legal one within the unblocked stretch of its direction. */
  lemma {:induction false} KingMovesUpToComplete(st: BoardState, k: Square, dirs: nat, d: int, t: nat)
    requires 0 <= d < dirs <= 4 && t < PassLen(st.grid, Ray(k, d), false)
    requires IsLegal(st, k, Ray(k, d)[t])
    ensures Move(k, Ray(k, d)[t]) in KingMovesUpTo(st, k, dirs)
  {
    if d < dirs - 1 {
      KingMovesUpToComplete(st, k, dirs - 1, d, t);
    } else {
      KingDirMovesComplete(st, k, d, PassLen(st.grid, Ray(k, d), false), t);
    }
  }

  /** An ordinary piece's moves in the directions below `dirs` include every square of the unblocked stretch of its direction. */
  lemma {:induction false} PieceMovesUpToComplete(g: Grid, s: Square, dirs: nat, d: int, t: nat)
    requires 0 <= d < dirs <= 4 && t < PassLen(g, Ray(s, d), true)
    ensures Move(s, Ray(s, d)[t]) in PieceMovesUpTo(g, s, dirs)
  {
    if d < dirs - 1 {
      PieceMovesUpToComplete(g, s, dirs - 1, d, t);
    } else {
      assert PieceDirMoves(g, s, d)[t] == Move(s, Ray(s, d)[t]);
    }
  }

  /** A move over empty squares (and, when the throne blocks, clear of it) stays within the unblocked stretch of its ray. */
  lemma ClearPathWithinPass(g: Grid, from: Square, to: Square, throneBlocks: bool)
    requires IsRookMove(from, to) && PathClear(g, from, to)
    requires throneBlocks ==> AvoidsThrone(from, to)
    ensures Dist(from, to) <= PassLen(g, Ray(from, Direction(from, to)), throneBlocks)
  {
    var ray := Ray(from, Direction(from, to));
    assert forall k :: 0 <= k < Dist(from, to) ==> !Blocked(g, ray[k], throneBlocks);
  }

  /**
   * `legalMoves(side)` lists every move `isLegal` accepts for the side to
   * move, except a move of an ordinary piece that crosses the empty throne.
   */
  lemma LegalMovesComplete(st: BoardState, side: Piece, moves: seq<Move>, from: Square, to: Square)
    requires Consistent(st) && IsSide(side) && (side == WHITE ==> st.king.Some?)
    requires LegalMoveList(st, side, moves)
    requires st.turn == side && IsRookMove(from, to) && IsLegal(st, from, to)
    requires Get(st.grid, from) == KING || AvoidsThrone(from, to)
    ensures Move(from, to) in moves
  {
    var d, t := Direction(from, to), Dist(from, to) - 1;
    RayReaches(from, to);
    var kms := KingPart(st, side);
    if Get(st.grid, from) == KING {
      ClearPathWithinPass(st.grid, from, to, false);
      KingMovesUpToComplete(st, from, 4, d, t);
      assert Move(from, to) in moves[..|kms|];
    } else {
      ClearPathWithinPass(st.grid, from, to, true);
      PieceMovesUpToComplete(st.grid, from, 4, d, t);
      assert SoldierMove(st, side, Move(from, to));
      assert Move(from, to) in moves[|kms|..];
    }
  }

  /** A board with one attacker just south of the empty throne, Black to move. */
  function CrossingExample(): (st: BoardState)
    ensures Get(st.grid, STHRONE) == BLACK && Get(st.grid, THRONE) == EMPTY && Get(st.grid, NTHRONE) == EMPTY
    ensures st.turn == BLACK && st.winner.None? && st.blacks == {STHRONE}
  {
    var g: Grid := seq(81, i => if i == Index(STHRONE) then BLACK else EMPTY);
    BoardState(g, None, BLACK, None, 0, INT_MAX, false, {}, {STHRONE}, [Snapshot(g, None)], {g})
  }

  /** `isLegal` accepts the attacker's move across the empty throne, yet `legalMoves(BLACK)` never lists it. */
  lemma ThroneCrossingNotListed(moves: seq<Move>)
    requires LegalMoveList(CrossingExample(), BLACK, moves)
    ensures IsRookMove(STHRONE, NTHRONE) && IsLegal(CrossingExample(), STHRONE, NTHRONE)
    ensures Move(STHRONE, NTHRONE) !in moves
  {
    var st := CrossingExample();
    assert Direction(STHRONE, NTHRONE) == 0 && Dist(STHRONE, NTHRONE) == 2;
    assert Ray(STHRONE, 0)[0] == THRONE;
    assert !AvoidsThrone(STHRONE, NTHRONE);
    forall m | m in moves ensures m != Move(STHRONE, NTHRONE) {
      assert m in moves[0..];
      assert m.from in st.blacks;
      assert Get(st.grid, m.from) == BLACK;
      PieceMovesUpToShape(st.grid, m.from, 4, m);
    }
  }

  // ---------------------------------------------------------------------
  // The encoding

  /** `encodedBoard()` tells positions apart: equal encodings mean the same turn and the same grid, and conversely. */
  lemma EncodeInjective(a: BoardState, b: BoardState)
    ensures Encode(a) == Encode(b) <==> a.turn == b.turn && a.grid == b.grid
  {
    if Encode(a) == Encode(b) {
      assert Encode(a)[0] == Encode(b)[0];
      SymbolInjective(a.turn, b.turn);
      forall i | 0 <= i < 81 ensures a.grid[i] == b.grid[i] {
        assert Encode(a)[i + 1] == Encode(b)[i + 1];
        SymbolInjective(a.grid[i], b.grid[i]);
      }
      assert a.grid == b.grid;
    }
    if a.turn == b.turn && a.grid == b.grid {
      forall i | 0 <= i < 82 ensures Encode(a)[i] == Encode(b)[i] {
      }
      assert Encode(a) == Encode(b);
    }
  }

  // ---------------------------------------------------------------------
  // Counting

  /** Counting the integers below `n` that satisfy `P` adds one for `n - 1` when it does. */
  lemma CountStep(P: int -> bool, n: nat)
    requires n > 0
    ensures |set d | 0 <= d < n && P(d)| == |set d | 0 <= d < n - 1 && P(d)| + (if P(n - 1) then 1 else 0)
  {
    var below := set d | 0 <= d < n - 1 && P(d);
    var upto := set d | 0 <= d < n && P(d);
    if P(n - 1) {
      assert upto == below + {n - 1};
    } else {
      assert upto == below;
    }
  }

  /** `AlliedUpTo` counts the set of directions, among the first `n`, in which `s` has an existing neighbour allied to `p`. */
  lemma {:induction false} AlliedIsCount(g: Grid, p: Piece, s: Square, n: nat)
    requires n <= 4
    ensures AlliedUpTo(g, p, s, n) == |set d | 0 <= d < n && AlliedStep(g, p, s, d) == 1|
  {
    if n > 0 {
      AlliedIsCount(g, p, s, n - 1);
      var P := d => IsDir(d) && AlliedStep(g, p, s, d) == 1;
      CountStep(P, n);
      assert (set d | 0 <= d < n && P(d)) == (set d | 0 <= d < n && AlliedStep(g, p, s, d) == 1);
      assert (set d | 0 <= d < n - 1 && P(d)) == (set d | 0 <= d < n - 1 && AlliedStep(g, p, s, d) == 1);
    }
  }

  // ---------------------------------------------------------------------
  // The move limit

  /** For limits up to 2^30 - 1 the 32-bit doubling is exact, so a limit is refused exactly when twice it is at most the move count. */
  lemma LimitRefusedSmall(lim: int, moveCount: int)
    requires -0x4000_0000 <= lim < 0x4000_0000
    ensures LimitRefused(lim, moveCount) <==> 2 * lim <= moveCount
  {
  }

  /** `setMoveLimit(Integer.MAX_VALUE)` is refused even on a fresh board: `2 * lim` wraps to -2. */
  lemma LargestLimitRefused(moveCount: int)
    requires moveCount >= 0
    ensures LimitRefused(INT_MAX, moveCount)
  {
    assert Wrap32(2 * INT_MAX) == -2;
  }
}
