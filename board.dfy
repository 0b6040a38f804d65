/**
 * The mutable Tablut board (`Board`): a 9x9 grid stored as one array of 81
 * cells in index order, the king's square, the side to move, the move
 * count and limit, the cached winner, the repetition flag, the index sets
 * of white and black squares, and the undo stack with its set of seen
 * grids. Every method is proved against the function of the `Rules`
 * module that describes it: `Abs()` after the call is that function of
 * `Abs()` before it.
 */
module Tablut {
  import opened Options
  import opened Pieces
  import opened Squares
  import opened Rules

  class Board {
    var grid: array<Piece>
    var king: Option<Square>
    var turn: Piece
    var winner: Option<Piece>
    var moveCount: int
    var moveLimit: int
    var repeated: bool
    var whites: set<Square>
    var blacks: set<Square>
    var history: seq<Snapshot>
    var seen: set<Grid>

    /** The board as a value. */
    function Abs(): BoardState
      reads this, grid
      requires grid.Length == 81
    {
      BoardState(grid[..], king, turn, winner, moveCount, moveLimit, repeated, whites, blacks, history, seen)
    }

    ghost predicate Valid()
      reads this, grid
    {
      grid.Length == 81 && IsSide(turn) && HistoryCovers(Abs())
    }

    /** A board in the initial position. */
    constructor ()
      ensures Valid() && Abs() == InitialState() && fresh(grid)
    {
      grid := new Piece[81](_ => EMPTY);
      king, turn, winner := None, BLACK, None;
      moveCount, moveLimit, repeated := 0, INT_MAX, false;
      whites, blacks, history, seen := {}, {}, [], {};
      new;
      Init();
    }

    /** A copy of `model` (`new Board(model)`). */
    constructor Clone(model: Board)
      requires model.Valid()
      ensures Valid() && Abs() == Copied(model.Abs()) && fresh(grid)
    {
      grid := new Piece[81](_ => EMPTY);
      king, turn, winner := None, BLACK, None;
      moveCount, moveLimit, repeated := 0, INT_MAX, false;
      whites, blacks, history, seen := {}, {}, [], {};
      new;
      CopyFrom(model);
    }

    /**
     * A board holding the position `st` with the move count and limit of a
     * fresh board: what `new Board(model)` makes of a board whose fields
     * are `st`.
     */
    constructor Of(st: BoardState)
      requires IsSide(st.turn) && 1 <= |st.history|
      ensures Valid() && Abs() == Copied(st) && fresh(grid)
    {
      grid := new Piece[81](i requires 0 <= i < 81 => st.grid[i]);
      king, turn, winner := st.king, st.turn, st.winner;
      moveCount, moveLimit, repeated := 0, INT_MAX, st.repeated;
      whites, blacks, history, seen := st.whites, st.blacks, st.history, st.seen;
      new;
      assert grid[..] == st.grid;
    }

    /** `copy(model)`: become a copy of `model`, except that the move count and limit are those of a fresh board. */
    method CopyFrom(model: Board)
      requires model.Valid()
      modifies this
      ensures Valid()
      ensures model == this ==> Abs() == old(Abs()) && grid == old(grid)
      ensures model != this ==> Abs() == Copied(old(model.Abs())) && fresh(grid)
    {
      if model == this {
        return;
      }
      Init();
      CopyState(model);
    }

    /** The second part of `copy(model)`: take over `model`'s cells, index sets, undo stack, seen set, turn, repetition flag and winner. */
    method CopyState(model: Board)
      requires grid.Length == 81 && model.grid.Length == 81 && model != this && model.grid != grid
      modifies this, grid
      ensures grid == old(grid)
      ensures Abs() == old(model.Abs()).(moveCount := old(moveCount), moveLimit := old(moveLimit))
    {
      ghost var m := model.Abs();
      forall i | 0 <= i < 81 {
        grid[i] := model.grid[i];
      }
      assert grid[..] == m.grid;
      king := model.king;
      whites, blacks := model.whites, model.blacks;
      history, seen := model.history, model.seen;
      turn, repeated, winner := model.turn, model.repeated, model.winner;
    }

    /** `init()`: the initial position, Black to move, one snapshot recorded. */
    method Init()
      modifies this
      ensures Valid() && Abs() == InitialState() && fresh(grid)
      ensures moveCount == 0 && moveLimit == INT_MAX
    {
      Clear();
      ghost var empty := Abs();
      PlacePieces();
      Finish();
      assert Abs() == InitSteps(empty);
      InitStepsFromEmpty(empty);
    }

    /** The first part of `init()`: empty index sets, an empty grid, an empty undo stack and seen set. */
    method Clear()
      modifies this
      ensures fresh(grid) && grid.Length == 81
      ensures forall s :: Get(Abs().grid, s) == EMPTY
      ensures whites == {} && blacks == {} && king == None && history == [] && seen == {}
    {
      whites, blacks := {}, {};
      grid := new Piece[81](_ => EMPTY);
      history, seen := [], {};
      king := None;
    }

    /** The middle part of `init()`: attackers, then defenders, then the king on the throne. */
    method PlacePieces()
      requires grid.Length == 81
      modifies this, grid
      ensures grid == old(grid)
      ensures Abs() == Placed(old(Abs()))
    {
      PlaceAll(BLACK, INITIAL_ATTACKERS);
      PlaceAll(WHITE, INITIAL_DEFENDERS);
      Put(KING, THRONE);
      king := Some(THRONE);
    }

    /** The last part of `init()`: record the position, Black to move, no winner, no moves and no limit. */
    method Finish()
      requires grid.Length == 81
      modifies this
      ensures grid == old(grid)
      ensures Abs() == Rules.Record(old(Abs())).(turn := BLACK, repeated := false, winner := None, moveCount := 0, moveLimit := INT_MAX)
    {
      Record();
      turn := BLACK;
      repeated := false;
      winner := None;
      moveCount := 0;
      moveLimit := INT_MAX;
    }

    /** One of the `put` loops of `init()`: `put(p, s)` for each `s` of `xs` in order. */
    method PlaceAll(p: Piece, xs: seq<Square>)
      requires grid.Length == 81
      modifies this, grid
      ensures grid == old(grid)
      ensures Abs() == Rules.PlaceAll(old(Abs()), p, xs)
    {
      var k := 0;
      while k < |xs|
        invariant 0 <= k <= |xs| && grid == old(grid)
        invariant Abs() == Rules.PlaceAll(old(Abs()), p, xs[..k])
      {
        assert xs[..k + 1][..k] == xs[..k];
        Put(p, xs[k]);
        k := k + 1;
      }
      assert xs[..k] == xs;
    }

    /** `setMoveLimit(lim)`: refused (returning false, nothing changed) when `2 * lim`, in 32 bits, does not exceed the move count. */
    method SetMoveLimit(lim: int) returns (accepted: bool)
      requires Valid() && -INT_MAX - 1 <= lim <= INT_MAX
      modifies this
      ensures Valid()
      ensures accepted == !LimitRefused(lim, old(moveCount))
      ensures Abs() == if accepted then old(Abs()).(moveLimit := lim) else old(Abs())
    {
      if Wrap32(2 * lim) <= moveCount {
        return false;
      }
      moveLimit := lim;
      return true;
    }

    /** `setTurn(side)`. */
    method SetTurn(side: Piece)
      requires Valid() && side != EMPTY
      modifies this
      ensures Valid() && grid == old(grid) && Abs() == old(Abs()).(turn := Side(side))
    {
      turn := Side(side);
    }

    /** `put(p, s)`: an unrecorded cell write that updates the index sets and, for the king, its position. */
    method Put(p: Piece, s: Square)
      requires grid.Length == 81
      modifies this, grid
      ensures grid == old(grid)
      ensures Abs() == Rules.Put(old(Abs()), p, s)
    {
      grid[Index(s)] := p;
      match p {
        case EMPTY =>
          whites := whites - {s};
          blacks := blacks - {s};
        case KING =>
          king := Some(s);
          whites := whites + {s};
        case WHITE =>
          whites := whites + {s};
        case BLACK =>
          blacks := blacks + {s};
      }
    }

    /** `record()`: push the current position. */
    method Record()
      requires grid.Length == 81
      modifies this
      ensures grid == old(grid)
      ensures Abs() == Rules.Record(old(Abs()))
    {
      history := history + [Snapshot(grid[..], king)];
      seen := seen + {grid[..]};
    }

    /** `checkRepeated()`. */
    method CheckRepeated()
      requires grid.Length == 81
      modifies this
      ensures grid == old(grid)
      ensures Abs() == Rules.CheckRepeated(old(Abs()))
    {
      if grid[..] in seen {
        winner := Opponent(turn);
        repeated := true;
      }
    }

    /** `isUnblockedMove(from, to)`: walk from `from` towards `to`, failing on the first occupied square. */
    method IsUnblockedMove(from: Square, to: Square) returns (clear: bool)
      requires grid.Length == 81 && IsRookMove(from, to)
      ensures clear == PathClear(grid[..], from, to)
    {
      var dir := Direction(from, to);
      var sq := from;
      ghost var k := 0;
      while sq != to
        invariant 0 <= k <= Dist(from, to)
        invariant RookMove(from, dir, k) == Some(sq)
        invariant forall j :: 0 <= j < k ==> Get(grid[..], Ray(from, dir)[j]) == EMPTY
        decreases Dist(from, to) - k
      {
        sq := RookMove(sq, dir, 1).value;
        k := k + 1;
        assert RookMove(from, dir, k) == Some(sq) && Ray(from, dir)[k - 1] == sq;
        if grid[Index(sq)] != EMPTY {
          return false;
        }
      }
      return true;
    }

    /** `isLegal(from)`: `from` holds a piece of the side to move. */
    method IsLegalFrom(from: Square) returns (legal: bool)
      requires Valid()
      ensures legal <==> Side(Get(Abs().grid, from)) == turn
    {
      legal := Side(grid[Index(from)]) == turn;
    }

    /** `isLegal(from, to)`. */
    method IsLegal(from: Square, to: Square) returns (legal: bool)
      requires Valid() && IsRookMove(from, to)
      ensures legal == Rules.IsLegal(Abs(), from, to)
    {
      if winner.Some? {
        return false;
      }
      legal := IsLegalFrom(from);
      if !legal {
        return false;
      }
      legal := IsUnblockedMove(from, to);
      legal := legal && (to != THRONE || grid[Index(from)] == KING);
    }

    /** `isLegal(move)`. */
    method IsLegalMove(m: Option<Move>) returns (legal: bool)
      requires Valid() && (m.Some? ==> IsRookMove(m.value.from, m.value.to))
      ensures legal == Rules.IsLegalMove(Abs(), m)
    {
      if m.None? {
        return false;
      }
      legal := IsLegal(m.value.from, m.value.to);
    }

    /** `revPut(p, s)`: `put(p, s)`, then record the position. */
    method RevPut(p: Piece, s: Square)
      requires grid.Length == 81
      modifies this, grid
      ensures grid == old(grid)
      ensures Abs() == Rules.Record(Rules.Put(old(Abs()), p, s))
    {
      Put(p, s);
      Record();
    }

    /** `capture(sq0, sq2)`. */
    method Capture(sq0: Square, sq2: Square)
      requires grid.Length == 81
      modifies this, grid
      ensures grid == old(grid)
      ensures Abs() == Rules.Capture(old(Abs()), sq0, sq2)
    {
      var between := Between(sq0, sq2);
      if grid[Index(between)] == KING {
        king := None;
      }
      Put(EMPTY, between);
    }

    /** `tryCapture(sq)`: the partner squares, in direction order, of the pieces a piece on `sq` captures. */
    method TryCapture(sq: Square) returns (partners: seq<Square>)
      requires grid.Length == 81
      ensures partners == Partners(grid[..], sq, 4)
    {
      partners := [];
      var i := 0;
      while i < 4
        invariant 0 <= i <= 4 && partners == Partners(grid[..], sq, i)
      {
        var add := CapturesIn(sq, i);
        if add {
          partners := partners + [RookMove(sq, i, 2).value];
        }
        i := i + 1;
      }
    }

    /** The test `tryCapture(sq)` makes in direction `i`: whether the piece on `sq` captures the piece next to it. */
    method CapturesIn(sq: Square, i: int) returns (add: bool)
      requires grid.Length == 81 && IsDir(i)
      ensures add <==> CaptureIn(grid[..], sq, i)
    {
      var side := Side(grid[Index(sq)]);
      var far := RookMove(sq, i, 2);
      add := false;
      if far.Some? {
        var between := Between(sq, far.value);
        if Opponent(side) == Some(Side(grid[Index(between)])) {
          if grid[Index(between)] != KING && Allied(grid[..], side, far.value) {
            add := true;
          } else if grid[Index(between)] == KING {
            if between != THRONE && between !in SURROUNDING_THRONE && Allied(grid[..], side, far.value) {
              add := true;
            } else {
              var count := AlliedCount(side, between);
              add := count > 3;
            }
          }
        }
      }
    }

    /** How many of the four neighbours of `s` are allied to `side`, counted as the inner loop of `tryCapture` does. */
    method AlliedCount(side: Piece, s: Square) returns (count: nat)
      requires grid.Length == 81
      ensures count == AlliedAround(grid[..], side, s)
    {
      count := 0;
      var j := 0;
      while j < 4
        invariant 0 <= j <= 4 && count == AlliedUpTo(grid[..], side, s, j)
      {
        var nb := RookMove(s, j, 1);
        if nb.Some? && Allied(grid[..], side, nb.value) {
          count := count + 1;
        }
        j := j + 1;
      }
    }

    /** Remove the pieces captured between `to` and each partner, in order. */
    method CaptureEach(to: Square, partners: seq<Square>)
      requires grid.Length == 81
      modifies this, grid
      ensures grid == old(grid)
      ensures Abs() == CaptureAll(old(Abs()), to, partners)
    {
      var k := 0;
      while k < |partners|
        invariant 0 <= k <= |partners| && grid == old(grid)
        invariant CaptureAll(Abs(), to, partners[k..]) == CaptureAll(old(Abs()), to, partners)
      {
        assert partners[k..][1..] == partners[k + 1..];
        Capture(to, partners[k]);
        k := k + 1;
      }
    }

    /** The first steps of `makeMove(from, to)`: relocate, check for repetition, flip the turn, count the move. */
    method Advance(from: Square, to: Square)
      requires grid.Length == 81 && IsSide(turn)
      modifies this, grid
      ensures grid == old(grid)
      ensures Abs() == Advanced(old(Abs()), from, to)
    {
      Put(grid[Index(from)], to);
      Put(EMPTY, from);
      CheckRepeated();
      turn := Opponent(turn).value;
      moveCount := moveCount + 1;
    }

    /** The capture steps of `makeMove`: find the partners, capture, record. */
    method CaptureAndRecord(to: Square)
      requires grid.Length == 81
      modifies this, grid
      ensures grid == old(grid)
      ensures Abs() == Captured(old(Abs()), to)
    {
      var partners := TryCapture(to);
      CaptureEach(to, partners);
      Record();
    }

    /** The winner rules at the end of `makeMove`, tried in order. */
    method DecideWinner(to: Square)
      requires Valid()
      modifies this
      ensures Valid() && grid == old(grid)
      ensures Abs() == Rules.DecideWinner(old(Abs()), to)
    {
      if moveCount / 2 >= moveLimit {
        winner := Opponent(turn);
      } else if grid[Index(to)] == KING && IsEdge(to) {
        winner := Some(WHITE);
      } else if king.None? {
        winner := Some(BLACK);
      } else {
        var white := HasMove(WHITE);
        if !white {
          winner := Some(BLACK);
        } else {
          var black := HasMove(BLACK);
          if !black {
            winner := Some(WHITE);
          }
        }
      }
    }

    /** `makeMove(from, to)`. */
    method MakeMove(from: Square, to: Square)
      requires Valid()
      modifies this, grid
      ensures Valid() && grid == old(grid)
      ensures Abs() == AfterMove(old(Abs()), from, to)
    {
      Advance(from, to);
      CaptureAndRecord(to);
      DecideWinner(to);
    }

    /** `pieceLocations(side)`. */
    method PieceLocations(side: Piece) returns (locs: set<Square>)
      requires side != EMPTY
      ensures locs == (if Side(side) == WHITE then whites else blacks)
    {
      locs := if Side(side) == WHITE then whites else blacks;
    }

    /** The king's moves in `legalMoves(WHITE)`: direction by direction, each filtered by `isLegal`. */
    method KingMoveList() returns (moves: seq<Move>)
      requires Valid() && king.Some?
      ensures moves == KingMoves(Abs())
    {
      ghost var st := Abs();
      var k := king.value;
      moves := [];
      for d := 0 to 4
        invariant moves == KingMovesUpTo(st, k, d)
      {
        var dm := KingDirMoveList(st, k, d);
        KingMovesStep(st, k, d, moves, dm);
        moves := moves + dm;
      }
    }

    /** The king's moves from `k` in direction `d`: nearest first, stopping at the first occupied square, each filtered by `isLegal`. */
    method KingDirMoveList(ghost st: BoardState, k: Square, d: int) returns (moves: seq<Move>)
      requires Valid() && st == Abs() && IsDir(d)
      ensures moves == KingDirMoves(st, k, d, PassLen(st.grid, Ray(k, d), false))
    {
      var ray := Ray(k, d);
      ghost var pass := PassLen(st.grid, ray, false);
      moves := [];
      var t := 0;
      while t < |ray|
        invariant 0 <= t <= pass
        invariant moves == KingDirMoves(st, k, d, t)
      {
        var more, next := KingDirStep(st, k, d, t, moves);
        if !more {
          break;
        }
        moves, t := next, t + 1;
      }
      assert t == pass;
    }

    /** One square of the king's loop in direction `d`: stop at an occupied square, otherwise add the move when `isLegal` passes it. */
    method KingDirStep(ghost st: BoardState, k: Square, d: int, t: nat, moves: seq<Move>) returns (more: bool, next: seq<Move>)
      requires Valid() && st == Abs() && IsDir(d) && t < RayLen(k, d)
      requires t <= PassLen(st.grid, Ray(k, d), false) && moves == KingDirMoves(st, k, d, t)
      ensures more <==> t < PassLen(st.grid, Ray(k, d), false)
      ensures more ==> next == KingDirMoves(st, k, d, t + 1)
    {
      var m := RookMoves(k, d)[t];
      next := moves;
      if grid[Index(m.to)] != EMPTY {
        return false, next;
      }
      var legal := IsLegalMove(Some(m));
      if legal {
        next := moves + [m];
      }
      more := true;
    }

    /** The moves of an ordinary piece on `sq`: per direction, nearest first, stopping at the first occupied square or the throne. */
    method PieceMoveList(sq: Square) returns (moves: seq<Move>)
      requires grid.Length == 81
      ensures moves == PieceMoves(grid[..], sq)
    {
      moves := [];
      for d := 0 to 4
        invariant moves == PieceMovesUpTo(grid[..], sq, d)
      {
        var ray := Ray(sq, d);
        ghost var pass := PassLen(grid[..], ray, true);
        var t := 0;
        while t < |ray|
          invariant 0 <= t <= pass
          invariant moves == PieceMovesUpTo(grid[..], sq, d) + RookMoves(sq, d)[..t]
        {
          var m := RookMoves(sq, d)[t];
          if grid[Index(m.to)] != EMPTY || m.to == THRONE {
            break;
          }
          moves := moves + [m];
          t := t + 1;
        }
        assert t == pass;
      }
    }

    /** The moves of every piece other than the king in the side's index set, the squares taken in index order. */
    method SoldierMoveList(side: Piece) returns (moves: seq<Move>)
      requires grid.Length == 81 && side != EMPTY
      ensures moves == SoldierMovesUpTo(Abs(), side, 81)
    {
      ghost var st := Abs();
      var locs := PieceLocations(side);
      moves := [];
      for i := 0 to 81
        invariant moves == SoldierMovesUpTo(st, side, i)
      {
        var sq := SquareAt(i);
        SoldierMovesStep(st, side, i);
        var pm := SoldierMovesFrom(locs, side, sq);
        moves := moves + pm;
      }
    }

    /** The moves `legalMoves(side)` lists for square `sq`, given the side's index set `locs`: none unless a piece other than the king stands there. */
    method SoldierMovesFrom(locs: set<Square>, side: Piece, sq: Square) returns (pm: seq<Move>)
      requires grid.Length == 81 && side != EMPTY && locs == Locations(Abs(), side)
      ensures pm == SoldierMovesAt(Abs(), side, sq)
    {
      pm := [];
      if sq in locs && grid[Index(sq)] != KING {
        pm := PieceMoveList(sq);
      }
    }

    /** `legalMoves(side)`: for White the king's moves first, then the moves of every other piece in the side's index set. */
    method LegalMoves(side: Piece) returns (moves: seq<Move>)
      requires Valid() && side != EMPTY && (side == WHITE ==> king.Some?)
      ensures moves == LegalMovesOf(Abs(), side) && LegalMoveList(Abs(), side, moves)
    {
      var kms := [];
      if side == WHITE {
        kms := KingMoveList();
      }
      var sms := SoldierMoveList(side);
      moves := kms + sms;
      LegalMovesOfIsList(Abs(), side);
    }

    /** `hasMove(side)`. */
    method HasMove(side: Piece) returns (has: bool)
      requires Valid() && side != EMPTY && (side == WHITE ==> king.Some?)
      ensures has == Rules.HasMove(Abs(), side)
    {
      var moves := LegalMoves(side);
      has := |moves| > 0;
    }

    /** `undo()`: nothing on the initial board, otherwise `undoPosition()`. */
    method Undo()
      requires Valid()
      modifies this, grid
      ensures Valid() && grid == old(grid)
      ensures Abs() == UndoState(old(Abs()))
    {
      if moveCount > 0 {
        UndoPosition();
      }
    }

    /** `undoPosition()`: pop the current and the previous snapshot, restore the previous one, rebuild the index sets, record. */
    method UndoPosition()
      requires Valid() && moveCount > 0
      modifies this, grid
      ensures Valid() && grid == old(grid)
      ensures Abs() == UndoState(old(Abs()))
    {
      var top := Pop();
      var prev := Pop();
      Restore(prev);
      moveCount, turn := moveCount - 1, Opponent(turn).value;
      repeated, winner := false, None;
      RebuildSets();
      Record();
    }

    /** Pop the top snapshot off the undo stack and remove its grid from the seen set. */
    method Pop() returns (snap: Snapshot)
      requires grid.Length == 81 && |history| > 0
      modifies this
      ensures grid == old(grid) && snap == old(history[|history| - 1])
      ensures Abs() == old(Abs()).(history := old(history[..|history| - 1]), seen := old(seen) - {snap.grid})
    {
      snap := history[|history| - 1];
      history := history[..|history| - 1];
      seen := seen - {snap.grid};
    }

    /** Make the grid and king position those of `snap`. */
    method Restore(snap: Snapshot)
      requires grid.Length == 81
      modifies this, grid
      ensures grid == old(grid)
      ensures Abs() == old(Abs()).(grid := snap.grid, king := snap.king)
    {
      forall i | 0 <= i < 81 {
        grid[i] := snap.grid[i];
      }
      assert grid[..] == snap.grid;
      king := snap.king;
    }

    /** The index-set rebuild of `undoPosition()`: every square, in index order, goes to the set of its piece's side. */
    method RebuildSets()
      requires grid.Length == 81
      modifies this
      ensures grid == old(grid)
      ensures Abs() == old(Abs()).(whites := SideSquares(grid[..], WHITE), blacks := SideSquares(grid[..], BLACK))
    {
      ghost var g := grid[..];
      var w, b := {}, {};
      var i := 0;
      while i < 81
        invariant 0 <= i <= 81
        invariant forall s :: s in w <==> Index(s) < i && Side(Get(g, s)) == WHITE
        invariant forall s :: s in b <==> Index(s) < i && Side(Get(g, s)) == BLACK
      {
        var sq := SquareAt(i);
        forall s | Index(s) == i ensures s == sq {
          SquareAtIndex(s);
        }
        match Side(grid[i]) {
          case WHITE => w := w + {sq};
          case BLACK => b := b + {sq};
          case _ =>
        }
        i := i + 1;
      }
      assert w == SideSquares(g, WHITE) && b == SideSquares(g, BLACK);
      whites, blacks := w, b;
    }

    /** `clearUndo()`: pop until one snapshot, the oldest, remains; the seen set holds its grid only; the move count restarts. */
    method ClearUndo()
      requires Valid()
      modifies this
      ensures Valid() && grid == old(grid)
      ensures Abs() == ClearedUndo(old(Abs()))
    {
      var stack := history;
      while |stack| > 1
        invariant 1 <= |stack| <= |history| && stack == history[..|stack|]
      {
        stack := stack[..|stack| - 1];
      }
      history := stack;
      seen := {stack[|stack| - 1].grid};
      moveCount := 0;
    }

    /** `encodedBoard()`: the turn's symbol, then the symbol of every square in index order. */
    method EncodedBoard() returns (e: string)
      requires grid.Length == 81
      ensures e == Encode(Abs())
    {
      var result := new char[82];
      result[0] := Symbol(turn)[0];
      for i := 0 to 81
        invariant result[0] == Symbol(turn)[0]
        invariant forall j :: 0 <= j < i ==> result[j + 1] == Symbol(grid[j])[0]
      {
        result[i + 1] := Symbol(grid[i])[0];
      }
      e := result[..];
    }
  }
}
