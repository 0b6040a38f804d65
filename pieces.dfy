/**
 * The contents of one cell of the Tablut board: empty, a white defender,
 * a black attacker or the king (the enum `Piece`).
 */
module Pieces {
  import opened Options

  datatype Piece = EMPTY | WHITE | BLACK | KING

  /** A side to move: the only values `side()` yields for a piece that is on the board. */
  predicate IsSide(p: Piece) {
    p == WHITE || p == BLACK
  }

  /** The class of a piece: the king belongs to White, every other piece to itself. */
  function Side(p: Piece): (r: Piece)
    ensures r != KING
    ensures p != EMPTY <==> IsSide(r)
  {
    if p == KING then WHITE else p
  }

  /** The opposing colour, or none for an empty cell. */
  function Opponent(p: Piece): (r: Option<Piece>)
    ensures r.None? <==> p == EMPTY
    ensures r.Some? ==> IsSide(r.value) && r.value != Side(p)
  {
    match p
    case WHITE => Some(BLACK)
    case KING => Some(BLACK)
    case BLACK => Some(WHITE)
    case EMPTY => None
  }

  /** The one-character symbol of a piece in textual printouts. */
  function Symbol(p: Piece): (r: string)
    ensures |r| == 1
  {
    match p
    case EMPTY => "-"
    case WHITE => "W"
    case BLACK => "B"
    case KING => "K"
  }

  /** The name used in messages; the empty cell has none. */
  function Name(p: Piece): (r: Option<string>)
    ensures r.None? <==> p == EMPTY
  {
    match p
    case EMPTY => None
    case WHITE => Some("White")
    case BLACK => Some("Black")
    case KING => Some("King")
  }

  /** The enum integer value. */
  function Value(p: Piece): (r: int)
    ensures 0 <= r < 4
  {
    match p
    case EMPTY => 0
    case WHITE => 1
    case BLACK => 2
    case KING => 3
  }

  /** `side()` is the identity except on the king, which it maps to White. */
  lemma SideTable()
    ensures Side(KING) == WHITE
    ensures forall p :: p != KING ==> Side(p) == p
  {
  }

  /** `side()` is idempotent. */
  lemma SideIdempotent(p: Piece)
    ensures Side(Side(p)) == Side(p)
  {
  }

  /** For a non-empty piece the opponent is the other side, and taking it twice gives back the side. */
  lemma OpponentInvolution(p: Piece)
    requires p != EMPTY
    ensures Opponent(p).Some? && Opponent(p).value != Side(p)
    ensures Opponent(Opponent(p).value) == Some(Side(p))
  {
  }

  /** Distinct pieces print as distinct symbols, so a board printout determines the board. */
  lemma SymbolInjective(p: Piece, q: Piece)
    ensures Symbol(p)[0] == Symbol(q)[0] <==> p == q
  {
  }

  /** Distinct pieces have distinct integer values. */
  lemma ValueInjective(p: Piece, q: Piece)
    ensures Value(p) == Value(q) <==> p == q
  {
  }
}
