# Tablut rules engine and minimax player, modelled in Dafny

Tablut is played on a 9x9 board. Sixteen black attackers try to capture
the white king. The king and eight white defenders try to bring the king
to an edge square. This project models three parts of a Java implementation:

- **The board** (`Board.java`): a mutable object holding
  - the grid;
  - the king's square, the side to move, the move count and limit;
  - the cached winner and the repetition flag;
  - index sets of the white and the black squares;
  - an undo stack of positions and the set of positions seen so far.
- **The computer player** (`AI.java`): depth-limited minimax with
  alpha-beta pruning over copies of the board, and a heuristic score for
  leaf positions.
- **The piece enum** (`Piece.java`).

The layout follows the source:

- `pieces.dfy` (module `Pieces`): the `Piece` enum with `side`, `opponent`,
  the symbols, names and integer values.
- `squares.dfy` (module `Squares`): the geometry the board uses.
  - Squares as (column, row) pairs and the index `col + 9 * row`.
  - The four directions, `rookMove`, the rook-move rays nearest first, and `between`.
  - The edge test and the throne squares.
- `rules.dfy` (module `Rules`): the whole board as one value, `BoardState`,
  and one function per board operation:
  - `put`, `record`, the repetition check;
  - `isLegal`, `isAllied`, the capture test of `tryCapture`, `capture`;
  - the two parts of `legalMoves`, `hasMove`;
  - the steps of `makeMove` and the winner rules;
  - `undo`, `clearUndo`, `copy`, `setMoveLimit`'s test, `encodedBoard`.
- `rules_facts.dfy` and `move_facts.dfy` (modules `RulesFacts` and
  `MoveFacts`): what those rules guarantee.
  - The initial layout.
  - Soundness and completeness of move generation.
  - Exactly which pieces a capture removes.
  - The index sets and the king position staying exact.
  - The winner rules in their order.
  - `undo` after `makeMove`.
  - Injectivity of the encoding.
- `board.dfy` (module `Tablut`): the class `Board`.
  - The grid is an `array` of 81 cells; the other Java fields are fields.
  - Every method is proved against its function in `Rules`: `Abs()` after
    the call equals that function applied to `Abs()` before it.
- `minimax.dfy` (module `Minimax`): the search as values.
  - The search state: the last found move, the depth settings, and how
    much of the random stream has been used.
  - `Search`, the per-move value `ChildValue`, the loop `Scan`.
  - The one-time deepening and the static score, with their lemmas.
- `player.dfy` (module `AIPlayer`): the class `AI`.
  - `findMove` as recursive methods over `Board` objects.
  - Each method is proved equal to the value-level search.
  - The move `findMove()` returns is one `legalMoves` lists, and it passes `isLegal`.

Java `int` arithmetic is written out where it can leave the 32-bit range.
`Rules.Wrap32` is used in two places:

- **`setMoveLimit`'s `2 * lim`.** `RulesFacts.LargestLimitRefused` shows
  that `setMoveLimit(Integer.MAX_VALUE)` is refused even on a fresh board.
- **The shifted child score of the search.** `Minimax.WrappedWinFlips`
  shows that shifting a win for the opponent of the searching side wraps
  around to the opposite sign.

One quirk of the rules is stated as a lemma. `isLegal` accepts a soldier
move that crosses the empty throne, but `legalMoves` never lists such a
move (`RulesFacts.ThroneCrossingNotListed`).

## Model

| member | source | states |
|---|---|---|
| Pieces.Side | Piece.java:30-32 | never the king; non-empty exactly when the result is White or Black |
| Pieces.Opponent | Piece.java:36-45 | none exactly for the empty cell; otherwise a side different from the piece's own side |
| Pieces.Symbol | Piece.java:10-25 | every piece prints as one character |
| Pieces.Name | Piece.java:10-11 | the empty cell, and only it, has no name |
| Pieces.Value | Piece.java:10-20 | the enum value lies in 0..3 |
| Pieces.SideTable | Piece.java:30-32 | `side()` maps the king to White and is the identity on the other three |
| Pieces.SideIdempotent | Piece.java:30-32 | `side()` applied twice equals `side()` |
| Pieces.OpponentInvolution | Piece.java:30-45 | for a non-empty piece the opponent differs from its side, and the opponent's opponent is its side |
| Pieces.SymbolInjective | Piece.java:10-25 | two pieces have the same symbol character exactly when they are equal |
| Pieces.ValueInjective | Piece.java:10-20 | two pieces have the same integer value exactly when they are equal |
| Squares.SquareAt | Board.java:484-491 | the square at a linear index has that index (squares in index order) |
| Squares.RookMove | Board.java:287-322 | `rookMove(d, n)` exists exactly when the target column and row stay on the board |
| Squares.Ray | Board.java:402-433 | the ray of direction `d` lists, nearest first, the squares `k + 1` steps out, each a rook move away |
| Squares.RookMoves | Board.java:402-433 | the move-table entry for a square and direction: one move to each ray square, in ray order |
| Squares.RayReaches | Board.java:211-221 | the destination of a rook move lies on its ray, at its distance |
| Squares.RayIsRookMoves | Board.java:402-433 | each ray square is reached in that direction at that distance |
| Squares.BetweenTwoSteps | Board.java:291-294 | `between(sq, sq.rookMove(d, 2))` is the neighbour of `sq` in direction `d` |
| Squares.FarIsNeighbourOfMid | Board.java:296-306 | the square two steps out is the neighbour of the middle square in the same direction |
| Rules.Wrap32 | AI.java:123-125 | the result is in the `int` range, and a value already in range is unchanged |
| Rules.SideSquares | Board.java:373-384 | exactly the squares whose piece's `side()` is the given side |
| Rules.InitialBands | Board.java:43-54 | attackers stand on the two outer bands, defenders inside them off the diagonal, so the two lists are disjoint |
| Rules.InitialGrid | Board.java:43-54 | every cell holds the piece the initial layout gives its square |
| Rules.PlaceAll | Board.java:91-96 | a run of `put` calls changes only the grid, the king position and the index sets |
| Rules.PlaceAllGrid | Board.java:91-96 | placing `p` on every square of a list fills exactly those squares and leaves every other cell alone |
| Rules.PlaceAllSets | Board.java:91-96 | placing soldiers adds exactly the listed squares to their side's index set and leaves the king alone |
| Rules.InitialPlacement | Board.java:84-98 | the puts of `init()` on an empty board give the initial grid, the king on the throne, and exact index sets |
| Rules.InitStepsFromEmpty | Board.java:84-105 | `init()` on a cleared board reaches the initial position whatever the other fields held |
| Rules.Put | Board.java:175-195 | the cell gets `p`; the king position follows a placed king; turn, winner, counters and undo records are unchanged |
| Rules.Record | Board.java:127-131 | exactly the current position is pushed on the undo stack and its grid added to the seen set |
| Rules.CheckRepeated | Board.java:140-145 | a grid seen before makes the position repeated and the side to move's opponent the winner; otherwise nothing changes |
| Rules.BlackAroundThrone | Board.java:331-337 | counts at most four attackers around the throne |
| Rules.AlliedStep | Board.java:304-309 | one neighbour contributes at most one allied square |
| Rules.AlliedUpTo | Board.java:304-309 | at most `n` of the first `n` neighbours are counted |
| RulesFacts.AlliedIsCount | Board.java:304-309 | the count is the size of the set of directions, among the first `n`, with an existing neighbour allied to the side |
| Rules.Partners | Board.java:287-322 | at most one partner square per direction examined |
| Rules.Capture | Board.java:347-353 | changes only the grid, the king position and the index sets |
| Rules.CaptureAll | Board.java:260-263 | the captures of a move change only the grid, the king position and the index sets |
| Rules.PassFrom | Board.java:408-411 | the stretch a piece can slide: every square in it is free, and the square after it, if any, is blocked |
| Rules.KingDirMoves | Board.java:407-415 | every king move listed in one direction starts on the king, is a rook move, and passes `isLegal` |
| Rules.KingMovesUpTo | Board.java:405-417 | every king move listed starts on the king, is a rook move, and passes `isLegal` |
| Rules.KingMovesStep | Board.java:407-416 | the moves of one more direction are appended after the earlier directions |
| Rules.PieceDirMoves | Board.java:423-430 | every move listed for a piece starts on its square |
| Rules.PieceMovesUpTo | Board.java:423-430 | every move listed for a piece, over several directions, starts on its square |
| Rules.PieceMoves | Board.java:422-430 | every move listed for a piece starts on its square |
| Rules.SoldierMovesAtSpec | Board.java:418-431 | a move is listed for square `s` exactly when it starts on `s` and is a move of a listed piece other than the king |
| Rules.ConcatUpToSpec | Board.java:418-431 | a move is in the per-square concatenation exactly when its square comes before `i` and that square lists it |
| Rules.SoldierMovesStep | Board.java:418-431 | one more square appends its pieces' moves |
| Rules.SoldierMovesUpToSpec | Board.java:418-431 | the squares below `i` contribute exactly the soldier moves starting there |
| Rules.SoldierMovesExact | Board.java:418-431 | over all squares the list holds exactly the moves of the pieces other than the king |
| Rules.LegalMovesOfIsList | Board.java:402-433 | the index-order list is one of the lists `legalMoves` may return: the king's part, then exactly the soldier moves |
| Rules.KingPartThen | Board.java:402-433 | the king's part followed by any list holding exactly the soldier moves is a valid `legalMoves` result |
| Rules.LegalMoveListsAgree | Board.java:402-438 | two valid `legalMoves` results are empty together, so the hash-set order does not change `hasMove` |
| Rules.LegalMoveListNonEmpty | Board.java:436-438 | any valid `legalMoves` result is non-empty exactly when `hasMove` holds |
| Rules.FirstSoldierMove | Board.java:418-431 | the first soldier move listed belongs to a listed piece that can move |
| Rules.SoldierMoveListed | Board.java:418-431 | a listed piece that can move contributes its first move |
| Rules.SoldierMovesNonEmpty | Board.java:418-431 | the soldier part is non-empty exactly when some listed piece other than the king can move |
| Rules.HasMoveSpec | Board.java:402-438 | `hasMove(side)` holds exactly when the king (for White) has a legal move or some other listed piece can move |
| Rules.HasMoveParts | Board.java:402-438 | `hasMove(side)` holds exactly when the king's part or the soldier part is non-empty |
| Rules.Relocate | Board.java:255-256 | changes only the grid, the king position and the index sets |
| Rules.DecideWinner | Board.java:266-276 | only the winner changes, and it is either unchanged or White or Black |
| Rules.Advanced | Board.java:255-259 | the turn passes to the other side |
| Rules.BeforeVerdict | Board.java:255-264 | after relocation, repetition check, captures and record, the other side is to move |
| Rules.ClearedUndo | Board.java:391-398 | keeps the oldest snapshot only, the seen set reduced to its grid, move count 0; the position, winner and turn are unchanged |
| Rules.Encode | Board.java:484-491 | the encoding has 82 characters |
| RulesFacts.InitialLayout | Board.java:43-54 | in the initial position Black stands exactly on the 16 attacker squares, White on the 8 defender squares, the king on the throne, and every other square is empty |
| RulesFacts.InitialConsistent | Board.java:84-105 | the initial position has exact index sets and king position, Black to move, and one snapshot (itself) recorded |
| RulesFacts.PutSetsExact | Board.java:175-195 | `put` keeps the index sets exact exactly when the square was empty, the new piece is empty, or both belong to one side |
| RulesFacts.PutEmptyLeavesKing | Board.java:175-195 | `put(EMPTY, s)` on the king's square leaves the king position pointing at the now empty square |
| RulesFacts.PieceMovesUpToShape | Board.java:423-430 | every move generated for an ordinary piece slides over empty squares and never reaches the throne |
| RulesFacts.LegalMovesSound | Board.java:402-433 | every listed move starts on a piece of the side, crosses and lands on empty squares only, and avoids the throne unless the king makes it |
| RulesFacts.KingMovesSound | Board.java:405-417 | every king move listed starts on the king and passes `isLegal` |
| RulesFacts.SoldierMoveSound | Board.java:418-431 | every soldier move starts on a piece of the side, crosses empty squares and avoids the throne |
| RulesFacts.LegalMovesAreLegal | Board.java:402-433 | with the side to move and no winner, every listed move passes `isLegal` |
| RulesFacts.KingDirMovesComplete | Board.java:407-415 | every legal king move within the examined squares of a direction is listed |
| RulesFacts.KingMovesUpToComplete | Board.java:405-417 | every legal king move within the free stretch of its direction is listed |
| RulesFacts.PieceMovesUpToComplete | Board.java:423-430 | every square of an ordinary piece's free stretch is a listed destination |
| RulesFacts.ClearPathWithinPass | Board.java:211-221 | a move over empty squares stays inside the free stretch of its ray |
| RulesFacts.LegalMovesComplete | Board.java:235-240 | every move `isLegal` accepts for the side to move is listed, except a soldier's move across the empty throne |
| RulesFacts.CrossingExample | Board.java:235-240 | a board with one attacker next to the empty throne, Black to move |
| RulesFacts.ThroneCrossingNotListed | Board.java:235-240 | `isLegal` accepts that attacker's move across the empty throne, but no valid `legalMoves(BLACK)` result lists it |
| RulesFacts.EncodeInjective | Board.java:484-491 | two encodings are equal exactly when the turns and the grids are equal |
| RulesFacts.LimitRefusedSmall | Board.java:108-113 | for limits whose double fits in an `int`, a limit is refused exactly when twice it is at most the move count |
| RulesFacts.LargestLimitRefused | Board.java:108-113 | `setMoveLimit(Integer.MAX_VALUE)` is refused at any move count: `2 * lim` wraps to -2 |
| MoveFacts.AllAroundAllied | Board.java:304-313 | more than three allied neighbours means all four neighbours exist and are allied |
| MoveFacts.PartnersSpec | Board.java:287-322 | a square is a capture partner exactly when the capture test fires in some direction whose square two steps out it is |
| MoveFacts.SoldierCapture | Board.java:295-297 | a soldier next to the mover is taken exactly when it is of the other side and the square beyond it is allied to the mover |
| MoveFacts.KingCaptureAway | Board.java:298-302 | off the throne and its neighbours, the king is taken exactly when an attacker moved next to it with an allied square beyond |
| MoveFacts.KingCaptureNearThrone | Board.java:298-313 | on or next to the throne, the king is taken exactly when an attacker moved next to it and all four of its neighbours side with Black |
| MoveFacts.CaptureGrid | Board.java:347-353 | a capture empties the square in between and no other cell |
| MoveFacts.CaptureConsistent | Board.java:347-353 | a capture keeps the index sets and king position exact, and clears the king position exactly when it takes the king |
| MoveFacts.CaptureAllGrid | Board.java:260-263 | the captures empty exactly the squares between the mover and its partners |
| MoveFacts.CaptureAllConsistent | Board.java:260-263 | the captures keep the index sets and the king position exact |
| MoveFacts.CapturedSquares | Board.java:260-264 | the capture step empties exactly the neighbours the capture test selects on the grid before any removal |
| MoveFacts.NotCapturedSelf | Board.java:287-322 | the moving piece is never among the captured squares |
| MoveFacts.RelocateGrid | Board.java:255-256 | `to` gets the piece from `from`, `from` is emptied, nothing else changes |
| MoveFacts.RelocateConsistent | Board.java:255-256 | moving onto an empty square keeps the index sets and the king position exact |
| MoveFacts.LegalTargetEmpty | Board.java:235-240 | a legal move lands on an empty square |
| MoveFacts.MoveGrid | Board.java:249-277 | after `makeMove`: `from` empty, `to` holds the piece that moved, the neighbours selected by the capture test empty, every other cell unchanged |
| MoveFacts.AfterMoveConsistent | Board.java:249-277 | a legal move keeps the index sets and the king position exact |
| MoveFacts.AfterMoveBookkeeping | Board.java:249-277 | the turn flips, the move count grows by one, the limit is kept, exactly one snapshot (the new position) is pushed, and the position counts as repeated when the grid after relocation had been seen |
| MoveFacts.WinnerRules | Board.java:257-276 | the winner after a legal move, in the order the rules apply: limit, then king escape, then captured king or White stuck, then Black stuck, then repetition; the game goes on only when none applies |
| MoveFacts.WinnerIsSide | AI.java:121-132 | a move only ever declares White or Black the winner, so the search's "Invalid winner" error cannot arise |
| MoveFacts.KingStaysInside | Board.java:266-276 | when a legal move leaves the game on, the king is still on the board and off the edge |
| MoveFacts.UndoAfterMove | Board.java:356-387 | `undo()` right after `makeMove` restores grid, king, turn, move count, index sets and undo stack, with no winner and no repetition; the seen set loses the new grid and regains the old one |
| MoveFacts.UndoPushed | Board.java:364-387 | undoing a state with one more snapshot pushed and the turn passed gives back the earlier state |
| MoveFacts.UndoForgetsEarlierGrid | Board.java:362-368 | as written, undoing a move that returned to a grid already on the undo stack drops that grid from the seen set while its snapshot stays on the stack |
| Rules.UndoKeepingSeen | Board.java:362-368 | the undo the comment describes: as `undo()` except that the seen set keeps the undone grid when a snapshot below it holds it, so it keeps every grid the written undo keeps |
| MoveFacts.UndoKeepingSeenAfterMove | Board.java:362-387 | with the seen set equal to the grids of the undo stack, the intended undo right after `makeMove` gives back the whole state, seen set included |
| MoveFacts.UndoKeepingSeenKeepsHistory | Board.java:362-368 | the intended undo keeps the seen set equal to the grids of the undo stack |
| Tablut.Board.constructor | Board.java:58-60 | a new board is in the initial position |
| Tablut.Board.Clone | Board.java:63-65 | `new Board(model)` holds `model`'s position with move count 0 and no limit |
| Tablut.Board.Of | Board.java:63-81 | a board made from a position value holds it with move count 0 and no limit |
| Tablut.Board.CopyFrom | Board.java:68-81 | copying itself changes nothing; otherwise the board becomes the model with move count 0 and no limit |
| Tablut.Board.CopyState | Board.java:73-80 | takes over every field of the model except the move count and limit |
| Tablut.Board.Init | Board.java:84-105 | the board is in the initial position: move count 0, no limit, one snapshot |
| Tablut.Board.Clear | Board.java:85-89 | empty grid, empty index sets, no king, empty undo stack and seen set |
| Tablut.Board.PlacePieces | Board.java:91-98 | the grid, king and sets become those of the placed pieces |
| Tablut.Board.Finish | Board.java:99-104 | records the position; Black to move, no winner, not repeated, count 0, no limit |
| Tablut.Board.PlaceAll | Board.java:91-96 | the board after a `put` loop equals the fold of `put` over the list |
| Tablut.Board.SetMoveLimit | Board.java:108-113 | the limit is set exactly when `2 * lim` in 32 bits exceeds the move count; otherwise nothing changes |
| Tablut.Board.SetTurn | Board.java:441-443 | only the turn changes, to the side of the given piece |
| Tablut.Board.Put | Board.java:175-195 | the new board is `Rules.Put` of the old one |
| Tablut.Board.Record | Board.java:127-131 | the new board is `Rules.Record` of the old one |
| Tablut.Board.CheckRepeated | Board.java:140-145 | the new board is `Rules.CheckRepeated` of the old one |
| Tablut.Board.IsUnblockedMove | Board.java:211-221 | true exactly when every square after `from` up to and including `to` is empty |
| Tablut.Board.IsLegalFrom | Board.java:224-226 | true exactly when `from` holds a piece of the side to move |
| Tablut.Board.IsLegal | Board.java:235-240 | true exactly when: no winner, a piece of the side to move on `from`, a clear path, and only the king lands on the throne |
| Tablut.Board.IsLegalMove | Board.java:244-246 | a null move is illegal; otherwise as `isLegal(from, to)` |
| Tablut.Board.RevPut | Board.java:198-201 | `put` followed by `record` |
| Tablut.Board.Capture | Board.java:347-353 | the new board is `Rules.Capture` of the old one |
| Tablut.Board.TryCapture | Board.java:287-322 | the capture partners, in direction order: exactly the squares two steps out in the directions where the capture test fires |
| Tablut.Board.CapturesIn | Board.java:290-316 | the capture decision in one direction equals the capture test |
| Tablut.Board.AlliedCount | Board.java:304-309 | counts exactly the allied neighbours |
| Tablut.Board.CaptureEach | Board.java:261-263 | the new board is the captures towards each partner, in order |
| Tablut.Board.Advance | Board.java:255-259 | relocation, repetition check, turn flip and move count, as `Rules.Advanced` |
| Tablut.Board.CaptureAndRecord | Board.java:260-264 | the captures found on the current grid, then a record |
| Tablut.Board.DecideWinner | Board.java:266-276 | the winner rules, tried in order |
| Tablut.Board.MakeMove | Board.java:249-277 | the new board is `Rules.AfterMove` of the old one (whose properties `MoveFacts` proves) |
| Tablut.Board.PieceLocations | Board.java:477-480 | the white set for White and the king, the black set for Black |
| Tablut.Board.KingMoveList | Board.java:405-417 | exactly the king's moves, direction by direction |
| Tablut.Board.KingDirMoveList | Board.java:407-415 | exactly the king's moves in one direction, nearest first, up to the first occupied square |
| Tablut.Board.KingDirStep | Board.java:408-414 | stops at an occupied square; otherwise adds the move when `isLegal` passes it |
| Tablut.Board.PieceMoveList | Board.java:422-430 | exactly the moves of an ordinary piece |
| Tablut.Board.SoldierMoveList | Board.java:418-431 | exactly the soldier moves, squares taken in index order |
| Tablut.Board.SoldierMovesFrom | Board.java:418-431 | the moves listed for one square: none unless a listed piece other than the king stands there |
| Tablut.Board.LegalMoves | Board.java:402-433 | one of the lists `legalMoves(side)` may return: the king's moves first (for White), then exactly the soldier moves |
| Tablut.Board.HasMove | Board.java:436-438 | true exactly when the list of legal moves is non-empty |
| Tablut.Board.Undo | Board.java:356-360 | no change at move count 0; otherwise `undoPosition()` |
| Tablut.Board.UndoPosition | Board.java:364-387 | the new board is `Rules.UndoState` of the old one (see `MoveFacts.UndoAfterMove`) |
| Tablut.Board.Pop | Board.java:365-368 | pops the top snapshot and removes its grid from the seen set |
| Tablut.Board.Restore | Board.java:365-368 | the grid and king position become the snapshot's |
| Tablut.Board.RebuildSets | Board.java:373-385 | the index sets become exactly the squares of each side |
| Tablut.Board.ClearUndo | Board.java:391-398 | the new board is `Rules.ClearedUndo` of the old one |
| Tablut.Board.EncodedBoard | Board.java:484-491 | the encoding of the turn and the grid |
| Minimax.SideOf | AI.java:115 | positive sense is White, otherwise Black, always a side |
| Minimax.OccupiedUpTo | AI.java:162-167 | at most `n` occupied cells among the first `n` |
| Minimax.OccupiedIsCount | AI.java:162-167 | the count is the size of the set of occupied cells of index below `n` |
| Minimax.Deepened | AI.java:160-175 | the depth grows by exactly one, once, the first time fewer than 20 cells are occupied; otherwise unchanged; the budget is kept |
| Minimax.EdgeMovesUpTo | AI.java:187-192 | counts at most `n` edge moves among the first `n` |
| Minimax.EdgeMovesIsCount | AI.java:187-192 | the count is the size of the set of positions, among the first `n`, of king moves to an edge square |
| Minimax.BlackNeighbours | AI.java:200-210 | counts at most `n` attackers |
| Minimax.BlackNeighboursIsCount | AI.java:200-210 | the count is the size of the set of directions in which the king's neighbour is an attacker |
| Minimax.BlackAroundThroneIsNeighbours | Board.java:331-337 | the attackers around the throne are the attackers next to a king on the throne |
| Minimax.ThreatIsPower | AI.java:200-210 | the threat factor is 3 to the power of one less than the attackers next to a king off the throne, and 0 otherwise |
| Minimax.EdgeMovesAppend | AI.java:187-192 | the count over a concatenation is the sum of the counts |
| Minimax.EdgeMovesPrefix | AI.java:187-192 | the count over the first `n` moves depends only on those moves |
| Minimax.EdgeMovesElsewhere | AI.java:187-192 | moves not starting on the king count nothing |
| Minimax.EdgeMovesKingFirst | AI.java:187-192 | moves after the king's that start elsewhere add nothing |
| Minimax.SoldiersOffKing | AI.java:186-192 | no soldier move starts on the king's square |
| Minimax.LegalEdgeMoves | AI.java:185-192 | counting edge moves over all of `legalMoves(WHITE)` counts just the king's moves to an edge |
| Minimax.Scored | AI.java:178-217 | only the number of random draws changes, by at most two |
| Minimax.StaticValueSpec | AI.java:178-217 | two ways to the edge score `WILL_WIN_VALUE` with no draw; otherwise 300 per white piece minus 250 per black piece, plus 10000 for one way out, minus 5000 times the threat factor, within 4 either way, with two draws |
| Minimax.ListedMovesLegal | AI.java:116 | every move the search scans passes `isLegal` on the position |
| Minimax.ChildPlayable | AI.java:118-122 | after a legal move that leaves the game on, the copy is playable and the other side is to move |
| Minimax.Search | AI.java:109-156 | the budget is kept, the depth never decreases and the deepening is never undone; without `saveMove` no move is recorded |
| Minimax.LeafIsStatic | AI.java:111-113 | at the depth limit the result is the static score and no move is recorded |
| Minimax.NoMovesScore | AI.java:114-117 | with no moves to scan the result is `-sense * INFTY` and no move is recorded |
| Minimax.LeafIffAtLimit | AI.java:111-113 | a search ends with its depth limit at its own depth exactly when it stopped at a leaf |
| Minimax.ChildValue | AI.java:118-132 | the value of one move keeps the budget and records no move |
| Minimax.WinValue | AI.java:126-129 | a move that wins outright scores `WINNING_VALUE` for White and `-WINNING_VALUE` for Black, and the search state is unchanged |
| Minimax.ReplyValue | AI.java:121-125 | a move that ends nothing is worth the other side's search one level deeper without saving, shifted by `_sense * -1000 * depth` |
| Minimax.Consider | AI.java:134-150 | the best score moves only towards the side's preference; a tie keeps the earlier move; White raises alpha to the best, Black lowers beta; only `saveMove` records the move |
| Minimax.ConsiderSaves | AI.java:134-150 | the best score becomes the maximum (White) or minimum (Black) of the best so far and the move's value; the search state changes only when the move is saved and improves on the best, and then records that move |
| Minimax.Scan | AI.java:117-154 | the result is never worse than the starting score for the side; a recorded move is one of those scanned |
| Minimax.ScanStep | AI.java:117-154 | one move is considered, then the scan stops when alpha >= beta or goes on with the next move |
| Minimax.ScanDone | AI.java:154-155 | past the last move the scan returns the best score so far |
| Minimax.CopyPlayable | AI.java:90 | a copy of a playable position is playable, with the same side to move |
| Minimax.OppositeSense | AI.java:123-125 | negating the sense gives the opponent's side |
| Minimax.FoundMoveIsLegal | AI.java:89-96 | a move the root search records is listed by `legalMoves` for the side to move and passes `isLegal` on the original position |
| Minimax.CopiedListsSame | Board.java:63-81 | a copy lists the same moves as the original |
| Minimax.SoldierMovesCopied | Board.java:63-81 | a copy lists the same soldier moves |
| Minimax.KingMovesCopied | Board.java:63-81 | a copy lists the same king moves |
| Minimax.KingDirCopied | Board.java:63-81 | a copy lists the same king moves in one direction |
| Minimax.WrappedWinFlips | AI.java:123-129 | at depths 1 to 1000, the 32-bit shift of a win for the side opposite the root turns it into a score that favours the root side |
| AIPlayer.AI.constructor | AI.java:59-61 | a new player: no move found, depth 2, not yet deepened, nothing drawn |
| AIPlayer.AI.RandInt | AI.java:213-214 | the next number of the random stream, reduced below `n`; one more draw used |
| AIPlayer.AI.MaxDepth | AI.java:160-175 | the search state becomes `Minimax.Deepened` of the old one, and the returned depth is the new maximum |
| AIPlayer.AI.StaticScore | AI.java:178-217 | the score and search state of `Minimax.Scored` for the position's piece counts, king edge moves and threat factor; the board keeps its position, with White to move |
| AIPlayer.AI.Combine | AI.java:179-216 | the arithmetic of the static score |
| AIPlayer.AI.Features | AI.java:180-210 | the piece counts, the king's edge moves with White to move, and the threat factor; the board is left with White to move |
| AIPlayer.AI.Threat | AI.java:200-210 | the threat factor of the king's square |
| AIPlayer.AI.AddJitter | AI.java:213-214 | adds one random number below 5 and subtracts the next one |
| AIPlayer.AI.CountEdgeMoves | AI.java:187-192 | the number of listed moves taking the king to an edge square |
| AIPlayer.AI.Child | AI.java:118-119 | a fresh board holding the position after the move, made on a copy |
| AIPlayer.AI.ScoreMove | AI.java:118-132 | the value and search state of `Minimax.ChildValue` |
| AIPlayer.AI.Reply | AI.java:123-125 | the other side's search one level deeper; the child board keeps its position, with White to move exactly when that search stopped at a leaf |
| AIPlayer.AI.FindMoveAt | AI.java:109-156 | the score and search state of `Minimax.Search`; the board keeps its position, with White to move exactly when the search stopped at a leaf |
| AIPlayer.AI.ScanFrom | AI.java:114-155 | the score and search state of `Minimax.Scan` over the listed moves |
| AIPlayer.AI.ConsiderMove | AI.java:117-153 | one step of `Minimax.Scan` |
| AIPlayer.AI.Keep | AI.java:134-150 | the bookkeeping of `Minimax.Consider` |
| AIPlayer.AI.FindMove | AI.java:89-96 | searches a copy from depth 0, the caller's board unchanged; returns the recorded move, which `legalMoves` lists and `isLegal` accepts on the board |

## Left out

- `GUI.java` and `BoardWidget.java` are not part of this model: they hold window, painting and mouse handling, and no rules.
- `Board.toString`, `State.toString` and the console message of `makeMove` (Board.java:251) are text output and are not modelled.
- `Square.java`, `Move.java`, `SqList`, `Controller`, `Player` and `Utils` are not part of this model. `Squares` gives the geometry the board uses, and it assumes two things:
  - the directions are 0 north, 1 east, 2 south, 3 west;
  - the move table lists the destinations of each direction nearest first.
- The single-line accessors (`turn()`, `winner()`, `repeatedPosition()`, `moveCount()`, `kingPosition()`, `get`) read fields directly.
- The character-coordinate wrappers (`get(char, char)`, `put(Piece, char, char)`) and the `makeMove(Move)` overload are plain forwarding and are not modelled separately.
- `State.hashCode` is not modelled. The seen set is a set of grids, which matches `State.equals` (it compares grids only).
- `AI.myMove`'s random mode, `reportMove`, `isManual`, `create` and the template constructor `AI()` are controller plumbing and are not modelled.
- `_controller.randInt` is modelled as a stream of numbers, `rolls`, fixed when the player is made. The player reads it at position `draws`.
- `CRIT_NUM_OF_PCS` and `MAX_DEPTH_FOR_CRIT_NUM` are declared but never used, so they are not modelled.
- `_incDepth` and `_maxDepth` are static (shared by all players) in the source, but are fields of one player object here.
- Rules.SoldierMovesUpTo: `legalMoves` takes the pieces from a hash set in an unspecified order, but the model takes them in index order. The order-free property is `Rules.LegalMoveList`. `Rules.LegalMovesOfIsList` shows the index-order list satisfies it, and `Rules.LegalMoveListsAgree` shows that `hasMove` does not depend on the order.
- Rules.AlliedStep: a missing neighbour is counted as not allied. In the source, `tryCapture` passes `null` to `isAllied` for a king on an edge square and fails with a null-pointer error; the model returns "no capture" there instead.
- Tablut.Board.SetMoveLimit: the source throws an error for a refused limit. The model returns `false` instead and changes nothing.
- Tablut.Board.MakeMove: does not require `isLegal(from, to)`, because the source only asserts it and prints a message.
- The move count is an unbounded integer. Wrap-around after 2^31 moves is not modelled.
- AIPlayer.AI.FindMoveAt: requires a position still in play:
  - index sets and king position exact;
  - no winner;
  - the king on the board, off the edge;
  - a depth at most the current maximum.
  The source calls it only on such positions. Elsewhere `staticScore` would fail on a missing king.
- Minimax.Scan: the scan's value is not claimed equal to that of an unpruned minimax search. The siblings share the random stream and the one-time deepening, and the child's window is not shifted by the depth term of AI.java:123, so pruning can change the value. `Minimax.ScanStep` and `Minimax.ConsiderSaves` state each step: the best becomes the maximum (White) or minimum (Black) of the best so far and the move's value until the window closes.
- AIPlayer.AI.FindMove: requires that it is this player's turn on the board, and that the player plays White or Black, as the controller arranges.
- AIPlayer.AI.Child: the copy inside the search loop is built from the position value of the board being searched. The source builds it from the board object, whose fields are the same.
- AIPlayer.AI.ScoreMove: has no branch for the source's "Invalid winner" error. `MoveFacts.WinnerIsSide` proves that branch unreachable.

## Findings

| source | as written | input that shows it | evidently intended | confidence | as-written member | corrected member |
|---|---|---|---|---|---|---|
| Board.java:362-368 | `undoPosition` removes the grid of the position undone from the seen set in every case | a move that returns to a grid already on the undo stack, then `undo()`: the earlier snapshot stays on the stack, its grid leaves the seen set, and reaching that grid again is not flagged as a repetition | the comment above it keeps the grid when the position is a repeated one, so the seen set stays the set of grids on the undo stack | high; not executed | MoveFacts.UndoForgetsEarlierGrid | Rules.UndoKeepingSeen |

`Tablut.Board.UndoPosition` follows the code as written, so it is proved equal to `Rules.UndoState`. The corrected `Rules.UndoKeepingSeen` and its two lemmas sit beside it.
