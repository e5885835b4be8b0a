# Chess board core in Dafny

This project models the rule logic of a small Qt chess game written in Python.
It has three modules.

- `Pieces` (`pieces.dfy`) models `src/chess_piece.py`.
  - `PieceType` is a byte: bit `0x40` is the colour and the low six bits hold one kind bit. `EMPTY` is 0, so it has White's colour bits.
  - The module has the colour and kind decoders, the colour predicates, the enum's `__str__` and `Promote`.
  - `ChessPiece` is a class with the source's square, type and moved-flag fields and their setters, plus a `visible` field for Qt's visibility flag. The Qt object name and resource with their setters are left out, as "## Left out" says. `PieceMove` is an immutable record.
- `Moves` (`moves.dfy`) holds the pseudo-legal move generator of `src/chess_board.py`, written as functions of the 8×8 grid `board_status`.
  - A ray walk that stops before an ally and stops after capturing an opponent.
  - The knight's table of eight leaps.
  - Pawn pushes and captures.
  - The dispatch by piece kind.
  - The grid after a move.
  - Lemmas state what these lists mean.
- `Board` (`board.dfy`) models the `ChessBoard` object.
  - It is a class with the grid, the turn, the focus, the available squares and the 32 piece objects.
  - It has the source's looping move-generation methods. Each is proved equal to the matching `Moves` function.
  - `__move_piece` and `__hand_player_turn`.
  - The two click handlers that make up the focus and turn state machine.
  - The initial position.
  - The class invariant `Valid()` says:
    - there are 32 pieces and the turn is WHITE or BLACK;
    - every visible piece stands on a cell holding its type, and that type is one of the twelve piece values;
    - a visible pawn that has not moved stands on its start rank;
    - no two visible pieces share a square;
    - every occupied cell holds a visible piece;
    - while a piece has the focus, it is visible, belongs to the side to move, and `availSquares` is its candidate list; without the focus, no piece is focused.
- `Clock` (`clock.dfy`) models the countdown of `src/chess_clock.py`.
  - Setting the timer, one tick, and the `M:SS` text shown on the display.
  - A parser proves that the text determines the time.

## Model

| member | source | states |
|---|---|---|
| Pieces.GetPieceColor | src/chess_piece.py:144-146 | the colour part of any byte is WHITE or BLACK and has no kind bits |
| Pieces.GetPieceKind | src/chess_piece.py:148-150 | the kind part has no colour bit; for a piece value, colour OR kind gives back the value |
| Pieces.EncodingRoundTrip | src/chess_piece.py:10-38 | for every colour c and kind k, decoding c\|k gives back c and k, c\|k is a piece value, and the two masks are disjoint |
| Pieces.IsWhitePiece | src/chess_piece.py:152-155 | a White piece is not EMPTY; ColorPredicates proves a piece value is White exactly when it is not Black |
| Pieces.IsBlackPiece | src/chess_piece.py:157-160 | a Black piece is not EMPTY; ColorPredicates proves a piece value is Black exactly when it is not White |
| Pieces.IsEmpty | src/chess_piece.py:162-164 | ColorPredicates proves it holds exactly for the byte 0 |
| Pieces.IsMyPiece | src/chess_piece.py:166-168 | compares colour bits only; ColorPredicates proves EMPTY counts as White's |
| Pieces.IsOpponentPiece | src/chess_piece.py:170-172 | ColorPredicates proves it is the negation of IsMyPiece |
| Pieces.PosFromSquare | src/chess_piece.py:174-177 | the corner lies on grid lines, within 0..700 on both axes for a square of the board, and at the top exactly for rank 7; SquareFromPosRoundTrip maps any point inside the cell back to the square |
| Pieces.ColorPredicates | src/chess_piece.py:152-172 | isWhite and isBlack are both false on EMPTY; exactly one holds for a piece value; isEmpty holds only for 0; isOpponent is the negation of isMy; EMPTY counts as one of White's pieces |
| Pieces.PieceTypeName | src/chess_piece.py:40-66 | EMPTY gives "Empty       "; any other byte gives its colour prefix "White-" or "Black-"; the text is 12 characters exactly when the kind bits name a kind, and 6 otherwise |
| Pieces.KindNameInjective | src/chess_piece.py:51-64 | two kinds with the same label are the same kind |
| Pieces.PieceTypeNameInjective | src/chess_piece.py:40-66 | the label of EMPTY or of a piece value determines it |
| Pieces.PromotedType | src/chess_piece.py:136-141 | a piece that is not a pawn keeps its type; a pawn gets its old colour with the requested kind |
| Pieces.MoveType.Value | src/chess_piece.py:214-219 | the enum values lie in 0..4, and 0 is BASIC |
| Pieces.MoveTypeValuesDistinct | src/chess_piece.py:214-219 | two move types have the same value exactly when they are equal |
| Pieces.ChessPiece.constructor | src/chess_piece.py:73-93 | a new piece has the given square and type, and is unmoved and shown |
| Pieces.ChessPiece.PieceColor | src/chess_piece.py:123-124 | a piece's colour is WHITE or BLACK |
| Pieces.ChessPiece.Square | src/chess_piece.py:120-121 | the getter of (rank, file), through which the board's contracts name a piece's square |
| Pieces.ChessPiece.PieceKind | src/chess_piece.py:126-127 | the kind part of the type has no colour bit; for a piece value it is a kind, and colour OR kind gives the type back |
| Pieces.ChessPiece.SetVisible | src/chess_board.py:633-634 | sets Qt's visibility flag and changes no other field |
| Pieces.ChessPiece.SetPieceType | src/chess_piece.py:99-100 | sets the type and changes no other field |
| Pieces.ChessPiece.SetSquare | src/chess_piece.py:102-105 | sets rank and file and changes no other field |
| Pieces.ChessPiece.SetMoved | src/chess_piece.py:107-108 | the moved flag becomes true and no other field changes |
| Pieces.ChessPiece.UnsetMoved | src/chess_piece.py:110-111 | the moved flag becomes false and no other field changes |
| Pieces.ChessPiece.Promote | src/chess_piece.py:136-141 | does nothing unless the piece is a pawn; a pawn's new type is its old colour OR the requested value; square and moved flag are kept |
| Pieces.DefaultMove | src/chess_piece.py:221-236 | a move made from a piece alone defaults to BASIC, with no captured or auxiliary piece, squares (-1, -1) and no auxiliary squares |
| Moves.Walk | src/chess_board.py:373-388 | one ray walk; WalkShape and RayShapeIsWalk prove it is the only list with the ray shape |
| Moves.RaySquares | src/chess_board.py:365-529 | the walk from one step out; RayCharacterized proves it includes nothing past the first occupied square, and RaySquaresSound that every square is reachable |
| Moves.KnightSquares | src/chess_board.py:531-545 | the leap table's targets; KnightExact proves them exactly the on-board leaps not held by an ally |
| Moves.PathSquares | src/chess_board.py:365-547 | the ray walk for a sliding direction, the knight's targets for Knight, nothing for Pawn; PathSquaresSound proves every square reachable |
| Moves.RaySquaresSound | src/chess_board.py:365-529 | the i-th square of a ray walk is i+1 steps along its direction, with i+1 at most maxdist, and is on the board, not the start and not an ally's square |
| Moves.WalkShape | src/chess_board.py:373-388 | the walk gives consecutive on-board squares of the ray; all are EMPTY but the last, which is EMPTY or an opponent's; a walk that does not end on an opponent's piece stops at the edge, at maxdist or before an ally |
| Moves.RayShapeIsWalk | src/chess_board.py:373-388 | any list with that shape is the walk itself, so the walk is the only such list |
| Moves.RayCharacterized | src/chess_board.py:365-529 | a list is the ray walk exactly when it has the ray shape: the walk includes nothing past the first occupied square |
| Moves.KnightSquaresUpToExact | src/chess_board.py:531-545 | a square is among the targets of the first n leaps exactly when it is one of those leaps, on the board and not held by an ally; there are at most n of them |
| Moves.KnightExact | src/chess_board.py:531-545 | the knight's squares are exactly the on-board leap targets that are EMPTY or of the other colour, at most eight |
| Moves.KnightCandidates | src/chess_board.py:306-308 | the knight's candidates do not depend on the distance bound |
| Moves.PawnPushes | src/chess_board.py:556-562 | one square forward is included exactly when it is EMPTY; two squares forward only for an unmoved pawn with both squares EMPTY |
| Moves.PawnCapture | src/chess_board.py:565-572 | a diagonal is included exactly when it is on the board and holds a piece of the other colour |
| Moves.PawnSquares | src/chess_board.py:549-600 | a pawn's squares are on the board and are one of its two pushes or two diagonals; a colour byte that is neither colour gives none |
| Moves.PawnSquaresExact | src/chess_board.py:553-598 | each of the four pawn squares is included exactly under its own condition, for White and mirrored for Black |
| Moves.PathSquaresSound | src/chess_board.py:365-547 | every square returned for any direction is reachable: on board, not the start, not an ally's |
| Moves.SlidingSquaresSound | src/chess_board.py:310-345 | the rook's, bishop's, queen's and king's squares are all reachable |
| Moves.PawnSquaresSound | src/chess_board.py:549-600 | the pawn's squares are all reachable |
| Moves.CandidatesSound | src/chess_board.py:294-349 | no candidate is off the board, the piece's own square or an ally's square |
| Moves.StepAdjacent | src/chess_board.py:335-343 | a walk cut at distance 1 holds only a square next to the start |
| Moves.KingSquaresAdjacent | src/chess_board.py:335-343 | every king square is at Chebyshev distance 1 |
| Moves.KingCandidatesAdjacent | src/chess_board.py:335-343 | every candidate of a king is at Chebyshev distance 1 from it |
| Moves.Candidates | src/chess_board.py:294-349 | the dispatch by kind; CandidatesSound proves no candidate is off the board, the own square or an ally's; KingCandidatesAdjacent keeps the king to adjacent squares; QueenIsRookPlusBishop and KnightCandidates fix the queen's and knight's lists |
| Moves.RookSquares | src/chess_board.py:317-322 | the four straight walks; SlidingSquaresSound proves them reachable, and QueenSquaresSplit makes them the first half of the queen's squares |
| Moves.BishopSquares | src/chess_board.py:310-315 | the four diagonal walks; SlidingSquaresSound proves them reachable, and QueenSquaresSplit makes them the second half of the queen's squares |
| Moves.QueenSquares | src/chess_board.py:324-333 | the eight walks; QueenSquaresSplit proves them the rook's followed by the bishop's |
| Moves.KingSquares | src/chess_board.py:335-343 | the eight walks cut at distance 1; KingSquaresAdjacent proves each at Chebyshev distance 1 |
| Moves.QueenSquaresSplit | src/chess_board.py:317-333 | the queen's eight walks are the rook's four followed by the bishop's four |
| Moves.QueenIsRookPlusBishop | src/chess_board.py:317-333 | a queen's candidates are a rook's candidates followed by a bishop's on the same square |
| Moves.SetCell | src/chess_board.py:639-640 | one cell is overwritten and every other cell keeps its content |
| Moves.MovedGrid | src/chess_board.py:636-640 | after a move the old cell is EMPTY, the new cell holds the mover's type, and every other cell is unchanged |
| Board.SquareFromPos | src/chess_board.py:351-363 | a pixel on a grid line maps to (-1, -1); a pixel inside the board maps to the on-board square whose pixel cell contains it |
| Board.SquareFromPosRoundTrip | src/chess_piece.py:174-177 | a point strictly inside the pixel cell of square (r, f) (getPosFromSquare plus an offset of 1..99) maps back to (r, f) |
| Board.NextTurn | src/chess_board.py:602-603 | the turn becomes a colour other than the one it was |
| Board.NextTurnTwice | src/chess_board.py:602-603 | handing the turn over twice gives back the same side |
| Board.InitialGridMirrored | src/chess_board.py:245-261 | the start position is symmetric: mirrored ranks hold the same kind in the other colour, and EMPTY opposite EMPTY |
| Board.InitialStates | src/chess_board.py:188-221 | 32 pieces are created |
| Board.BackRowValues | src/chess_board.py:245-261 | the back rows hold piece values of their colour and no pawn, with the same kind on each file |
| Board.PlacementIndexInverts | src/chess_board.py:188-221 | each created piece is found again from its square, so no two start on one square |
| Board.InitialPlaced | src/chess_board.py:188-261 | each created piece stands on a start-grid cell holding its type |
| Board.InitialCovered | src/chess_board.py:245-261 | every occupied cell of the start grid belongs to a created piece |
| Board.InitialConsistent | src/chess_board.py:188-261 | the start grid and the 32 created pieces agree, which is the consistency the sanity check of lines 278-284 expects |
| Board.Consistent | src/chess_board.py:278-284 | the agreement of grid and pieces that the sanity check expects; InitialConsistent proves it of the start position and MoveKeepsConsistent keeps it through every move |
| Board.AfterMove | src/chess_board.py:632-638 | the pieces after a move; MoveKeepsConsistent proves they still agree with the moved grid, and MoveFocusedPiece that the handlers produce them |
| Board.MoveKeepsConsistent | src/chess_board.py:632-640 | moving a shown piece to any square keeps the grid and the pieces in agreement |
| Board.VisiblePieceOnce | src/chess_board.py:632-640 | while the grid and the pieces agree, a shown piece occurs only once in the list |
| Board.ChessBoard.SquaresOnPath | src/chess_board.py:365-547 | the loops compute the ray walk or the knight's leap targets |
| Board.ChessBoard.SquaresPawn | src/chess_board.py:549-600 | the pawn code computes the pawn's pushes and captures |
| Board.ChessBoard.CandidateSquares | src/chess_board.py:294-349 | the dispatch computes the candidates of the given piece type |
| Board.ChessBoard.BishopCandidates | src/chess_board.py:310-315 | the four diagonal walks, in the source's order |
| Board.ChessBoard.RookCandidates | src/chess_board.py:317-322 | the four straight walks, in the source's order |
| Board.ChessBoard.QueenCandidates | src/chess_board.py:324-333 | the eight walks, in the source's order |
| Board.ChessBoard.KingCandidates | src/chess_board.py:335-343 | the eight walks cut at distance 1 |
| Board.ChessBoard.AvailableSquares | src/chess_board.py:272-292 | no result exactly when the piece's type disagrees with its cell (where the source stops the program); otherwise the piece's candidates |
| Board.ChessBoard.FreeFocus | src/chess_board.py:268-270 | the focus is cleared and nothing else changes |
| Board.ChessBoard.HandPlayerTurn | src/chess_board.py:602-603 | the turn is handed to the other side and nothing else changes |
| Board.ChessBoard.SetFocusOnPiece | src/chess_board.py:647-656 | the piece gets the focus and its candidates become the available squares; the grid, turn and pieces are unchanged |
| Board.ChessBoard.MovePiece | src/chess_board.py:605-640 | the grid becomes the moved grid; the mover is marked moved and stands on the new square; a captured piece is hidden; nothing else changes |
| Board.ChessBoard.MoveFocusedPiece | src/chess_board.py:112-115 | moving the focused piece and handing the turn over, as the board click does here and the capture in lines 146-151 does too: onto an EMPTY square or capturing a shown piece, it gives the moved grid and the moved piece list, keeps them consistent, and leaves the focus and the available squares as they were |
| Board.ChessBoard.BoardClickHandler | src/chess_board.py:78-127 | keeps the invariant, always clears the focus and never changes the available squares; it moves the focused piece and hands the turn over exactly when the clicked square is available and EMPTY, and otherwise leaves the grid, the turn and the pieces as they were |
| Board.ChessBoard.PieceClickHandler | src/chess_board.py:129-186 | keeps the invariant. With a focus, an opponent's piece is captured (move and turn change) exactly when its square is available, and the focus is cleared. A piece of the side to move gets the focus, with nothing else changed. Without a focus, an opponent's piece is ignored |
| Board.ChessBoard.constructor | src/chess_board.py:188-262 | the start grid, the 32 pieces as created, White to move with no focus, and the invariant holds |
| Board.NewBackPieces | src/chess_board.py:189-196 | eight new back-rank pieces of one side, in the source's order and squares |
| Board.NewPawns | src/chess_board.py:197-204 | eight new pawns of one side, files a to h |
| Clock.NatToString | src/chess_clock.py:62-63 | Python's str of a number not below zero is a non-empty string of digits, one digit exactly below 10 |
| Clock.ParseNatToString | src/chess_clock.py:62-63 | reading the digits back gives the number |
| Clock.ParseIntToString | src/chess_clock.py:62-63 | reading Python's str of any integer back gives it, minus sign included |
| Clock.SecondsDigits | src/chess_clock.py:61-63 | the seconds field is exactly two digits, zero-padded |
| Clock.ParseDisplayInverts | src/chess_clock.py:59-64 | reading the display text back gives the time it shows, for every time, negative ones included |
| Clock.DisplayShape | src/chess_clock.py:59-64 | for a time not below zero: the minutes in digits, a colon, and two digits of seconds whose value lies in 0..59 and equals the time modulo 60 |
| Clock.IntToString | src/chess_clock.py:62-63 | Python's str of an int; ParseIntToString proves it can be read back |
| Clock.Seconds | src/chess_clock.py:61-63 | the zero-padded seconds field; SecondsDigits proves it is two digits of the given value |
| Clock.Display | src/chess_clock.py:59-64 | the M:SS text; ParseDisplayInverts proves it determines the time, and DisplayShape gives its form |
| Clock.ChessClock.constructor | src/chess_clock.py:6-11 | the clock starts at 0 seconds |
| Clock.ChessClock.UpdateDisplay | src/chess_clock.py:59-64 | the display shows the M:SS text of the current time, which is unchanged |
| Clock.ChessClock.SetTimer | src/chess_clock.py:30-36 | a negative time is an error and changes nothing; otherwise the time is set and displayed |
| Clock.ChessClock.UpdateClock | src/chess_clock.py:53-57 | one tick lowers the time by exactly one and displays it; time-over is signalled exactly when the new time is 0 |

## Left out

- Qt presentation is not modelled: the scene, view, pixmaps, cursors, the object name and resource with `setObjectName` and `setResource`, `mousePressEvent` and signal wiring.
- The animation in `__move_piece` (src/chess_board.py:608-630) is not modelled. It is float interpolation for display only.
- Unimplemented stubs are not invented:
  - the `if False:` promotion, castling and en-passant branches, of which only the basic move is modelled;
  - the castling and en-passant TODOs;
  - the commented-out legality filter, so available squares are the pseudo-legal candidates;
  - `__reset_chess_board`;
  - `isCastlingAvailable`;
  - `__last_move`, which is set once and never read.
- Check, checkmate and stalemate do not exist in the code and are not modelled.
- Debug `print`s are left out.
- The `exit()` on an inconsistent board is left out.
  - In `AvailableSquares` it is the `None` result.
  - In the click handlers, `Valid()` rules it out, and the sanity check is an assertion that always holds.
- src/main_window.py, src/promotion.py and image/chess_image.py are not part of this model.
- Board.ChessBoard.PieceClickHandler: it requires that a piece of the side to move can have its candidates computed without leaving the grid.
  - This rules out a pawn on its last rank, or one whose double push would reach past the board.
  - The source raises IndexError for such a White pawn. For such a Black pawn, Python's negative indexing silently reads row 7.
  - Neither behaviour is modelled.
- Moves.PawnSquares: it has the same index-safety precondition (`PawnIndexSafe`), for the same reason.
- Board.ChessBoard.SquaresOnPath: the source's eight copies of the walk are one loop parametrised by direction.
  - Each copy checks only the bounds its direction can cross.
  - The loop checks the whole board, which is the same for a walk from a square of the board.
- Board.ChessBoard.SquaresPawn: the source's White and Black cases are one body, with the forward step and the enemy colour chosen by the colour.
- Per-kind helper methods group code the source writes inline:
  - Board.ChessBoard.BishopCandidates, RookCandidates, QueenCandidates and KingCandidates hold the extend calls of one case each;
  - Board.ChessBoard.MoveFocusedPiece is the move-then-hand-turn pair that both handlers run;
  - Board.NewBackPieces and Board.NewPawns build the 32 pieces of `__init_chess_piece`.
- Board.ChessBoard.PieceClickHandler: the source computes the available squares a second time after setting the focus on an ally piece. The model does the same, and the result is equal.
- A captured piece is hidden with Qt's `setVisible(False)`. The model keeps this as a `visible` field of ChessPiece, and the click handlers can be called only for shown pieces, as Qt delivers clicks only to them.
- Pieces.PosFromSquare: the source returns floats with integer values. The model returns the same values as integers.
- PieceMove accessors are the datatype's fields.
- Default arguments are not modelled: `ChessPiece.__init__` defaults to square (-1, -1) and EMPTY, and `setTimer` to 0. Every call site in the source passes all arguments explicitly.
- Clock: the QTimer (`startClock`, `pauseClock`, `resumeClock`) is not modelled. The `signalTimeOver` signal is the Boolean result of `UpdateClock`, and the `ValueError` is the Boolean result of `SetTimer`. The LCD is modelled as the text it was last given, empty at first.
- Clock.ChessClock.UpdateClock: the time goes on falling below zero after time-over, as in the source.
