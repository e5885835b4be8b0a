/**
 * The board of src/chess_board.py: the grid of piece types, the 32 pieces,
 * whose turn it is and which piece has the focus, and the two click
 * handlers that move pieces.
 */
module Board {
  import opened Wrappers
  import opened Pieces
  import opened Moves

  /**
   * __get_square_from_pos: a click on a grid line maps to (-1, -1); any
   * other pixel to the square it lies in, rank 7 at the top.  Python's //
   * and % agree with Dafny's / and % for the positive divisor 100.
   */
  function SquareFromPos(x: int, y: int): (s: Square)
    ensures x % 100 == 0 || y % 100 == 0 ==> s == (-1, -1)
    ensures 0 < x < 800 && 0 < y < 800 && x % 100 != 0 && y % 100 != 0 ==>
      OnBoard(s) && PosFromSquare(s.0, s.1).0 < x < PosFromSquare(s.0, s.1).0 + 100
                 && PosFromSquare(s.0, s.1).1 < y < PosFromSquare(s.0, s.1).1 + 100
  {
    if x % 100 == 0 || y % 100 == 0 then (-1, -1)
    else (7 - y / 100, x / 100)
  }

  /** A click strictly inside a square's pixel cell selects that square. */
  lemma SquareFromPosRoundTrip(rank: int, file: int, dx: int, dy: int)
    requires OnBoard((rank, file)) && 0 < dx < 100 && 0 < dy < 100
    ensures SquareFromPos(PosFromSquare(rank, file).0 + dx, PosFromSquare(rank, file).1 + dy) == (rank, file)
  {
    var x, y := file * 100 + dx, (7 - rank) * 100 + dy;
    assert x / 100 == file && x % 100 == dx;
    assert y / 100 == 7 - rank && y % 100 == dy;
  }

  /** __hand_player_turn. */
  function NextTurn(turn: PieceType): (r: PieceType)
    ensures IsColor(r)
    ensures IsColor(turn) ==> r != turn
  {
    if turn == WHITE then BLACK else WHITE
  }

  lemma NextTurnTwice(turn: PieceType)
    requires IsColor(turn)
    ensures NextTurn(NextTurn(turn)) == turn
  {
  }

  const WhiteBackRow: seq<PieceType> :=
    [WHITE_ROOK, WHITE_KNIGHT, WHITE_BISHOP, WHITE_QUEEN, WHITE_KING, WHITE_BISHOP, WHITE_KNIGHT, WHITE_ROOK]
  const BlackBackRow: seq<PieceType> :=
    [BLACK_ROOK, BLACK_KNIGHT, BLACK_BISHOP, BLACK_QUEEN, BLACK_KING, BLACK_BISHOP, BLACK_KNIGHT, BLACK_ROOK]
  const EmptyRow: seq<PieceType> := [EMPTY, EMPTY, EMPTY, EMPTY, EMPTY, EMPTY, EMPTY, EMPTY]

  /** board_status as __init_chess_board sets it. */
  const InitialGrid: Grid := [
    WhiteBackRow,
    [WHITE_PAWN, WHITE_PAWN, WHITE_PAWN, WHITE_PAWN, WHITE_PAWN, WHITE_PAWN, WHITE_PAWN, WHITE_PAWN],
    EmptyRow, EmptyRow, EmptyRow, EmptyRow,
    [BLACK_PAWN, BLACK_PAWN, BLACK_PAWN, BLACK_PAWN, BLACK_PAWN, BLACK_PAWN, BLACK_PAWN, BLACK_PAWN],
    BlackBackRow
  ]

  /** The start position mirrors across the middle: same kind, other colour. */
  lemma InitialGridMirrored(s: Square)
    requires OnBoard(s)
    ensures var p, q := Cell(InitialGrid, s), Cell(InitialGrid, (7 - s.0, s.1));
      GetPieceKind(p) == GetPieceKind(q) && (p != EMPTY <==> q != EMPTY)
      && (p != EMPTY ==> GetPieceColor(p) != GetPieceColor(q))
  {
    BackRowValues();
    var r, f := s.0, s.1;
    if r == 0 || r == 7 {
      assert InitialGrid[0] == WhiteBackRow && InitialGrid[7] == BlackBackRow;
    } else if r == 1 || r == 6 {
      assert InitialGrid[1][f] == WHITE_PAWN && InitialGrid[6][f] == BLACK_PAWN;
    } else {
      assert InitialGrid[r] == EmptyRow && InitialGrid[7 - r] == EmptyRow;
    }
  }

  /** What the model keeps of a ChessPiece: its square, type, moved-flag and visibility. */
  datatype PieceState = PieceState(rank: int, file: int, pieceType: PieceType, moved: bool, visible: bool) {
    function Square(): Square {
      (rank, file)
    }
  }

  /** The rank a pawn of `color` starts on. */
  function PawnStartRank(color: PieceType): int {
    if color == WHITE then 1 else 6
  }

  /** A piece shown on the board: on its square of the grid, of a real piece type; an unmoved pawn on its start rank. */
  predicate Placed(g: Grid, p: PieceState)
    requires IsGrid(g)
  {
    && OnBoard(p.Square())
    && Cell(g, p.Square()) == p.pieceType
    && IsPieceValue(p.pieceType)
    && (GetPieceKind(p.pieceType) == PAWN && !p.moved ==> p.rank == PawnStartRank(GetPieceColor(p.pieceType)))
  }

  /**
   * The grid and the pieces agree: each visible piece stands on a cell
   * holding its type, no two visible pieces share a square, and every
   * occupied cell holds a visible piece.
   */
  ghost predicate Consistent(g: Grid, ps: seq<PieceState>) {
    && IsGrid(g)
    && (forall i :: 0 <= i < |ps| && ps[i].visible ==> Placed(g, ps[i]))
    && (forall i, j :: 0 <= i < |ps| && 0 <= j < |ps| && i != j && ps[i].visible && ps[j].visible ==>
          ps[i].Square() != ps[j].Square())
    && (forall s :: OnBoard(s) && Cell(g, s) != EMPTY ==>
          exists i :: 0 <= i < |ps| && ps[i].visible && ps[i].Square() == s)
  }

  /**
   * The pieces after __move_piece moves piece i to `to`: it is marked moved
   * and stands on `to`; a visible piece that stood there is hidden.
   */
  function AfterMove(ps: seq<PieceState>, i: int, to: Square): seq<PieceState>
    requires 0 <= i < |ps|
  {
    seq(|ps|, k requires 0 <= k < |ps| =>
      if k == i then ps[k].(rank := to.0, file := to.1, moved := true)
      else if ps[k].visible && ps[k].Square() == to then ps[k].(visible := false)
      else ps[k])
  }

  /** Moving a shown piece to any square of the board keeps the grid and the pieces in agreement. */
  lemma MoveKeepsConsistent(g: Grid, ps: seq<PieceState>, i: int, to: Square)
    requires Consistent(g, ps) && 0 <= i < |ps| && ps[i].visible && OnBoard(to)
    ensures Consistent(MovedGrid(g, ps[i].Square(), to, ps[i].pieceType), AfterMove(ps, i, to))
  {
    var from := ps[i].Square();
    var g', ps' := MovedGrid(g, from, to, ps[i].pieceType), AfterMove(ps, i, to);
    assert |ps'| == |ps|;
    forall k | 0 <= k < |ps'| && ps'[k].visible
      ensures Placed(g', ps'[k])
    {
      if k != i {
        assert ps'[k] == ps[k] && ps[k].Square() != to;
        assert ps[k].Square() != from;
      }
    }
    forall s | OnBoard(s) && Cell(g', s) != EMPTY
      ensures exists k :: 0 <= k < |ps'| && ps'[k].visible && ps'[k].Square() == s
    {
      if s == to {
        assert ps'[i].visible && ps'[i].Square() == s;
      } else {
        assert s != from && Cell(g, s) != EMPTY;
        var k :| 0 <= k < |ps| && ps[k].visible && ps[k].Square() == s;
        assert ps'[k] == ps[k];
      }
    }
  }

  /** The back-rank pieces __init_chess_piece creates for one side, in its order, as created: unmoved and visible. */
  function BackStates(color: PieceType): seq<PieceState> {
    var r := if color == WHITE then 0 else 7;
    [PieceState(r, 4, color | KING, false, true), PieceState(r, 3, color | QUEEN, false, true),
     PieceState(r, 0, color | ROOK, false, true), PieceState(r, 7, color | ROOK, false, true),
     PieceState(r, 2, color | BISHOP, false, true), PieceState(r, 5, color | BISHOP, false, true),
     PieceState(r, 1, color | KNIGHT, false, true), PieceState(r, 6, color | KNIGHT, false, true)]
  }

  /** The pawns __init_chess_piece creates for one side, files a to h. */
  function PawnStates(color: PieceType): seq<PieceState> {
    var r := if color == WHITE then 1 else 6;
    seq(8, k => PieceState(r, k, color | PAWN, false, true))
  }

  /** All 32 pieces of the start position, White's first. */
  function InitialStates(): (ps: seq<PieceState>)
    ensures |ps| == 32
  {
    BackStates(WHITE) + PawnStates(WHITE) + BackStates(BLACK) + PawnStates(BLACK)
  }

  /** The position, in a side's back pieces, of the piece starting on each file. */
  const BackSlot: seq<int> := [2, 6, 4, 1, 0, 5, 7, 3]

  /** Where InitialStates puts the piece for square s of a back or pawn rank. */
  function PlacementIndex(s: Square): int {
    var side := if s.0 < 4 then 0 else 16;
    if s.0 == 0 || s.0 == 7 then side + BackSlot[if 0 <= s.1 < 8 then s.1 else 0]
    else side + 8 + s.1
  }

  lemma BackSlotFinds(color: PieceType)
    requires IsColor(color)
    ensures forall f :: 0 <= f < 8 ==> 0 <= BackSlot[f] < 8 && BackStates(color)[BackSlot[f]].file == f
  {
  }

  /** Reading a piece's square back through PlacementIndex gives its place in the list. */
  lemma PlacementIndexInverts(k: int)
    requires 0 <= k < 32
    ensures PlacementIndex(InitialStates()[k].Square()) == k
  {
    var ps := InitialStates();
    if k < 8 {
      assert ps[k] == BackStates(WHITE)[k];
    } else if k < 16 {
      assert ps[k] == PawnStates(WHITE)[k - 8];
    } else if k < 24 {
      assert ps[k] == BackStates(BLACK)[k - 16];
    } else {
      assert ps[k] == PawnStates(BLACK)[k - 24];
    }
  }

  /** Each piece of the start position sits on the start grid's cell holding its type. */
  lemma InitialPlaced(k: int)
    requires 0 <= k < 32
    ensures Placed(InitialGrid, InitialStates()[k])
  {
    if k < 8 || 16 <= k < 24 {
      BackPiecePlaced(k);
    } else {
      BackRowValues();
      var p := InitialStates()[k];
      if k < 16 {
        assert p == PawnStates(WHITE)[k - 8];
        assert p.rank == 1 && p.pieceType == WHITE_PAWN && p.file == k - 8;
      } else {
        assert p == PawnStates(BLACK)[k - 24];
        assert p.rank == 6 && p.pieceType == BLACK_PAWN && p.file == k - 24;
      }
    }
  }

  lemma BackPiecePlaced(k: int)
    requires 0 <= k < 8 || 16 <= k < 24
    ensures Placed(InitialGrid, InitialStates()[k])
  {
    BackRowValues();
    var p := InitialStates()[k];
    var white := k < 8;
    var base := if white then 0 else 16;
    var row := if white then WhiteBackRow else BlackBackRow;
    assert p == BackStates(if white then WHITE else BLACK)[k - base];
    assert p.rank == (if white then 0 else 7) && p.pieceType == row[p.file];
    assert InitialGrid[p.rank] == row;
  }

  /** The back rows hold piece values and no pawn; file by file, the two rows hold the same kind. */
  lemma BackRowValues()
    ensures forall f :: 0 <= f < 8 ==>
      && IsPieceValue(WhiteBackRow[f]) && GetPieceKind(WhiteBackRow[f]) != PAWN && GetPieceColor(WhiteBackRow[f]) == WHITE
      && IsPieceValue(BlackBackRow[f]) && GetPieceKind(BlackBackRow[f]) != PAWN && GetPieceColor(BlackBackRow[f]) == BLACK
      && GetPieceKind(WhiteBackRow[f]) == GetPieceKind(BlackBackRow[f])
    ensures IsPieceValue(WHITE_PAWN) && IsPieceValue(BLACK_PAWN)
    ensures GetPieceKind(WHITE_PAWN) == PAWN && GetPieceKind(BLACK_PAWN) == PAWN
    ensures GetPieceColor(WHITE_PAWN) == WHITE && GetPieceColor(BLACK_PAWN) == BLACK
  {
  }

  /** Every occupied cell of the start grid has its table entry. */
  lemma InitialCovered(s: Square)
    requires OnBoard(s) && Cell(InitialGrid, s) != EMPTY
    ensures var k := PlacementIndex(s); 0 <= k < 32 && InitialStates()[k].Square() == s
  {
    assert InitialGrid[2] == InitialGrid[3] == InitialGrid[4] == InitialGrid[5] == EmptyRow;
    if s.0 == 0 || s.0 == 7 {
      BackRowCovered(s);
    } else {
      var k := PlacementIndex(s);
      assert InitialStates()[k] == if s.0 == 1 then PawnStates(WHITE)[k - 8] else PawnStates(BLACK)[k - 24];
    }
  }

  lemma BackRowCovered(s: Square)
    requires OnBoard(s) && (s.0 == 0 || s.0 == 7)
    ensures var k := PlacementIndex(s); 0 <= k < 32 && InitialStates()[k].Square() == s
  {
    var color := if s.0 == 0 then WHITE else BLACK;
    var base := if s.0 == 0 then 0 else 16;
    BackSlotFinds(color);
    var k := PlacementIndex(s);
    assert k == base + BackSlot[s.1];
    assert InitialStates()[k] == BackStates(color)[k - base];
  }

  /** The start grid and the pieces created for it agree. */
  lemma InitialConsistent()
    ensures Consistent(InitialGrid, InitialStates())
  {
    var ps := InitialStates();
    forall k | 0 <= k < 32
      ensures Placed(InitialGrid, ps[k])
    {
      InitialPlaced(k);
    }
    forall i, j | 0 <= i < 32 && 0 <= j < 32 && i != j
      ensures ps[i].Square() != ps[j].Square()
    {
      PlacementIndexInverts(i);
      PlacementIndexInverts(j);
    }
    forall s | OnBoard(s) && Cell(InitialGrid, s) != EMPTY
      ensures exists k :: 0 <= k < 32 && ps[k].visible && ps[k].Square() == s
    {
      InitialCovered(s);
      var k := PlacementIndex(s);
      assert ps[k].visible && ps[k].Square() == s;
    }
  }

  function StateOf(p: ChessPiece): PieceState
    reads p
  {
    PieceState(p.rank, p.file, p.pieceType, p.moved, p.visible)
  }

  /** The states of a sequence of pieces, in its order. */
  function StatesOf(ps: seq<ChessPiece>): (r: seq<PieceState>)
    reads ps
    ensures |r| == |ps|
    ensures forall k :: 0 <= k < |ps| ==> r[k] == StateOf(ps[k])
  {
    seq(|ps|, k requires 0 <= k < |ps| reads ps => StateOf(ps[k]))
  }

  /** Where a piece item sits in the board's list of pieces. */
  function IndexOf(ps: seq<ChessPiece>, p: ChessPiece): (i: int)
    requires p in ps
    ensures 0 <= i < |ps| && ps[i] == p
  {
    if ps[0] == p then 0 else 1 + IndexOf(ps[1..], p)
  }

  /** No other entry equals a shown piece's state: it would stand on the same square. */
  lemma VisibleStateOnce(g: Grid, ps: seq<PieceState>, i: int, k: int)
    requires Consistent(g, ps) && 0 <= i < |ps| && 0 <= k < |ps| && k != i && ps[i].visible
    ensures ps[k] != ps[i]
  {
    if ps[k].visible {
      assert ps[k].Square() != ps[i].Square();
    }
  }

  /** A shown piece occurs once in the list: two entries holding the same item would share a square. */
  lemma VisiblePieceOnce(g: Grid, pieces: seq<ChessPiece>, i: int, k: int)
    requires Consistent(g, StatesOf(pieces)) && 0 <= i < |pieces| && pieces[i].visible
    requires 0 <= k < |pieces| && k != i
    ensures pieces[k] != pieces[i]
  {
    VisibleStateOnce(g, StatesOf(pieces), i, k);
  }

  /**
   * The ChessBoard object: the grid mirrors the 32 pieces, and while a piece
   * of the side to move has the focus, availSquares holds its candidates.
   */
  class ChessBoard {
    var boardStatus: Grid
    var turn: PieceType
    var isInFocus: bool
    var pieceInFocus: ChessPiece?
    var availSquares: seq<Square>
    /** The items of __init_chess_piece, in its order. */
    const pieces: seq<ChessPiece>

    ghost predicate Valid()
      reads this, pieces
    {
      && |pieces| == 32
      && IsColor(turn)
      && Consistent(boardStatus, StatesOf(pieces))
      && (isInFocus ==>
            && pieceInFocus != null && pieceInFocus in pieces && pieceInFocus.visible
            && GetPieceColor(pieceInFocus.pieceType) == turn
            && CandidatesDefined(boardStatus, pieceInFocus.pieceType, pieceInFocus.moved, pieceInFocus.rank, pieceInFocus.file)
            && availSquares == Candidates(boardStatus, pieceInFocus.pieceType, pieceInFocus.moved, pieceInFocus.rank, pieceInFocus.file))
      && (!isInFocus ==> pieceInFocus == null)
    }

    /**
     * __get_squares_on_path: the ray walk in a sliding direction, the leap
     * targets for Knight, nothing for Pawn.  The source's eight copies of
     * the walk differ only in the direction, which RayPoint supplies; their
     * one-sided bound checks amount to OnBoard for a walk from a square of
     * the board.
     */
    method SquaresOnPath(dir: MoveDir, color: PieceType, rank: int, file: int, maxdist: int)
      returns (squares: seq<Square>)
      requires IsGrid(boardStatus) && OnBoard((rank, file))
      ensures squares == PathSquares(boardStatus, dir, color, rank, file, maxdist)
    {
      squares := [];
      if dir == Knight {
        for i := 0 to 8
          invariant squares == KnightSquaresUpTo(boardStatus, color, rank, file, i)
        {
          var leap := KnightLeaps[i];
          var currRank, currFile := rank + leap.0, file + leap.1;
          if 0 <= currRank && currRank < 8 && 0 <= currFile && currFile < 8 {
            var pieceOnSquare := boardStatus[currRank][currFile];
            if pieceOnSquare == EMPTY || pieceOnSquare & COLOR_MASK != color {
              squares := squares + [(currRank, currFile)];
            }
          }
        }
      } else if dir != Pawn {
        var dist := 1;
        var curr := RayPoint(dir, rank, file, 1);
        while OnBoard(curr) && dist <= maxdist
          invariant curr == RayPoint(dir, rank, file, dist)
          invariant squares + Walk(boardStatus, dir, color, curr, dist, maxdist)
                 == RaySquares(boardStatus, dir, color, rank, file, maxdist)
          decreases maxdist - dist
        {
          var pieceOnSquare := boardStatus[curr.0][curr.1];
          ghost var rest := Walk(boardStatus, dir, color, RayPoint(dir, curr.0, curr.1, 1), dist + 1, maxdist);
          if pieceOnSquare == EMPTY {
            ConcatAssoc(squares, [curr], rest);
            squares := squares + [curr];
            RayPointStep(dir, rank, file, dist);
            curr := RayPoint(dir, curr.0, curr.1, 1);
            dist := dist + 1;
          } else if pieceOnSquare & COLOR_MASK != color {
            squares := squares + [curr];
            break;
          } else {
            break;
          }
        }
      }
    }

    /** __get_squares_pawn. */
    method SquaresPawn(color: PieceType, isAlreadyMoved: bool, rank: int, file: int) returns (squares: seq<Square>)
      requires IsGrid(boardStatus) && OnBoard((rank, file)) && PawnIndexSafe(boardStatus, color, isAlreadyMoved, rank, file)
      ensures squares == PawnSquares(boardStatus, color, isAlreadyMoved, rank, file)
    {
      squares := [];
      if color == WHITE || color == BLACK {
        var fw := if color == WHITE then 1 else -1;
        var enemy := if color == WHITE then BLACK else WHITE;
        ghost var pushes := PawnPushes(boardStatus, color, isAlreadyMoved, rank, file);
        if boardStatus[rank + fw][file] == EMPTY {
          squares := squares + [(rank + fw, file)];
          assert squares == [(rank + fw, file)];
          if !isAlreadyMoved {
            if boardStatus[rank + 2 * fw][file] == EMPTY {
              squares := squares + [(rank + 2 * fw, file)];
            }
          }
        }
        assert squares == pushes;
        ghost var left := PawnCapture(boardStatus, color, rank, file, -1);
        if file > 0 {
          if IsOccupiedBy(boardStatus[rank + fw][file - 1], enemy) {
            squares := squares + [(rank + fw, file - 1)];
          }
        }
        assert squares == pushes + left;
        ghost var right := PawnCapture(boardStatus, color, rank, file, 1);
        if file < 7 {
          if IsOccupiedBy(boardStatus[rank + fw][file + 1], enemy) {
            squares := squares + [(rank + fw, file + 1)];
          }
        }
        assert squares == pushes + left + right;
      }
    }

    /** __free_focus. */
    method FreeFocus()
      modifies this
      ensures !isInFocus && pieceInFocus == null
      ensures boardStatus == old(boardStatus) && turn == old(turn) && availSquares == old(availSquares)
      ensures StatesOf(pieces) == old(StatesOf(pieces))
    {
      isInFocus := false;
      pieceInFocus := null;
    }

    /** __hand_player_turn. */
    method HandPlayerTurn()
      modifies this
      ensures turn == NextTurn(old(turn))
      ensures boardStatus == old(boardStatus) && isInFocus == old(isInFocus)
      ensures pieceInFocus == old(pieceInFocus) && availSquares == old(availSquares)
      ensures StatesOf(pieces) == old(StatesOf(pieces))
    {
      turn := if turn == WHITE then BLACK else WHITE;
    }

    /**
     * __get_available_squares: None where the source stops the program
     * because the piece's type disagrees with its cell; otherwise the
     * candidate squares (no legality filter is applied).
     */
    method AvailableSquares(piece: ChessPiece) returns (r: Option<seq<Square>>)
      requires IsGrid(boardStatus) && OnBoard(piece.Square())
      requires piece.pieceType == Cell(boardStatus, piece.Square()) ==>
        CandidatesDefined(boardStatus, piece.pieceType, piece.moved, piece.rank, piece.file)
      ensures r.None? <==> piece.pieceType != Cell(boardStatus, piece.Square())
      ensures r.Some? ==> r.value == Candidates(boardStatus, piece.pieceType, piece.moved, piece.rank, piece.file)
    {
      var pieceType := piece.pieceType;
      var isAlreadyMoved := piece.moved;
      var rank, file := piece.rank, piece.file;
      if pieceType != boardStatus[rank][file] {
        return None;
      }
      var candidates := CandidateSquares(pieceType, isAlreadyMoved, rank, file);
      return Some(candidates);
    }

    /** __set_focus_on_piece, for a piece that agrees with its cell. */
    method SetFocusOnPiece(piece: ChessPiece)
      requires IsGrid(boardStatus) && OnBoard(piece.Square()) && piece.pieceType == Cell(boardStatus, piece.Square())
      requires CandidatesDefined(boardStatus, piece.pieceType, piece.moved, piece.rank, piece.file)
      modifies this
      ensures boardStatus == old(boardStatus) && turn == old(turn) && StatesOf(pieces) == old(StatesOf(pieces))
      ensures isInFocus && pieceInFocus == piece
      ensures availSquares == Candidates(boardStatus, piece.pieceType, piece.moved, piece.rank, piece.file)
    {
      isInFocus := true;
      pieceInFocus := piece;
      var r := AvailableSquares(piece);
      availSquares := r.value;
    }

    /**
     * __move_piece without its animation: hide the captured piece, mark the
     * mover moved and put it on the new square, then clear the old cell and
     * write the mover's type into the new one.
     */
    method MovePiece(pieceToMove: ChessPiece, pieceToBeCaptured: ChessPiece?, newRank: int, newFile: int)
      requires IsGrid(boardStatus) && OnBoard(pieceToMove.Square()) && OnBoard((newRank, newFile))
      modifies this, pieceToMove, pieceToBeCaptured
      ensures boardStatus == MovedGrid(old(boardStatus), old(pieceToMove.Square()), (newRank, newFile), old(pieceToMove.pieceType))
      ensures turn == old(turn) && isInFocus == old(isInFocus)
      ensures pieceInFocus == old(pieceInFocus) && availSquares == old(availSquares)
      ensures StateOf(pieceToMove) == old(StateOf(pieceToMove)).(rank := newRank, file := newFile, moved := true,
        visible := old(pieceToMove.visible) && pieceToBeCaptured != pieceToMove)
      ensures pieceToBeCaptured != null && pieceToBeCaptured != pieceToMove ==>
        StateOf(pieceToBeCaptured) == old(StateOf(pieceToBeCaptured)).(visible := false)
    {
      var oldRank, oldFile := pieceToMove.rank, pieceToMove.file;
      if pieceToBeCaptured != null {
        pieceToBeCaptured.SetVisible(false);
      }
      pieceToMove.SetMoved();
      pieceToMove.SetSquare(newRank, newFile);
      boardStatus := SetCell(boardStatus, (oldRank, oldFile), EMPTY);
      boardStatus := SetCell(boardStatus, (newRank, newFile), pieceToMove.pieceType);
    }

    /**
     * The move both click handlers make: __move_piece of the piece in focus
     * (capturing `pieceToBeCaptured`, a shown piece standing on the new
     * square, or none when that square is EMPTY), then __hand_player_turn.
     */
    method MoveFocusedPiece(pieceToBeCaptured: ChessPiece?, newRank: int, newFile: int)
      requires |pieces| == 32 && IsColor(turn) && Consistent(boardStatus, StatesOf(pieces))
      requires pieceInFocus != null && pieceInFocus in pieces && pieceInFocus.visible && OnBoard((newRank, newFile))
      requires pieceToBeCaptured == null ==> Cell(boardStatus, (newRank, newFile)) == EMPTY
      requires pieceToBeCaptured != null ==>
        && pieceToBeCaptured in pieces && pieceToBeCaptured.visible && pieceToBeCaptured != pieceInFocus
        && pieceToBeCaptured.Square() == (newRank, newFile)
      modifies this, pieceInFocus, pieceToBeCaptured
      ensures boardStatus == MovedGrid(old(boardStatus), old(pieceInFocus.Square()), (newRank, newFile), old(pieceInFocus.pieceType))
      ensures StatesOf(pieces) == AfterMove(old(StatesOf(pieces)), IndexOf(pieces, old(pieceInFocus)), (newRank, newFile))
      ensures Consistent(boardStatus, StatesOf(pieces))
      ensures turn == NextTurn(old(turn)) && isInFocus == old(isInFocus) && pieceInFocus == old(pieceInFocus)
      ensures availSquares == old(availSquares)
    {
      ghost var g, ps, i := boardStatus, StatesOf(pieces), IndexOf(pieces, pieceInFocus);
      ghost var j := if pieceToBeCaptured == null then i else IndexOf(pieces, pieceToBeCaptured);
      ghost var mover, to := pieceInFocus, (newRank, newFile);
      forall k | 0 <= k < |pieces| && k != i
        ensures pieces[k] != mover
      {
        VisiblePieceOnce(g, pieces, i, k);
      }
      forall k | 0 <= k < |pieces| && k != j && pieceToBeCaptured != null
        ensures pieces[k] != pieceToBeCaptured
      {
        VisiblePieceOnce(g, pieces, j, k);
      }
      forall k | 0 <= k < |ps| && k != j && ps[k].visible
        ensures ps[k].Square() != to
      {
        if pieceToBeCaptured == null {
          assert Placed(g, ps[k]);
        } else {
          assert ps[j].visible && ps[j].Square() == to;
        }
      }
      MovePiece(pieceInFocus, pieceToBeCaptured, newRank, newFile);
      forall k | 0 <= k < |pieces|
        ensures StateOf(pieces[k]) == AfterMove(ps, i, to)[k]
      {
        if k != i && (pieceToBeCaptured == null || k != j) {
          assert pieces[k] != mover && pieces[k] != pieceToBeCaptured;
        }
      }
      assert StatesOf(pieces) == AfterMove(ps, i, to);
      MoveKeepsConsistent(g, ps, i, to);
      HandPlayerTurn();
    }

    /**
     * boardClickHandler: with a piece in focus, a click on one of its
     * available squares that is EMPTY moves it there and hands the turn
     * over; a click anywhere else only frees the focus.
     */
    method BoardClickHandler(x: int, y: int)
      requires Valid()
      modifies this, pieceInFocus
      ensures Valid() && !isInFocus && availSquares == old(availSquares)
      ensures var s := SquareFromPos(x, y);
        if old(isInFocus) && s in old(availSquares) && OnBoard(s) && Cell(old(boardStatus), s) == EMPTY then
          && boardStatus == MovedGrid(old(boardStatus), old(pieceInFocus.Square()), s, old(pieceInFocus.pieceType))
          && turn == NextTurn(old(turn))
          && StatesOf(pieces) == AfterMove(old(StatesOf(pieces)), IndexOf(pieces, old(pieceInFocus)), s)
        else
          boardStatus == old(boardStatus) && turn == old(turn) && StatesOf(pieces) == old(StatesOf(pieces))
    {
      if isInFocus {
        var square := SquareFromPos(x, y);
        CandidatesSound(boardStatus, pieceInFocus.pieceType, pieceInFocus.moved, pieceInFocus.rank, pieceInFocus.file);
        if square in availSquares {
          var pieceOnSquare := boardStatus[square.0][square.1];
          if IsEmpty(pieceOnSquare) {
            MoveFocusedPiece(null, square.0, square.1);
          }
        }
      }
      FreeFocus();
    }

    /**
     * pieceClickHandler.  With a piece in focus, clicking a piece of the
     * other side captures it when its square is available and frees the
     * focus either way, and clicking a piece of the side to move shifts the
     * focus to it.  Without a focus, clicking a piece of the side to move
     * focuses it, after the sanity check that its cell holds its type
     * (which Valid() guarantees, so the source's exit is never reached).
     */
    method PieceClickHandler(piece: ChessPiece)
      requires Valid() && piece in pieces && piece.visible
      requires GetPieceColor(piece.pieceType) == turn ==>
        CandidatesDefined(boardStatus, piece.pieceType, piece.moved, piece.rank, piece.file)
      modifies this, pieceInFocus, piece
      ensures Valid()
      ensures old(isInFocus) && GetPieceColor(old(piece.pieceType)) != old(turn) ==>
        && !isInFocus
        && if old(piece.Square()) in old(availSquares) && OnBoard(old(piece.Square())) then
          && boardStatus == MovedGrid(old(boardStatus), old(pieceInFocus.Square()), old(piece.Square()), old(pieceInFocus.pieceType))
          && turn == NextTurn(old(turn))
          && StatesOf(pieces) == AfterMove(old(StatesOf(pieces)), IndexOf(pieces, old(pieceInFocus)), old(piece.Square()))
        else
          boardStatus == old(boardStatus) && turn == old(turn) && StatesOf(pieces) == old(StatesOf(pieces))
      ensures GetPieceColor(old(piece.pieceType)) == old(turn) ==>
        && isInFocus && pieceInFocus == piece
        && boardStatus == old(boardStatus) && turn == old(turn) && StatesOf(pieces) == old(StatesOf(pieces))
      ensures !old(isInFocus) && GetPieceColor(old(piece.pieceType)) != old(turn) ==>
        && !isInFocus
        && boardStatus == old(boardStatus) && turn == old(turn) && StatesOf(pieces) == old(StatesOf(pieces))
    {
      ghost var k := IndexOf(pieces, piece);
      assert Placed(boardStatus, StatesOf(pieces)[k]);
      if isInFocus {
        if IsOpponentPiece(piece.pieceType, turn) {
          var newSquare := piece.Square();
          if newSquare in availSquares {
            MoveFocusedPiece(piece, newSquare.0, newSquare.1);
          }
          FreeFocus();
        } else {
          SetFocusOnPiece(piece);
          var r := AvailableSquares(piece);
          availSquares := r.value;
        }
      } else if piece.PieceColor() == turn {
        var rank, file := piece.rank, piece.file;
        assert piece.pieceType == boardStatus[rank][file];
        SetFocusOnPiece(piece);
      }
    }

    /**
     * __get_candidate_squares.  The extends of the bishop, rook, queen and
     * king cases are the methods below, one per case.
     */
    method CandidateSquares(pieceType: PieceType, isAlreadyMoved: bool, rank: int, file: int)
      returns (squares: seq<Square>)
      requires CandidatesDefined(boardStatus, pieceType, isAlreadyMoved, rank, file)
      ensures squares == Candidates(boardStatus, pieceType, isAlreadyMoved, rank, file)
    {
      var color := pieceType & COLOR_MASK;
      var kind := pieceType & PIECE_MASK;
      CandidatesByKind(boardStatus, pieceType, isAlreadyMoved, rank, file);
      squares := [];
      if kind == PAWN {
        var s := SquaresPawn(color, isAlreadyMoved, rank, file);
        squares := squares + s;
      } else if kind == KNIGHT {
        var s := SquaresOnPath(Knight, color, rank, file, 2);
        squares := squares + s;
      } else if kind == BISHOP {
        var s := BishopCandidates(color, rank, file);
        squares := squares + s;
      } else if kind == ROOK {
        var s := RookCandidates(color, rank, file);
        squares := squares + s;
      } else if kind == QUEEN {
        var s := QueenCandidates(color, rank, file);
        squares := squares + s;
      } else if kind == KING {
        var s := KingCandidates(color, rank, file);
        squares := squares + s;
      }
    }

    /** The bishop case: the four diagonals, any distance. */
    method BishopCandidates(color: PieceType, rank: int, file: int) returns (squares: seq<Square>)
      requires IsGrid(boardStatus) && OnBoard((rank, file))
      ensures squares == BishopSquares(boardStatus, color, rank, file)
    {
      squares := [];
      var leftUp := SquaresOnPath(LeftUp, color, rank, file, 8);
      squares := squares + leftUp;
      var rightUp := SquaresOnPath(RightUp, color, rank, file, 8);
      squares := squares + rightUp;
      var leftDown := SquaresOnPath(LeftDown, color, rank, file, 8);
      squares := squares + leftDown;
      var rightDown := SquaresOnPath(RightDown, color, rank, file, 8);
      squares := squares + rightDown;
      // The first extend is onto []: stating that it is the identity keeps the proof cheap.
      assert [] + leftUp == leftUp;
    }

    /** The rook case: the four lines, any distance. */
    method RookCandidates(color: PieceType, rank: int, file: int) returns (squares: seq<Square>)
      requires IsGrid(boardStatus) && OnBoard((rank, file))
      ensures squares == RookSquares(boardStatus, color, rank, file)
    {
      squares := [];
      var up := SquaresOnPath(Up, color, rank, file, 8);
      squares := squares + up;
      var down := SquaresOnPath(Down, color, rank, file, 8);
      squares := squares + down;
      var left := SquaresOnPath(Left, color, rank, file, 8);
      squares := squares + left;
      var right := SquaresOnPath(Right, color, rank, file, 8);
      squares := squares + right;
      // The first extend is onto []: stating that it is the identity keeps the proof cheap.
      assert [] + up == up;
    }

    /** The queen case: the rook's four lines and the bishop's four diagonals, any distance. */
    method QueenCandidates(color: PieceType, rank: int, file: int) returns (squares: seq<Square>)
      requires IsGrid(boardStatus) && OnBoard((rank, file))
      ensures squares == QueenSquares(boardStatus, color, rank, file)
    {
      squares := [];
      var up := SquaresOnPath(Up, color, rank, file, 8);
      squares := squares + up;
      var down := SquaresOnPath(Down, color, rank, file, 8);
      squares := squares + down;
      var left := SquaresOnPath(Left, color, rank, file, 8);
      squares := squares + left;
      var right := SquaresOnPath(Right, color, rank, file, 8);
      squares := squares + right;
      var leftUp := SquaresOnPath(LeftUp, color, rank, file, 8);
      squares := squares + leftUp;
      var rightUp := SquaresOnPath(RightUp, color, rank, file, 8);
      squares := squares + rightUp;
      var leftDown := SquaresOnPath(LeftDown, color, rank, file, 8);
      squares := squares + leftDown;
      var rightDown := SquaresOnPath(RightDown, color, rank, file, 8);
      squares := squares + rightDown;
      // The first extend is onto []: stating that it is the identity keeps the proof cheap.
      assert [] + up == up;
    }

    /** The king case: all eight directions, one square; castling is not implemented. */
    method KingCandidates(color: PieceType, rank: int, file: int) returns (squares: seq<Square>)
      requires IsGrid(boardStatus) && OnBoard((rank, file))
      ensures squares == KingSquares(boardStatus, color, rank, file)
    {
      squares := [];
      var up := SquaresOnPath(Up, color, rank, file, 1);
      squares := squares + up;
      var down := SquaresOnPath(Down, color, rank, file, 1);
      squares := squares + down;
      var left := SquaresOnPath(Left, color, rank, file, 1);
      squares := squares + left;
      var right := SquaresOnPath(Right, color, rank, file, 1);
      squares := squares + right;
      var leftUp := SquaresOnPath(LeftUp, color, rank, file, 1);
      squares := squares + leftUp;
      var rightUp := SquaresOnPath(RightUp, color, rank, file, 1);
      squares := squares + rightUp;
      var leftDown := SquaresOnPath(LeftDown, color, rank, file, 1);
      squares := squares + leftDown;
      var rightDown := SquaresOnPath(RightDown, color, rank, file, 1);
      squares := squares + rightDown;
    }

    /** __init_chess_piece followed by __init_chess_board. */
    constructor ()
      ensures Valid()
      ensures boardStatus == InitialGrid && turn == WHITE && !isInFocus
      ensures StatesOf(pieces) == InitialStates()
    {
      var whiteBack := NewBackPieces(WHITE);
      var whitePawns := NewPawns(WHITE);
      var blackBack := NewBackPieces(BLACK);
      var blackPawns := NewPawns(BLACK);
      pieces := whiteBack + whitePawns + blackBack + blackPawns;
      turn := WHITE;
      isInFocus := false;
      pieceInFocus := null;
      boardStatus := InitialGrid;
      availSquares := [];
      new;
      forall k | 0 <= k < 32
        ensures StateOf(pieces[k]) == InitialStates()[k]
      {
        if k < 8 {
          assert pieces[k] == whiteBack[k] && InitialStates()[k] == BackStates(WHITE)[k];
        } else if k < 16 {
          assert pieces[k] == whitePawns[k - 8] && InitialStates()[k] == PawnStates(WHITE)[k - 8];
        } else if k < 24 {
          assert pieces[k] == blackBack[k - 16] && InitialStates()[k] == BackStates(BLACK)[k - 16];
        } else {
          assert pieces[k] == blackPawns[k - 24] && InitialStates()[k] == PawnStates(BLACK)[k - 24];
        }
      }
      assert StatesOf(pieces) == InitialStates();
      InitialConsistent();
    }
  }

  /** The eight back-rank items __init_chess_piece creates for one side, in its order. */
  method NewBackPieces(color: PieceType) returns (ps: seq<ChessPiece>)
    requires IsColor(color)
    ensures fresh(set p | p in ps)
    ensures |ps| == 8 && forall k :: 0 <= k < 8 ==> StateOf(ps[k]) == BackStates(color)[k]
  {
    var r := if color == WHITE then 0 else 7;
    var king := new ChessPiece(r, 4, color | KING);
    var queen := new ChessPiece(r, 3, color | QUEEN);
    var rookA := new ChessPiece(r, 0, color | ROOK);
    var rookH := new ChessPiece(r, 7, color | ROOK);
    var bishopC := new ChessPiece(r, 2, color | BISHOP);
    var bishopF := new ChessPiece(r, 5, color | BISHOP);
    var knightB := new ChessPiece(r, 1, color | KNIGHT);
    var knightG := new ChessPiece(r, 6, color | KNIGHT);
    ps := [king, queen, rookA, rookH, bishopC, bishopF, knightB, knightG];
  }

  /** The eight pawns __init_chess_piece creates for one side, files a to h. */
  method NewPawns(color: PieceType) returns (ps: seq<ChessPiece>)
    requires IsColor(color)
    ensures fresh(set p | p in ps)
    ensures |ps| == 8 && forall k :: 0 <= k < 8 ==> StateOf(ps[k]) == PawnStates(color)[k]
  {
    var r := if color == WHITE then 1 else 6;
    var pawnA := new ChessPiece(r, 0, color | PAWN);
    var pawnB := new ChessPiece(r, 1, color | PAWN);
    var pawnC := new ChessPiece(r, 2, color | PAWN);
    var pawnD := new ChessPiece(r, 3, color | PAWN);
    var pawnE := new ChessPiece(r, 4, color | PAWN);
    var pawnF := new ChessPiece(r, 5, color | PAWN);
    var pawnG := new ChessPiece(r, 6, color | PAWN);
    var pawnH := new ChessPiece(r, 7, color | PAWN);
    ps := [pawnA, pawnB, pawnC, pawnD, pawnE, pawnF, pawnG, pawnH];
  }
}
