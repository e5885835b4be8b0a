/**
 * Piece encoding and piece state (src/chess_piece.py).
 *
 * A board cell and a piece's type are one byte: bit 0x40 is the colour
 * (clear for White, set for Black) and the low six bits hold exactly one
 * kind bit.  EMPTY is 0, so it shares its colour bits with WHITE.
 */
module Pieces {
  import opened Wrappers

  type PieceType = bv8

  const WHITE: PieceType := 0x00
  const BLACK: PieceType := 0x40

  const KING: PieceType := 0x20
  const QUEEN: PieceType := 0x10
  const ROOK: PieceType := 0x08
  const BISHOP: PieceType := 0x04
  const KNIGHT: PieceType := 0x02
  const PAWN: PieceType := 0x01
  const EMPTY: PieceType := 0x00

  const COLOR_MASK: PieceType := 0x40
  const PIECE_MASK: PieceType := 0x3F

  const WHITE_KING: PieceType := WHITE | KING
  const WHITE_QUEEN: PieceType := WHITE | QUEEN
  const WHITE_ROOK: PieceType := WHITE | ROOK
  const WHITE_BISHOP: PieceType := WHITE | BISHOP
  const WHITE_KNIGHT: PieceType := WHITE | KNIGHT
  const WHITE_PAWN: PieceType := WHITE | PAWN

  const BLACK_KING: PieceType := BLACK | KING
  const BLACK_QUEEN: PieceType := BLACK | QUEEN
  const BLACK_ROOK: PieceType := BLACK | ROOK
  const BLACK_BISHOP: PieceType := BLACK | BISHOP
  const BLACK_KNIGHT: PieceType := BLACK | KNIGHT
  const BLACK_PAWN: PieceType := BLACK | PAWN

  predicate IsColor(c: PieceType) {
    c == WHITE || c == BLACK
  }

  predicate IsKind(k: PieceType) {
    k == PAWN || k == KNIGHT || k == BISHOP || k == ROOK || k == QUEEN || k == KING
  }

  /** One of the twelve values WHITE_PAWN .. BLACK_KING. */
  predicate IsPieceValue(p: PieceType) {
    p & 0x80 == 0 && IsKind(p & PIECE_MASK)
  }

  function GetPieceColor(p: PieceType): (c: PieceType)
    ensures IsColor(c)
    ensures c & PIECE_MASK == 0
  {
    p & COLOR_MASK
  }

  function GetPieceKind(p: PieceType): (k: PieceType)
    ensures k & COLOR_MASK == 0
    ensures IsPieceValue(p) ==> GetPieceColor(p) | k == p
  {
    p & PIECE_MASK
  }

  /** Packing a colour and a kind and unpacking them again is the identity. */
  lemma EncodingRoundTrip(c: PieceType, k: PieceType)
    requires IsColor(c) && IsKind(k)
    ensures GetPieceColor(c | k) == c
    ensures GetPieceKind(c | k) == k
    ensures IsPieceValue(c | k)
    ensures COLOR_MASK & PIECE_MASK == 0
  {
  }

  predicate IsWhitePiece(p: PieceType) {
    p != EMPTY && p & COLOR_MASK == WHITE
  }

  predicate IsBlackPiece(p: PieceType) {
    p != EMPTY && p & COLOR_MASK == BLACK
  }

  predicate IsEmpty(p: PieceType) {
    p == EMPTY
  }

  /** Compares colour bits only: EMPTY counts as a White piece here. */
  predicate IsMyPiece(p: PieceType, turn: PieceType) {
    GetPieceColor(p) == turn
  }

  predicate IsOpponentPiece(p: PieceType, turn: PieceType) {
    GetPieceColor(p) != turn
  }

  lemma ColorPredicates(p: PieceType, turn: PieceType)
    ensures !IsWhitePiece(EMPTY) && !IsBlackPiece(EMPTY)
    ensures IsPieceValue(p) ==> (IsWhitePiece(p) <==> !IsBlackPiece(p))
    ensures IsEmpty(p) <==> p == 0
    ensures IsOpponentPiece(p, turn) == !IsMyPiece(p, turn)
    ensures IsMyPiece(EMPTY, WHITE) && IsOpponentPiece(EMPTY, BLACK)
  {
  }

  /** The six-character kind label of the enum's __str__. */
  function KindName(k: PieceType): string {
    if k == PAWN then "pawn  "
    else if k == KNIGHT then "knight"
    else if k == BISHOP then "bishop"
    else if k == ROOK then "rook  "
    else if k == QUEEN then "queen "
    else if k == KING then "king  "
    else ""
  }

  /** The enum's __str__: a colour prefix and a kind label, or the EMPTY label. */
  function PieceTypeName(p: PieceType): (s: string)
    ensures p == EMPTY ==> s == "Empty       "
    ensures p != EMPTY ==> |s| >= 6 && s[..6] == (if GetPieceColor(p) == WHITE then "White-" else "Black-")
    ensures |s| == 12 <==> p == EMPTY || IsKind(GetPieceKind(p))
    ensures |s| == 12 || |s| == 6
  {
    if p == EMPTY then "Empty       "
    else (if p & COLOR_MASK == WHITE then "White-" else "Black-") + KindName(p & PIECE_MASK)
  }

  /** Different kinds get different labels. */
  lemma KindNameInjective(a: PieceType, b: PieceType)
    requires IsKind(a) && IsKind(b) && KindName(a) == KindName(b)
    ensures a == b
  {
  }

  /** The label of a piece value, or of EMPTY, identifies it. */
  lemma PieceTypeNameInjective(a: PieceType, b: PieceType)
    requires a == EMPTY || IsPieceValue(a)
    requires b == EMPTY || IsPieceValue(b)
    requires PieceTypeName(a) == PieceTypeName(b)
    ensures a == b
  {
  }

  /** The type a pawn takes on promotion to `piecetype`; other kinds keep theirs. */
  function PromotedType(pt: PieceType, piecetype: PieceType): (r: PieceType)
    ensures GetPieceKind(pt) != PAWN ==> r == pt
    ensures GetPieceKind(pt) == PAWN && IsKind(piecetype) ==>
      GetPieceColor(r) == GetPieceColor(pt) && GetPieceKind(r) == piecetype
  {
    if GetPieceKind(pt) != PAWN then pt else GetPieceColor(pt) | piecetype
  }

  /** Upper-left corner, in pixels, of the square (rank, file) when the board is not reversed. */
  function PosFromSquare(rank: int, file: int): (p: (int, int))
    ensures p.0 % 100 == 0 && p.1 % 100 == 0
    ensures 0 <= rank < 8 && 0 <= file < 8 ==> 0 <= p.0 <= 700 && 0 <= p.1 <= 700
    ensures p.1 == 0 <==> rank == 7
  {
    (file * 100, (7 - rank) * 100)
  }

  datatype MoveType = Basic | Promotion | CastlingK | CastlingQ | EnPassant {
    /** The enum's integer value. */
    function Value(): (v: int)
      ensures 0 <= v <= 4
      ensures v == 0 <==> this == Basic
    {
      match this
      case Basic => 0
      case Promotion => 1
      case CastlingK => 2
      case CastlingQ => 3
      case EnPassant => 4
    }
  }

  lemma MoveTypeValuesDistinct(a: MoveType, b: MoveType)
    ensures a.Value() == b.Value() <==> a == b
  {
  }

  /** A piece of the game: a mutable record of square, type and moved-flag. */
  class ChessPiece {
    var rank: int
    var file: int
    var pieceType: PieceType
    var moved: bool
    /** Qt's visibility flag: the board hides a captured piece. */
    var visible: bool

    constructor (rank: int, file: int, pieceType: PieceType)
      ensures this.rank == rank && this.file == file && this.pieceType == pieceType
      ensures !moved && visible
    {
      this.rank := rank;
      this.file := file;
      this.pieceType := pieceType;
      moved := false;
      visible := true;
    }

    function Square(): (int, int)
      reads this
    {
      (rank, file)
    }

    function PieceColor(): (c: PieceType)
      reads this
      ensures IsColor(c)
    {
      GetPieceColor(pieceType)
    }

    function PieceKind(): (k: PieceType)
      reads this
      ensures k & COLOR_MASK == 0
      ensures IsPieceValue(pieceType) ==> IsKind(k) && PieceColor() | k == pieceType
    {
      GetPieceKind(pieceType)
    }

    method SetPieceType(piecetype: PieceType)
      modifies this
      ensures pieceType == piecetype
      ensures rank == old(rank) && file == old(file) && moved == old(moved) && visible == old(visible)
    {
      pieceType := piecetype;
    }

    method SetSquare(rank: int, file: int)
      modifies this
      ensures this.rank == rank && this.file == file
      ensures pieceType == old(pieceType) && moved == old(moved) && visible == old(visible)
    {
      this.rank := rank;
      this.file := file;
    }

    method SetMoved()
      modifies this
      ensures moved
      ensures rank == old(rank) && file == old(file) && pieceType == old(pieceType) && visible == old(visible)
    {
      moved := true;
    }

    method UnsetMoved()
      modifies this
      ensures !moved
      ensures rank == old(rank) && file == old(file) && pieceType == old(pieceType) && visible == old(visible)
    {
      moved := false;
    }

    method SetVisible(v: bool)
      modifies this
      ensures visible == v
      ensures rank == old(rank) && file == old(file) && pieceType == old(pieceType) && moved == old(moved)
    {
      visible := v;
    }

    method Promote(piecetype: PieceType)
      modifies this
      ensures pieceType == PromotedType(old(pieceType), piecetype)
      ensures old(PieceKind()) != PAWN ==> pieceType == old(pieceType)
      ensures old(PieceKind()) == PAWN ==> pieceType == old(PieceColor()) | piecetype
      ensures rank == old(rank) && file == old(file) && moved == old(moved) && visible == old(visible)
    {
      if PieceKind() != PAWN {
        return;
      }
      SetPieceType(PieceColor() | piecetype);
    }
  }

  /** An immutable description of one move. */
  datatype PieceMove = PieceMove(
    pieceToMove: ChessPiece,
    pieceInCapture: ChessPiece?,
    pieceAux: ChessPiece?,
    moveType: MoveType,
    oldSquare: (int, int),
    newSquare: (int, int),
    auxSquare: Option<seq<(int, int)>>)

  /** The move built from a piece alone, every other argument left at its default. */
  function DefaultMove(piece: ChessPiece): (m: PieceMove)
    ensures m.pieceToMove == piece && m.moveType == Basic
    ensures m.pieceInCapture == null && m.pieceAux == null
    ensures m.oldSquare == (-1, -1) && m.newSquare == (-1, -1)
    ensures m.auxSquare == None
  {
    PieceMove(piece, null, null, Basic, (-1, -1), (-1, -1), None)
  }
}
