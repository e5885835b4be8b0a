/**
 * Pseudo-legal move generation of the chess board (src/chess_board.py),
 * stated as functions of the 8x8 grid `board_status`.  The methods of
 * Board.ChessBoard compute the same lists with the source's loops and are
 * proved equal to these functions; the lemmas here say what the lists mean.
 */
module Moves {
  import opened Pieces

  /** (rank, file); rank 0 is White's back row, file 0 the a-file. */
  type Square = (int, int)

  /** board_status: eight rows (ranks) of eight cells (files). */
  type Grid = seq<seq<PieceType>>

  predicate IsGrid(g: Grid) {
    |g| == 8 && forall r :: 0 <= r < 8 ==> |g[r]| == 8
  }

  predicate OnBoard(s: Square) {
    0 <= s.0 < 8 && 0 <= s.1 < 8
  }

  function Cell(g: Grid, s: Square): PieceType
    requires IsGrid(g) && OnBoard(s)
  {
    g[s.0][s.1]
  }

  /** The cell holds a piece (it is not EMPTY) whose colour bits are `color`. */
  predicate IsOccupiedBy(p: PieceType, color: PieceType) {
    p != EMPTY && GetPieceColor(p) == color
  }

  /** The source's MoveDir: eight rays, the knight's leap table and the pawn. */
  datatype MoveDir = Up | Down | Left | Right | LeftUp | RightUp | LeftDown | RightDown | Knight | Pawn {
    predicate IsRay() {
      !Knight? && !Pawn?
    }
  }

  /** The square k steps from (rank, file) along the ray `dir`. */
  function RayPoint(dir: MoveDir, rank: int, file: int, k: int): Square
    requires dir.IsRay()
  {
    match dir
    case Up => (rank + k, file)
    case Down => (rank - k, file)
    case Left => (rank, file - k)
    case Right => (rank, file + k)
    case LeftUp => (rank + k, file - k)
    case RightUp => (rank + k, file + k)
    case LeftDown => (rank - k, file - k)
    case RightDown => (rank - k, file + k)
  }

  /**
   * The walk of __get_squares_on_path from square `s`, which lies `dist`
   * steps out: keep going over EMPTY squares, take an opponent's square and
   * stop, stop before an ally, the board's edge or distance maxdist + 1.
   */
  function Walk(g: Grid, dir: MoveDir, color: PieceType, s: Square, dist: int, maxdist: int): seq<Square>
    requires IsGrid(g) && dir.IsRay()
    decreases maxdist - dist
  {
    if !OnBoard(s) || dist > maxdist then []
    else if Cell(g, s) == EMPTY then [s] + Walk(g, dir, color, RayPoint(dir, s.0, s.1, 1), dist + 1, maxdist)
    else if GetPieceColor(Cell(g, s)) != color then [s]
    else []
  }

  function RaySquares(g: Grid, dir: MoveDir, color: PieceType, rank: int, file: int, maxdist: int): seq<Square>
    requires IsGrid(g) && dir.IsRay()
  {
    Walk(g, dir, color, RayPoint(dir, rank, file, 1), 1, maxdist)
  }

  /** The walk cannot go on to the square k steps out. */
  predicate Blocked(g: Grid, dir: MoveDir, color: PieceType, rank: int, file: int, k: int, maxdist: int)
    requires IsGrid(g) && dir.IsRay()
  {
    var s := RayPoint(dir, rank, file, k);
    !OnBoard(s) || k > maxdist || IsOccupiedBy(Cell(g, s), color)
  }

  /**
   * What a ray walk starting k steps out returns, said without the walk:
   * consecutive on-board squares of the ray at distances k, k+1, .. (none
   * past maxdist); all EMPTY but the last, which is EMPTY or an opponent's;
   * and, unless it ended on an opponent's piece, the next square is blocked.
   */
  ghost predicate RayShape(g: Grid, dir: MoveDir, color: PieceType, rank: int, file: int,
                           k: int, maxdist: int, w: seq<Square>)
    requires IsGrid(g) && dir.IsRay()
  {
    && (forall i :: 0 <= i < |w| ==> w[i] == RayPoint(dir, rank, file, k + i) && OnBoard(w[i]) && k + i <= maxdist)
    && (forall i :: 0 <= i < |w| - 1 ==> Cell(g, w[i]) == EMPTY)
    && (|w| > 0 ==> !IsOccupiedBy(Cell(g, w[|w| - 1]), color))
    && ((|w| == 0 || Cell(g, w[|w| - 1]) == EMPTY) ==> Blocked(g, dir, color, rank, file, k + |w|, maxdist))
  }

  lemma RayPointStep(dir: MoveDir, rank: int, file: int, k: int)
    requires dir.IsRay()
    ensures var s := RayPoint(dir, rank, file, k); RayPoint(dir, s.0, s.1, 1) == RayPoint(dir, rank, file, k + 1)
  {
  }

  /** One unfolding of a walk that moves on over an EMPTY square. */
  lemma WalkUnfold(g: Grid, dir: MoveDir, color: PieceType, rank: int, file: int, k: int, maxdist: int)
    requires IsGrid(g) && dir.IsRay()
    requires var s := RayPoint(dir, rank, file, k); OnBoard(s) && k <= maxdist && Cell(g, s) == EMPTY
    ensures Walk(g, dir, color, RayPoint(dir, rank, file, k), k, maxdist)
         == [RayPoint(dir, rank, file, k)] + Walk(g, dir, color, RayPoint(dir, rank, file, k + 1), k + 1, maxdist)
  {
    RayPointStep(dir, rank, file, k);
  }

  /** The i-th square of w is the ray's square k + i steps out, on the board and within maxdist. */
  predicate AlongRay(dir: MoveDir, rank: int, file: int, k: int, maxdist: int, w: seq<Square>)
    requires dir.IsRay()
  {
    forall i :: 0 <= i < |w| ==> w[i] == RayPoint(dir, rank, file, k + i) && OnBoard(w[i]) && k + i <= maxdist
  }

  /** Putting the ray's square k steps out in front of a list along the ray from k + 1 keeps it along the ray. */
  lemma AlongRayCons(dir: MoveDir, rank: int, file: int, k: int, maxdist: int, rest: seq<Square>)
    requires dir.IsRay() && OnBoard(RayPoint(dir, rank, file, k)) && k <= maxdist
    requires AlongRay(dir, rank, file, k + 1, maxdist, rest)
    ensures AlongRay(dir, rank, file, k, maxdist, [RayPoint(dir, rank, file, k)] + rest)
  {
    var w := [RayPoint(dir, rank, file, k)] + rest;
    forall i | 0 <= i < |w|
      ensures w[i] == RayPoint(dir, rank, file, k + i) && OnBoard(w[i]) && k + i <= maxdist
    {
      if i > 0 {
        assert w[i] == rest[i - 1];
      }
    }
  }

  lemma {:induction false} WalkAlong(g: Grid, dir: MoveDir, color: PieceType, rank: int, file: int, k: int, maxdist: int)
    requires IsGrid(g) && dir.IsRay()
    ensures AlongRay(dir, rank, file, k, maxdist, Walk(g, dir, color, RayPoint(dir, rank, file, k), k, maxdist))
    decreases maxdist - k
  {
    var s := RayPoint(dir, rank, file, k);
    if OnBoard(s) && k <= maxdist && Cell(g, s) == EMPTY {
      WalkUnfold(g, dir, color, rank, file, k, maxdist);
      WalkAlong(g, dir, color, rank, file, k + 1, maxdist);
      AlongRayCons(dir, rank, file, k, maxdist, Walk(g, dir, color, RayPoint(dir, rank, file, k + 1), k + 1, maxdist));
    } else if OnBoard(s) && k <= maxdist && GetPieceColor(Cell(g, s)) != color {
      assert Walk(g, dir, color, s, k, maxdist) == [s];
    }
  }

  /** On the board throughout, EMPTY but for the last square, and the last not an ally's. */
  predicate StopsRight(g: Grid, color: PieceType, w: seq<Square>)
    requires IsGrid(g)
  {
    && (forall i :: 0 <= i < |w| ==> OnBoard(w[i]))
    && (forall i :: 0 <= i < |w| - 1 ==> Cell(g, w[i]) == EMPTY)
    && (|w| > 0 ==> !IsOccupiedBy(Cell(g, w[|w| - 1]), color))
  }

  /** Putting an EMPTY square of the board in front keeps a list that stops right. */
  lemma StopsRightCons(g: Grid, color: PieceType, s: Square, rest: seq<Square>)
    requires IsGrid(g) && OnBoard(s) && Cell(g, s) == EMPTY && StopsRight(g, color, rest)
    ensures StopsRight(g, color, [s] + rest)
  {
    var w := [s] + rest;
    forall i | 0 <= i < |w|
      ensures OnBoard(w[i]) && (i < |w| - 1 ==> Cell(g, w[i]) == EMPTY)
    {
      if i > 0 {
        assert w[i] == rest[i - 1];
      }
    }
    if |rest| > 0 {
      assert w[|w| - 1] == rest[|rest| - 1];
    }
  }

  lemma {:induction false} WalkStops(g: Grid, dir: MoveDir, color: PieceType, rank: int, file: int, k: int, maxdist: int)
    requires IsGrid(g) && dir.IsRay()
    ensures StopsRight(g, color, Walk(g, dir, color, RayPoint(dir, rank, file, k), k, maxdist))
    decreases maxdist - k
  {
    var s := RayPoint(dir, rank, file, k);
    if OnBoard(s) && k <= maxdist && Cell(g, s) == EMPTY {
      WalkUnfold(g, dir, color, rank, file, k, maxdist);
      WalkStops(g, dir, color, rank, file, k + 1, maxdist);
      StopsRightCons(g, color, s, Walk(g, dir, color, RayPoint(dir, rank, file, k + 1), k + 1, maxdist));
    } else if OnBoard(s) && k <= maxdist && GetPieceColor(Cell(g, s)) != color {
      assert Walk(g, dir, color, s, k, maxdist) == [s];
    }
  }

  /** A list of squares that ends on an EMPTY square, or is empty, is followed by a blocked one. */
  predicate EndsBlocked(g: Grid, dir: MoveDir, color: PieceType, rank: int, file: int, k: int, maxdist: int, w: seq<Square>)
    requires IsGrid(g) && dir.IsRay()
  {
    (|w| == 0 || (OnBoard(w[|w| - 1]) && Cell(g, w[|w| - 1]) == EMPTY)) ==> Blocked(g, dir, color, rank, file, k + |w|, maxdist)
  }

  /** Putting an EMPTY square in front keeps the list followed by a blocked square. */
  lemma EndsBlockedCons(g: Grid, dir: MoveDir, color: PieceType, rank: int, file: int, k: int, maxdist: int,
                        s: Square, rest: seq<Square>)
    requires IsGrid(g) && dir.IsRay() && OnBoard(s) && Cell(g, s) == EMPTY
    requires EndsBlocked(g, dir, color, rank, file, k + 1, maxdist, rest)
    ensures EndsBlocked(g, dir, color, rank, file, k, maxdist, [s] + rest)
  {
    var w := [s] + rest;
    if |rest| > 0 {
      assert w[|w| - 1] == rest[|rest| - 1];
    }
    assert k + |w| == k + 1 + |rest|;
  }

  lemma {:induction false} WalkMaximal(g: Grid, dir: MoveDir, color: PieceType, rank: int, file: int, k: int, maxdist: int)
    requires IsGrid(g) && dir.IsRay()
    ensures EndsBlocked(g, dir, color, rank, file, k, maxdist, Walk(g, dir, color, RayPoint(dir, rank, file, k), k, maxdist))
    decreases maxdist - k
  {
    var s := RayPoint(dir, rank, file, k);
    if OnBoard(s) && k <= maxdist && Cell(g, s) == EMPTY {
      WalkUnfold(g, dir, color, rank, file, k, maxdist);
      WalkMaximal(g, dir, color, rank, file, k + 1, maxdist);
      EndsBlockedCons(g, dir, color, rank, file, k, maxdist, s,
                      Walk(g, dir, color, RayPoint(dir, rank, file, k + 1), k + 1, maxdist));
    } else if OnBoard(s) && k <= maxdist && GetPieceColor(Cell(g, s)) != color {
      assert Walk(g, dir, color, s, k, maxdist) == [s];
    }
  }

  lemma WalkShape(g: Grid, dir: MoveDir, color: PieceType, rank: int, file: int, k: int, maxdist: int)
    requires IsGrid(g) && dir.IsRay()
    ensures RayShape(g, dir, color, rank, file, k, maxdist,
                     Walk(g, dir, color, RayPoint(dir, rank, file, k), k, maxdist))
  {
    WalkAlong(g, dir, color, rank, file, k, maxdist);
    WalkStops(g, dir, color, rank, file, k, maxdist);
    WalkMaximal(g, dir, color, rank, file, k, maxdist);
  }

  /** A list with the ray shape is the walk itself. */
  lemma {:induction false} RayShapeIsWalk(g: Grid, dir: MoveDir, color: PieceType, rank: int, file: int,
                                          k: int, maxdist: int, w: seq<Square>)
    requires IsGrid(g) && dir.IsRay()
    requires RayShape(g, dir, color, rank, file, k, maxdist, w)
    ensures w == Walk(g, dir, color, RayPoint(dir, rank, file, k), k, maxdist)
    decreases |w|
  {
    var s := RayPoint(dir, rank, file, k);
    if |w| > 0 {
      assert w[0] == s && OnBoard(s) && k <= maxdist;
      if Cell(g, s) == EMPTY {
        RayShapeTail(g, dir, color, rank, file, k, maxdist, w);
        RayShapeIsWalk(g, dir, color, rank, file, k + 1, maxdist, w[1..]);
        WalkUnfold(g, dir, color, rank, file, k, maxdist);
        assert w == [s] + w[1..];
      } else {
        assert |w| == 1;
      }
    }
  }

  /** Dropping the first, EMPTY, square of a ray-shaped list leaves one shaped one step further out. */
  lemma RayShapeTail(g: Grid, dir: MoveDir, color: PieceType, rank: int, file: int,
                     k: int, maxdist: int, w: seq<Square>)
    requires IsGrid(g) && dir.IsRay()
    requires RayShape(g, dir, color, rank, file, k, maxdist, w)
    requires |w| > 0 && Cell(g, w[0]) == EMPTY
    ensures RayShape(g, dir, color, rank, file, k + 1, maxdist, w[1..])
  {
    var rest := w[1..];
    assert |rest| > 0 ==> rest[|rest| - 1] == w[|w| - 1];
    assert forall i :: 0 <= i < |rest| ==> rest[i] == w[i + 1];
  }

  /** The ray walk is exactly the list with the ray shape. */
  lemma RayCharacterized(g: Grid, dir: MoveDir, color: PieceType, rank: int, file: int, maxdist: int, w: seq<Square>)
    requires IsGrid(g) && dir.IsRay()
    ensures RaySquares(g, dir, color, rank, file, maxdist) == w <==> RayShape(g, dir, color, rank, file, 1, maxdist, w)
  {
    WalkShape(g, dir, color, rank, file, 1, maxdist);
    if RayShape(g, dir, color, rank, file, 1, maxdist, w) {
      RayShapeIsWalk(g, dir, color, rank, file, 1, maxdist, w);
    }
  }

  /** The knight's leaps, in the order the source lists them. */
  const KnightLeaps: seq<(int, int)> := [(-2, 1), (-1, 2), (1, 2), (2, 1), (2, -1), (1, -2), (-1, -2), (-2, -1)]

  function LeapSquare(rank: int, file: int, i: int): Square
    requires 0 <= i < 8
  {
    (rank + KnightLeaps[i].0, file + KnightLeaps[i].1)
  }

  /** A leap target: on the board and EMPTY or of the other colour. */
  predicate KnightTarget(g: Grid, color: PieceType, s: Square)
    requires IsGrid(g)
  {
    OnBoard(s) && (Cell(g, s) == EMPTY || GetPieceColor(Cell(g, s)) != color)
  }

  /** The targets among the first n leaps, in leap order. */
  function KnightSquaresUpTo(g: Grid, color: PieceType, rank: int, file: int, n: int): seq<Square>
    requires IsGrid(g) && 0 <= n <= 8
  {
    if n == 0 then []
    else KnightSquaresUpTo(g, color, rank, file, n - 1)
         + (if KnightTarget(g, color, LeapSquare(rank, file, n - 1)) then [LeapSquare(rank, file, n - 1)] else [])
  }

  function KnightSquares(g: Grid, color: PieceType, rank: int, file: int): seq<Square>
    requires IsGrid(g)
  {
    KnightSquaresUpTo(g, color, rank, file, 8)
  }

  lemma {:induction false} KnightSquaresUpToExact(g: Grid, color: PieceType, rank: int, file: int, n: int)
    requires IsGrid(g) && 0 <= n <= 8
    ensures |KnightSquaresUpTo(g, color, rank, file, n)| <= n
    ensures forall s :: s in KnightSquaresUpTo(g, color, rank, file, n) <==>
      exists i :: 0 <= i < n && s == LeapSquare(rank, file, i) && KnightTarget(g, color, s)
  {
    if n > 0 {
      KnightSquaresUpToExact(g, color, rank, file, n - 1);
      var prev, t := KnightSquaresUpTo(g, color, rank, file, n - 1), LeapSquare(rank, file, n - 1);
      var tail := if KnightTarget(g, color, t) then [t] else [];
      assert KnightSquaresUpTo(g, color, rank, file, n) == prev + tail;
      forall s | s in prev + tail
        ensures exists i :: 0 <= i < n && s == LeapSquare(rank, file, i) && KnightTarget(g, color, s)
      {
        if s in prev {
          var i :| 0 <= i < n - 1 && s == LeapSquare(rank, file, i) && KnightTarget(g, color, s);
          assert 0 <= i < n;
        } else {
          assert s == t && KnightTarget(g, color, s);
        }
      }
      forall s | exists i :: 0 <= i < n && s == LeapSquare(rank, file, i) && KnightTarget(g, color, s)
        ensures s in prev + tail
      {
        var i :| 0 <= i < n && s == LeapSquare(rank, file, i) && KnightTarget(g, color, s);
        if i < n - 1 {
          assert s in prev;
        } else {
          assert s in tail;
        }
      }
    }
  }

  /**
   * The knight's squares are exactly the on-board leap targets not held by
   * an ally; there are at most eight.
   */
  lemma KnightExact(g: Grid, color: PieceType, rank: int, file: int)
    requires IsGrid(g)
    ensures |KnightSquares(g, color, rank, file)| <= 8
    ensures forall s :: s in KnightSquares(g, color, rank, file) <==>
      exists i :: 0 <= i < 8 && s == LeapSquare(rank, file, i) && OnBoard(s) && !IsOccupiedBy(Cell(g, s), color)
  {
    KnightSquaresUpToExact(g, color, rank, file, 8);
  }

  /** The squares __get_squares_on_path returns for one direction. */
  function PathSquares(g: Grid, dir: MoveDir, color: PieceType, rank: int, file: int, maxdist: int): seq<Square>
    requires IsGrid(g)
  {
    if dir == Knight then KnightSquares(g, color, rank, file)
    else if dir == Pawn then []
    else RaySquares(g, dir, color, rank, file, maxdist)
  }

  function Forward(color: PieceType): int {
    if color == WHITE then 1 else -1
  }

  function Enemy(color: PieceType): PieceType {
    if color == WHITE then BLACK else WHITE
  }

  /**
   * The pawn code indexes rank+1 (rank-1 for Black) unconditionally and
   * rank+2 (rank-2) for an unmoved pawn whose first square is EMPTY,
   * without bounds checks.
   */
  predicate PawnIndexSafe(g: Grid, color: PieceType, moved: bool, rank: int, file: int)
    requires IsGrid(g) && OnBoard((rank, file))
  {
    && (color == WHITE ==> rank + 1 < 8 && (!moved && g[rank + 1][file] == EMPTY ==> rank + 2 < 8))
    && (color == BLACK ==> rank - 1 >= 0 && (!moved && g[rank - 1][file] == EMPTY ==> rank - 2 >= 0))
  }

  /** The pawn's pushes: one square forward if EMPTY, then two if it has not moved and that is EMPTY too. */
  function PawnPushes(g: Grid, color: PieceType, moved: bool, rank: int, file: int): (r: seq<Square>)
    requires IsGrid(g) && OnBoard((rank, file)) && IsColor(color) && PawnIndexSafe(g, color, moved, rank, file)
    ensures var fw := Forward(color);
      && ((rank + fw, file) in r <==> g[rank + fw][file] == EMPTY)
      && ((rank + 2 * fw, file) in r <==> !moved && g[rank + fw][file] == EMPTY && g[rank + 2 * fw][file] == EMPTY)
      && (forall s :: s in r ==> OnBoard(s) && (s == (rank + fw, file) || s == (rank + 2 * fw, file)))
  {
    var fw := Forward(color);
    if g[rank + fw][file] == EMPTY then
      [(rank + fw, file)] + (if !moved && g[rank + 2 * fw][file] == EMPTY then [(rank + 2 * fw, file)] else [])
    else []
  }

  /** The pawn's capture towards file + df: only onto a piece of the other colour. */
  function PawnCapture(g: Grid, color: PieceType, rank: int, file: int, df: int): (r: seq<Square>)
    requires IsGrid(g) && OnBoard((rank, file)) && IsColor(color) && OnBoard((rank + Forward(color), file))
    requires df == -1 || df == 1
    ensures var fw := Forward(color);
      && ((rank + fw, file + df) in r <==> OnBoard((rank + fw, file + df)) && IsOccupiedBy(g[rank + fw][file + df], Enemy(color)))
      && (forall s :: s in r ==> OnBoard(s) && s == (rank + fw, file + df))
  {
    var fw := Forward(color);
    if (if df == -1 then file > 0 else file < 7) && IsOccupiedBy(g[rank + fw][file + df], Enemy(color)) then
      [(rank + fw, file + df)]
    else []
  }

  /** __get_squares_pawn: pushes and diagonal captures, forward being +1 rank for White, -1 for Black. */
  function PawnSquares(g: Grid, color: PieceType, moved: bool, rank: int, file: int): (r: seq<Square>)
    requires IsGrid(g) && OnBoard((rank, file)) && PawnIndexSafe(g, color, moved, rank, file)
    ensures !IsColor(color) ==> r == []
    ensures IsColor(color) ==> forall s :: s in r ==>
      var fw := Forward(color);
      s == (rank + fw, file) || s == (rank + 2 * fw, file) || s == (rank + fw, file - 1) || s == (rank + fw, file + 1)
    ensures forall s :: s in r ==> OnBoard(s)
  {
    if !IsColor(color) then []
    else PawnPushes(g, color, moved, rank, file) + PawnCapture(g, color, rank, file, -1) + PawnCapture(g, color, rank, file, 1)
  }

  /**
   * Exactly when each of the four squares is a pawn candidate: a push needs
   * EMPTY squares, the double push an unmoved pawn, a capture an enemy piece.
   */
  lemma PawnSquaresExact(g: Grid, color: PieceType, moved: bool, rank: int, file: int)
    requires IsGrid(g) && OnBoard((rank, file)) && IsColor(color) && PawnIndexSafe(g, color, moved, rank, file)
    ensures var r, fw := PawnSquares(g, color, moved, rank, file), Forward(color);
      && ((rank + fw, file) in r <==> g[rank + fw][file] == EMPTY)
      && ((rank + 2 * fw, file) in r <==> !moved && g[rank + fw][file] == EMPTY && g[rank + 2 * fw][file] == EMPTY)
      && ((rank + fw, file - 1) in r <==> file > 0 && IsOccupiedBy(g[rank + fw][file - 1], Enemy(color)))
      && ((rank + fw, file + 1) in r <==> file < 7 && IsOccupiedBy(g[rank + fw][file + 1], Enemy(color)))
  {
    var fw := Forward(color);
    var pushes := PawnPushes(g, color, moved, rank, file);
    var left, right := PawnCapture(g, color, rank, file, -1), PawnCapture(g, color, rank, file, 1);
    assert PawnSquares(g, color, moved, rank, file) == pushes + left + right;
    assert (rank + fw, file) !in left && (rank + fw, file) !in right;
    assert (rank + 2 * fw, file) !in left && (rank + 2 * fw, file) !in right;
    assert (rank + fw, file - 1) !in pushes && (rank + fw, file - 1) !in right;
    assert (rank + fw, file + 1) !in pushes && (rank + fw, file + 1) !in left;
  }

  function RookSquares(g: Grid, color: PieceType, rank: int, file: int): seq<Square>
    requires IsGrid(g)
  {
    PathSquares(g, Up, color, rank, file, 8) + PathSquares(g, Down, color, rank, file, 8)
    + PathSquares(g, Left, color, rank, file, 8) + PathSquares(g, Right, color, rank, file, 8)
  }

  function BishopSquares(g: Grid, color: PieceType, rank: int, file: int): seq<Square>
    requires IsGrid(g)
  {
    PathSquares(g, LeftUp, color, rank, file, 8) + PathSquares(g, RightUp, color, rank, file, 8)
    + PathSquares(g, LeftDown, color, rank, file, 8) + PathSquares(g, RightDown, color, rank, file, 8)
  }

  function QueenSquares(g: Grid, color: PieceType, rank: int, file: int): seq<Square>
    requires IsGrid(g)
  {
    PathSquares(g, Up, color, rank, file, 8) + PathSquares(g, Down, color, rank, file, 8)
    + PathSquares(g, Left, color, rank, file, 8) + PathSquares(g, Right, color, rank, file, 8)
    + PathSquares(g, LeftUp, color, rank, file, 8) + PathSquares(g, RightUp, color, rank, file, 8)
    + PathSquares(g, LeftDown, color, rank, file, 8) + PathSquares(g, RightDown, color, rank, file, 8)
  }

  function KingSquares(g: Grid, color: PieceType, rank: int, file: int): seq<Square>
    requires IsGrid(g)
  {
    PathSquares(g, Up, color, rank, file, 1) + PathSquares(g, Down, color, rank, file, 1)
    + PathSquares(g, Left, color, rank, file, 1) + PathSquares(g, Right, color, rank, file, 1)
    + PathSquares(g, LeftUp, color, rank, file, 1) + PathSquares(g, RightUp, color, rank, file, 1)
    + PathSquares(g, LeftDown, color, rank, file, 1) + PathSquares(g, RightDown, color, rank, file, 1)
  }

  /** What __get_candidate_squares may need of the board to stay in range. */
  predicate CandidatesDefined(g: Grid, pt: PieceType, moved: bool, rank: int, file: int) {
    IsGrid(g) && OnBoard((rank, file)) &&
    (GetPieceKind(pt) == PAWN ==> PawnIndexSafe(g, GetPieceColor(pt), moved, rank, file))
  }

  /** __get_candidate_squares: the pseudo-legal squares of a piece, dispatched on its kind. */
  function Candidates(g: Grid, pt: PieceType, moved: bool, rank: int, file: int): seq<Square>
    requires CandidatesDefined(g, pt, moved, rank, file)
  {
    var color := GetPieceColor(pt);
    var kind := GetPieceKind(pt);
    if kind == PAWN then PawnSquares(g, color, moved, rank, file)
    else if kind == KNIGHT then PathSquares(g, Knight, color, rank, file, 2)
    else if kind == BISHOP then BishopSquares(g, color, rank, file)
    else if kind == ROOK then RookSquares(g, color, rank, file)
    else if kind == QUEEN then QueenSquares(g, color, rank, file)
    else if kind == KING then KingSquares(g, color, rank, file)
    else []
  }

  /** A square a piece of `color` standing at (rank, file) may go to. */
  predicate Reachable(g: Grid, color: PieceType, rank: int, file: int, s: Square)
    requires IsGrid(g)
  {
    OnBoard(s) && s != (rank, file) && !IsOccupiedBy(Cell(g, s), color)
  }

  lemma RaySquaresSound(g: Grid, dir: MoveDir, color: PieceType, rank: int, file: int, maxdist: int)
    requires IsGrid(g) && dir.IsRay()
    ensures forall s :: s in RaySquares(g, dir, color, rank, file, maxdist) ==> Reachable(g, color, rank, file, s)
    ensures forall i :: 0 <= i < |RaySquares(g, dir, color, rank, file, maxdist)| ==>
      RaySquares(g, dir, color, rank, file, maxdist)[i] == RayPoint(dir, rank, file, i + 1) && i + 1 <= maxdist
  {
    var w := RaySquares(g, dir, color, rank, file, maxdist);
    WalkShape(g, dir, color, rank, file, 1, maxdist);
    forall s | s in w
      ensures Reachable(g, color, rank, file, s)
    {
      var i :| 0 <= i < |w| && w[i] == s;
      if i < |w| - 1 {
        assert Cell(g, s) == EMPTY;
      }
    }
  }

  lemma PathSquaresSound(g: Grid, dir: MoveDir, color: PieceType, rank: int, file: int, maxdist: int)
    requires IsGrid(g)
    ensures forall s :: s in PathSquares(g, dir, color, rank, file, maxdist) ==> Reachable(g, color, rank, file, s)
  {
    if dir == Knight {
      KnightExact(g, color, rank, file);
    } else if dir != Pawn {
      RaySquaresSound(g, dir, color, rank, file, maxdist);
    }
  }

  /** The rook's, bishop's, queen's and king's squares are all reachable. */
  lemma SlidingSquaresSound(g: Grid, color: PieceType, rank: int, file: int)
    requires IsGrid(g)
    ensures forall s :: s in RookSquares(g, color, rank, file) ==> Reachable(g, color, rank, file, s)
    ensures forall s :: s in BishopSquares(g, color, rank, file) ==> Reachable(g, color, rank, file, s)
    ensures forall s :: s in QueenSquares(g, color, rank, file) ==> Reachable(g, color, rank, file, s)
    ensures forall s :: s in KingSquares(g, color, rank, file) ==> Reachable(g, color, rank, file, s)
  {
    PathSquaresSound(g, Up, color, rank, file, 8);
    PathSquaresSound(g, Down, color, rank, file, 8);
    PathSquaresSound(g, Left, color, rank, file, 8);
    PathSquaresSound(g, Right, color, rank, file, 8);
    PathSquaresSound(g, LeftUp, color, rank, file, 8);
    PathSquaresSound(g, RightUp, color, rank, file, 8);
    PathSquaresSound(g, LeftDown, color, rank, file, 8);
    PathSquaresSound(g, RightDown, color, rank, file, 8);
    PathSquaresSound(g, Up, color, rank, file, 1);
    PathSquaresSound(g, Down, color, rank, file, 1);
    PathSquaresSound(g, Left, color, rank, file, 1);
    PathSquaresSound(g, Right, color, rank, file, 1);
    PathSquaresSound(g, LeftUp, color, rank, file, 1);
    PathSquaresSound(g, RightUp, color, rank, file, 1);
    PathSquaresSound(g, LeftDown, color, rank, file, 1);
    PathSquaresSound(g, RightDown, color, rank, file, 1);
  }

  lemma PawnSquaresSound(g: Grid, color: PieceType, moved: bool, rank: int, file: int)
    requires IsGrid(g) && OnBoard((rank, file)) && PawnIndexSafe(g, color, moved, rank, file)
    ensures forall s :: s in PawnSquares(g, color, moved, rank, file) ==> Reachable(g, color, rank, file, s)
  {
  }

  /** Candidates never include the piece's own square, an off-board square or an ally's square. */
  lemma CandidatesSound(g: Grid, pt: PieceType, moved: bool, rank: int, file: int)
    requires CandidatesDefined(g, pt, moved, rank, file)
    ensures forall s :: s in Candidates(g, pt, moved, rank, file) ==> Reachable(g, GetPieceColor(pt), rank, file, s)
  {
    var color := GetPieceColor(pt);
    var kind := GetPieceKind(pt);
    if kind == PAWN {
      PawnSquaresSound(g, color, moved, rank, file);
    } else if kind == KNIGHT {
      PathSquaresSound(g, Knight, color, rank, file, 2);
    } else {
      SlidingSquaresSound(g, color, rank, file);
    }
  }

  /** A ray cut at distance 1 holds at most the first square of the ray, an adjacent one. */
  lemma StepAdjacent(g: Grid, dir: MoveDir, color: PieceType, rank: int, file: int)
    requires IsGrid(g) && dir.IsRay()
    ensures forall s :: s in PathSquares(g, dir, color, rank, file, 1) ==>
      -1 <= s.0 - rank <= 1 && -1 <= s.1 - file <= 1 && s != (rank, file)
  {
    RaySquaresSound(g, dir, color, rank, file, 1);
    forall s | s in PathSquares(g, dir, color, rank, file, 1)
      ensures -1 <= s.0 - rank <= 1 && -1 <= s.1 - file <= 1
    {
      var w := PathSquares(g, dir, color, rank, file, 1);
      var i :| 0 <= i < |w| && w[i] == s;
      assert s == RayPoint(dir, rank, file, 1);
    }
  }

  lemma KingSquaresAdjacent(g: Grid, color: PieceType, rank: int, file: int)
    requires IsGrid(g)
    ensures forall s :: s in KingSquares(g, color, rank, file) ==>
      -1 <= s.0 - rank <= 1 && -1 <= s.1 - file <= 1 && s != (rank, file)
  {
    StepAdjacent(g, Up, color, rank, file);
    StepAdjacent(g, Down, color, rank, file);
    StepAdjacent(g, Left, color, rank, file);
    StepAdjacent(g, Right, color, rank, file);
    StepAdjacent(g, LeftUp, color, rank, file);
    StepAdjacent(g, RightUp, color, rank, file);
    StepAdjacent(g, LeftDown, color, rank, file);
    StepAdjacent(g, RightDown, color, rank, file);
  }

  /** The king steps one square: every candidate is at Chebyshev distance 1. */
  lemma KingCandidatesAdjacent(g: Grid, pt: PieceType, moved: bool, rank: int, file: int)
    requires CandidatesDefined(g, pt, moved, rank, file) && GetPieceKind(pt) == KING
    ensures forall s :: s in Candidates(g, pt, moved, rank, file) ==>
      -1 <= s.0 - rank <= 1 && -1 <= s.1 - file <= 1 && s != (rank, file)
  {
    assert Candidates(g, pt, moved, rank, file) == KingSquares(g, GetPieceColor(pt), rank, file);
    KingSquaresAdjacent(g, GetPieceColor(pt), rank, file);
  }

  /** Candidates, kind by kind. */
  lemma CandidatesByKind(g: Grid, pt: PieceType, moved: bool, rank: int, file: int)
    requires CandidatesDefined(g, pt, moved, rank, file)
    ensures var color, kind, c := GetPieceColor(pt), GetPieceKind(pt), Candidates(g, pt, moved, rank, file);
      && (kind == PAWN ==> c == PawnSquares(g, color, moved, rank, file))
      && (kind == KNIGHT ==> c == PathSquares(g, Knight, color, rank, file, 2))
      && (kind == BISHOP ==> c == BishopSquares(g, color, rank, file))
      && (kind == ROOK ==> c == RookSquares(g, color, rank, file))
      && (kind == QUEEN ==> c == QueenSquares(g, color, rank, file))
      && (kind == KING ==> c == KingSquares(g, color, rank, file))
      && (!IsKind(kind) ==> c == [])
  {
  }

  lemma QueenSquaresSplit(g: Grid, color: PieceType, rank: int, file: int)
    requires IsGrid(g)
    ensures QueenSquares(g, color, rank, file) == RookSquares(g, color, rank, file) + BishopSquares(g, color, rank, file)
  {
    var a, b, c, d := PathSquares(g, Up, color, rank, file, 8), PathSquares(g, Down, color, rank, file, 8),
                      PathSquares(g, Left, color, rank, file, 8), PathSquares(g, Right, color, rank, file, 8);
    var e, f, h, i := PathSquares(g, LeftUp, color, rank, file, 8), PathSquares(g, RightUp, color, rank, file, 8),
                      PathSquares(g, LeftDown, color, rank, file, 8), PathSquares(g, RightDown, color, rank, file, 8);
    var rook := a + b + c + d;
    ConcatAssoc(rook, e + f + h, i);
    ConcatAssoc(rook, e + f, h);
    ConcatAssoc(rook, e, f);
  }

  lemma ConcatAssoc<T>(x: seq<T>, y: seq<T>, z: seq<T>)
    ensures x + (y + z) == (x + y) + z
  {
  }

  /** The queen goes where a rook or a bishop on her square goes, rook directions first. */
  lemma QueenIsRookPlusBishop(g: Grid, color: PieceType, moved: bool, rank: int, file: int)
    requires IsGrid(g) && OnBoard((rank, file)) && IsColor(color)
    ensures Candidates(g, color | QUEEN, moved, rank, file)
         == Candidates(g, color | ROOK, moved, rank, file) + Candidates(g, color | BISHOP, moved, rank, file)
  {
    EncodingRoundTrip(color, QUEEN);
    EncodingRoundTrip(color, ROOK);
    EncodingRoundTrip(color, BISHOP);
    CandidatesByKind(g, color | QUEEN, moved, rank, file);
    CandidatesByKind(g, color | ROOK, moved, rank, file);
    CandidatesByKind(g, color | BISHOP, moved, rank, file);
    QueenSquaresSplit(g, color, rank, file);
  }

  /** The knight's candidates are its leap targets; the distance argument plays no part. */
  lemma KnightCandidates(g: Grid, pt: PieceType, moved: bool, rank: int, file: int, maxdist: int)
    requires CandidatesDefined(g, pt, moved, rank, file) && GetPieceKind(pt) == KNIGHT
    ensures Candidates(g, pt, moved, rank, file) == PathSquares(g, Knight, GetPieceColor(pt), rank, file, maxdist)
  {
  }

  /** The grid with one cell overwritten. */
  function SetCell(g: Grid, t: Square, p: PieceType): (r: Grid)
    requires IsGrid(g) && OnBoard(t)
    ensures IsGrid(r)
    ensures forall s :: OnBoard(s) ==> Cell(r, s) == if s == t then p else Cell(g, s)
  {
    g[t.0 := g[t.0][t.1 := p]]
  }

  /** The grid after __move_piece: the origin EMPTY, then the destination holding the mover. */
  function MovedGrid(g: Grid, from: Square, to: Square, p: PieceType): (r: Grid)
    requires IsGrid(g) && OnBoard(from) && OnBoard(to)
    ensures IsGrid(r)
    ensures forall s :: OnBoard(s) ==> Cell(r, s) == if s == to then p else if s == from then EMPTY else Cell(g, s)
  {
    SetCell(SetCell(g, from, EMPTY), to, p)
  }
}
