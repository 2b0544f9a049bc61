/** What the game's move listing and check test compute, as functions of a board snapshot:
    the generator each piece kind calls for, the first king of a colour, whether that king is
    attacked, and the check filter over pseudo-legal destinations. */
module Rules {
  import opened ChessTypes
  import opened BitBoard
  import opened MoveGen
  import KnightLookup
  import KingLookup
  import SlideGeometry

  /** The pseudo-legal destinations of whatever stands on `sq`: none for an empty square,
      otherwise the generator that the piece's kind selects, with the piece's own colour. */
  function PseudoMoves(b: Cells, sq: int): seq<int>
    requires IsBoard(b) && IsSquare(sq)
  {
    match b[sq]
    case None => []
    case Some(p) =>
      match p.kind
      case Pawn => PawnMoves(b, sq, p.color)
      case Knight => SimpleMoves(b, KnightLookup.KnightTargets(sq), p.color)
      case Bishop => SlidingMoves(b, sq, p.color, BishopDirs)
      case Rook => SlidingMoves(b, sq, p.color, RookDirs)
      case Queen => SlidingMoves(b, sq, p.color, QueenDirs)
      case King => SimpleMoves(b, KingLookup.KingTargets(sq), p.color)
  }

  /** No pseudo-legal destination is off the board, the origin itself, or a square holding a
      piece of the mover's colour. */
  lemma PseudoMovesSafe(b: Cells, sq: int)
    requires IsBoard(b) && IsSquare(sq) && b[sq].Some?
    ensures forall j | j in PseudoMoves(b, sq) ::
      IsSquare(j) && j != sq && EmptyOrEnemy(b, j, b[sq].value.color)
  {
    var p := b[sq].value;
    match p.kind
    case Pawn => PawnMovesSafe(b, sq, p.color);
    case Knight => SimpleMovesMember(b, KnightLookup.KnightTargets(sq), p.color);
    case Bishop => SlideGeometry.SlidingMovesSafe(b, sq, p.color, BishopDirs);
    case Rook => SlideGeometry.SlidingMovesSafe(b, sq, p.color, RookDirs);
    case Queen => SlideGeometry.SlidingMovesSafe(b, sq, p.color, QueenDirs);
    case King => SimpleMovesMember(b, KingLookup.KingTargets(sq), p.color);
  }

  // ----- the king search -----

  /** Slot p holds the king of colour c. */
  predicate IsKingOf(p: Option<Piece>, c: PieceColor)
  {
    p.Some? && p.value.kind == King && p.value.color == c
  }

  /** The lowest square below n holding the king of colour c, or -1 when there is none. */
  function FirstKing(b: Cells, c: PieceColor, n: nat): int
    requires IsBoard(b) && n <= 64
  {
    if n == 0 then -1
    else if FirstKing(b, c, n - 1) != -1 then FirstKing(b, c, n - 1)
    else if IsKingOf(b[n - 1], c) then n - 1
    else -1
  }

  /** The square the check test treats as colour c's king: the lowest one, or -1. */
  function KingSquare(b: Cells, c: PieceColor): int
    requires IsBoard(b)
  {
    FirstKing(b, c, 64)
  }

  /** FirstKing finds the lowest king below n, and -1 exactly when there is none. */
  lemma {:induction false} FirstKingSpec(b: Cells, c: PieceColor, n: nat)
    requires IsBoard(b) && n <= 64
    ensures FirstKing(b, c, n) == -1 <==> forall i | 0 <= i < n :: !IsKingOf(b[i], c)
    ensures FirstKing(b, c, n) != -1 ==>
      0 <= FirstKing(b, c, n) < n && IsKingOf(b[FirstKing(b, c, n)], c) &&
      forall i | 0 <= i < FirstKing(b, c, n) :: !IsKingOf(b[i], c)
  {
    if n > 0 {
      FirstKingSpec(b, c, n - 1);
    }
  }

  /** Once a king is found below n, looking further does not change the answer. */
  lemma {:induction false} FirstKingStays(b: Cells, c: PieceColor, n: nat, m: nat)
    requires IsBoard(b) && n <= m <= 64 && FirstKing(b, c, n) != -1
    ensures FirstKing(b, c, m) == FirstKing(b, c, n)
    decreases m - n
  {
    if n < m {
      FirstKingStays(b, c, n, m - 1);
    }
  }

  // ----- check -----

  /** The piece on i is an enemy of colour c and one of its pseudo-legal destinations is k. */
  predicate Threatens(b: Cells, i: int, k: int, c: PieceColor)
    requires IsBoard(b) && IsSquare(i)
  {
    b[i].Some? && b[i].value.color != c && k in PseudoMoves(b, i)
  }

  /** Colour c counts as in check when it has no king on the board, or when some enemy piece
      lists the king's square among its pseudo-legal destinations. */
  predicate InCheck(b: Cells, c: PieceColor)
    requires IsBoard(b)
  {
    var k := KingSquare(b, c);
    k == -1 || exists i | 0 <= i < 64 :: Threatens(b, i, k, c)
  }

  /** With no king of colour c anywhere on the board, c counts as in check. */
  lemma InCheckWithoutKing(b: Cells, c: PieceColor)
    requires IsBoard(b) && forall i | 0 <= i < 64 :: !IsKingOf(b[i], c)
    ensures InCheck(b, c)
  {
    FirstKingSpec(b, c, 64);
  }

  /** With k the lowest square holding c's king, c is in check exactly when an enemy piece
      lists k among its destinations. */
  lemma InCheckWithKing(b: Cells, c: PieceColor, k: int)
    requires IsBoard(b) && IsSquare(k) && IsKingOf(b[k], c)
    requires forall i | 0 <= i < k :: !IsKingOf(b[i], c)
    ensures InCheck(b, c) <==> exists i | 0 <= i < 64 :: Threatens(b, i, k, c)
  {
    FirstKingSpec(b, c, 64);
    assert KingSquare(b, c) == k;
  }

  // ----- the check filter -----

  /** Playing sq -> m leaves the mover's king out of check. */
  predicate SafeAfter(b: Cells, sq: int, m: int)
    requires IsBoard(b) && IsSquare(sq) && IsSquare(m) && b[sq].Some?
  {
    !InCheck(MoveOnBoard(b, sq, m), b[sq].value.color)
  }

  /** The destinations of `ms` that are safe after the move, in their original order. */
  function KeepSafe(b: Cells, sq: int, ms: seq<int>): seq<int>
    requires IsBoard(b) && IsSquare(sq) && b[sq].Some?
    requires forall k | 0 <= k < |ms| :: IsSquare(ms[k])
  {
    if |ms| == 0 then []
    else
      var last := ms[|ms| - 1];
      KeepSafe(b, sq, ms[..|ms| - 1]) + (if SafeAfter(b, sq, last) then [last] else [])
  }

  /** A destination survives the filter exactly when it was offered and is safe. */
  lemma {:induction false} KeepSafeMember(b: Cells, sq: int, ms: seq<int>, j: int)
    requires IsBoard(b) && IsSquare(sq) && b[sq].Some?
    requires forall k | 0 <= k < |ms| :: IsSquare(ms[k])
    ensures j in KeepSafe(b, sq, ms) <==> j in ms && IsSquare(j) && SafeAfter(b, sq, j)
  {
    if |ms| > 0 {
      var init := ms[..|ms| - 1];
      KeepSafeMember(b, sq, init, j);
      assert ms == init + [ms[|ms| - 1]];
    }
  }

  /** The destinations the game offers for the piece on sq: its pseudo-legal destinations
      that do not leave its own king in check; none for an empty square. */
  function LegalMoves(b: Cells, sq: int): seq<int>
    requires IsBoard(b) && IsSquare(sq)
  {
    if b[sq].None? then []
    else
      PseudoMovesSafe(b, sq);
      KeepSafe(b, sq, PseudoMoves(b, sq))
  }

  /** A destination is offered exactly when it is pseudo-legal and the mover is not in check
      once it is played; it is then on the board, not the origin, and not a friendly piece. */
  lemma LegalMovesMember(b: Cells, sq: int, j: int)
    requires IsBoard(b) && IsSquare(sq) && b[sq].Some?
    ensures j in LegalMoves(b, sq) <==>
      j in PseudoMoves(b, sq) && IsSquare(j) && !InCheck(MoveOnBoard(b, sq, j), b[sq].value.color)
    ensures j in LegalMoves(b, sq) ==>
      IsSquare(j) && j != sq && EmptyOrEnemy(b, j, b[sq].value.color)
  {
    PseudoMovesSafe(b, sq);
    KeepSafeMember(b, sq, PseudoMoves(b, sq), j);
  }
}
