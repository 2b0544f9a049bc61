/** Castling: the attack test on a square, the two castling conditions, and the flags that
    follow one castle from the offer, through the king's move, to the rook's move. */
module Castling {
  import opened ChessTypes
  import opened BitBoard
  import opened MoveGen
  import KnightLookup
  import KingLookup

  /** The attack directions: the rook's four, then the bishop's four. */
  const Directions: seq<(int, int)> := [(1, 0), (-1, 0), (0, 1), (0, -1), (1, 1), (1, -1), (-1, 1), (-1, -1)]

  /** The knight offsets, in the order the attack test tries them. */
  const KnightJumps: seq<(int, int)> := [(2, 1), (2, -1), (-2, 1), (-2, -1), (1, 2), (1, -2), (-1, 2), (-1, -2)]

  /** The back rank of colour c. */
  function HomeRank(c: PieceColor): (r: int)
    ensures r == 0 || r == 7
  {
    if c == White then 0 else 7
  }

  // ----- the attack test -----

  /** Walking from (r, f) along d reaches (tr, tf) while on the board, before any occupied
      square; the target square itself may be occupied. */
  function SlideReaches(b: Cells, r: int, f: int, d: (int, int), tr: int, tf: int): bool
    requires IsBoard(b) && Unit(d)
    decreases Steps(r, f, d)
  {
    if !IsValidSquare(r, f) then false
    else if r == tr && f == tf then true
    else if b[ToIndex(r, f)].Some? then false
    else SlideReaches(b, r + d.0, f + d.1, d, tr, tf)
  }

  /** Square sq is on the board and empty. */
  predicate Vacant(b: Cells, sq: (int, int))
    requires IsBoard(b)
  {
    IsValidSquare(sq.0, sq.1) && b[ToIndex(sq.0, sq.1)].None?
  }

  /** The first n squares from (r, f) along d are on the board and empty. */
  predicate ClearFor(b: Cells, r: int, f: int, d: (int, int), n: int)
    requires IsBoard(b)
  {
    forall k | 0 <= k < n :: Vacant(b, At(r, f, d, k))
  }

  /** A clear stretch of n + 1 squares is a clear first square followed by a clear stretch of n. */
  lemma ClearStep(b: Cells, r: int, f: int, d: (int, int), n: nat)
    requires IsBoard(b) && Unit(d)
    ensures ClearFor(b, r, f, d, n + 1) <==> Vacant(b, (r, f)) && ClearFor(b, r + d.0, f + d.1, d, n)
  {
    assert At(r, f, d, 0) == (r, f);
    if ClearFor(b, r, f, d, n + 1) {
      ClearTail(b, r, f, d, n);
    }
    if Vacant(b, (r, f)) && ClearFor(b, r + d.0, f + d.1, d, n) {
      ClearCons(b, r, f, d, n);
    }
  }

  lemma ClearTail(b: Cells, r: int, f: int, d: (int, int), n: nat)
    requires IsBoard(b) && Unit(d) && ClearFor(b, r, f, d, n + 1)
    ensures ClearFor(b, r + d.0, f + d.1, d, n)
  {
    var r2, f2 := r + d.0, f + d.1;
    forall k | 0 <= k < n ensures Vacant(b, At(r2, f2, d, k)) {
      AtStep(r, f, d, k);
      assert Vacant(b, At(r, f, d, k + 1));
    }
  }

  lemma ClearCons(b: Cells, r: int, f: int, d: (int, int), n: nat)
    requires IsBoard(b) && Unit(d) && Vacant(b, (r, f)) && ClearFor(b, r + d.0, f + d.1, d, n)
    ensures ClearFor(b, r, f, d, n + 1)
  {
    var r2, f2 := r + d.0, f + d.1;
    forall k | 0 <= k < n + 1 ensures Vacant(b, At(r, f, d, k)) {
      if k == 0 {
        assert At(r, f, d, 0) == (r, f);
      } else {
        AtStep(r, f, d, k - 1);
        assert Vacant(b, At(r2, f2, d, k - 1));
      }
    }
  }

  /** A slide that reaches the target does so after some n steps over empty squares. */
  lemma {:induction false} SlideReachesWitness(b: Cells, r: int, f: int, d: (int, int), tr: int, tf: int)
    returns (n: nat)
    requires IsBoard(b) && Unit(d) && SlideReaches(b, r, f, d, tr, tf)
    ensures At(r, f, d, n) == (tr, tf) && ClearFor(b, r, f, d, n)
    decreases Steps(r, f, d)
  {
    if r == tr && f == tf {
      n := 0;
      assert At(r, f, d, 0) == (r, f);
    } else {
      var m := SlideReachesWitness(b, r + d.0, f + d.1, d, tr, tf);
      n := m + 1;
      AtStep(r, f, d, m);
      ClearStep(b, r, f, d, m);
    }
  }

  /** A target on the board n steps along d, over n empty squares, is reached. */
  lemma {:induction false} SlideReachesFrom(b: Cells, r: int, f: int, d: (int, int), tr: int, tf: int, n: nat)
    requires IsBoard(b) && Unit(d) && IsValidSquare(tr, tf)
    requires At(r, f, d, n) == (tr, tf) && ClearFor(b, r, f, d, n)
    ensures SlideReaches(b, r, f, d, tr, tf)
    decreases n
  {
    if n == 0 {
      assert At(r, f, d, 0) == (r, f);
    } else if !(r == tr && f == tf) {
      ClearStep(b, r, f, d, n - 1);
      AtStep(r, f, d, n - 1);
      SlideReachesFrom(b, r + d.0, f + d.1, d, tr, tf, n - 1);
    }
  }

  /** The target lies n >= 1 steps from (rank, file) along d, and the n - 1 squares strictly
      between are on the board and empty. */
  predicate OpenLine(b: Cells, rank: int, file: int, d: (int, int), tr: int, tf: int, n: int)
    requires IsBoard(b)
  {
    n >= 1 && At(rank + d.0, file + d.1, d, n - 1) == (tr, tf) && ClearFor(b, rank + d.0, file + d.1, d, n - 1)
  }

  /** A slider on (rank, file) attacks an on-board target along d exactly when the line
      between them is open. */
  lemma SlideAttackIff(b: Cells, rank: int, file: int, d: (int, int), tr: int, tf: int)
    requires IsBoard(b) && Unit(d) && IsValidSquare(tr, tf)
    ensures SlideReaches(b, rank + d.0, file + d.1, d, tr, tf) <==>
      exists n :: OpenLine(b, rank, file, d, tr, tf, n)
  {
    if SlideReaches(b, rank + d.0, file + d.1, d, tr, tf) {
      var m := SlideReachesWitness(b, rank + d.0, file + d.1, d, tr, tf);
      assert OpenLine(b, rank, file, d, tr, tf, m + 1);
    }
    forall n | OpenLine(b, rank, file, d, tr, tf, n)
      ensures SlideReaches(b, rank + d.0, file + d.1, d, tr, tf)
    {
      SlideReachesFrom(b, rank + d.0, file + d.1, d, tr, tf, n - 1);
    }
  }

  /** Some direction of dirs[lo..hi] lets the slider on (rank, file) reach the target. */
  predicate SlidesOnto(b: Cells, rank: int, file: int, lo: int, hi: int, tr: int, tf: int)
    requires IsBoard(b) && 0 <= lo <= hi <= 8
  {
    exists k | lo <= k < hi :: SlideReaches(b, rank + Directions[k].0, file + Directions[k].1, Directions[k], tr, tf)
  }

  /** Some knight offset from (rank, file) lands on the target. */
  predicate JumpsOnto(rank: int, file: int, tr: int, tf: int)
  {
    exists j | 0 <= j < 8 :: rank + KnightJumps[j].0 == tr && file + KnightJumps[j].1 == tf
  }

  /** The piece p, standing on square i, attacks (tr, tf), by the rule of its kind:
      rooks, bishops and queens along their directions up to the first piece; knights by
      their eight offsets; pawns on the two diagonals one rank ahead in their own direction;
      kings within one rank and one file (their own square included). */
  predicate Attacks(b: Cells, i: int, p: Piece, tr: int, tf: int)
    requires IsBoard(b) && IsSquare(i)
  {
    var rank, file := i / 8, i % 8;
    match p.kind
    case Rook => SlidesOnto(b, rank, file, 0, 4, tr, tf)
    case Bishop => SlidesOnto(b, rank, file, 4, 8, tr, tf)
    case Queen => SlidesOnto(b, rank, file, 0, 8, tr, tf)
    case Knight => JumpsOnto(rank, file, tr, tf)
    case Pawn => rank + Forward(p.color) == tr && Abs(file - tf) == 1
    case King => Abs(rank - tr) <= 1 && Abs(file - tf) <= 1
  }

  /** Square i holds a piece of the attacking colour that attacks the target. */
  predicate AttackerOn(b: Cells, i: int, target: int, attacker: PieceColor)
    requires IsBoard(b) && IsSquare(i)
  {
    b[i].Some? && b[i].value.color == attacker && Attacks(b, i, b[i].value, target / 8, target % 8)
  }

  /** Some square below n holds a piece of the defender's opponent that attacks `target`. */
  predicate AttackedBelow(b: Cells, target: int, defender: PieceColor, n: nat)
    requires IsBoard(b) && n <= 64
  {
    n > 0 && (AttackedBelow(b, target, defender, n - 1) || AttackerOn(b, n - 1, target, Opponent(defender)))
  }

  /** Some piece of the defender's opponent attacks `target`. */
  predicate SquareAttacked(b: Cells, target: int, defender: PieceColor)
    requires IsBoard(b)
  {
    AttackedBelow(b, target, defender, |b|)
  }

  /** The scan below n finds an attacker exactly when one stands on some square below n. */
  lemma {:induction false} AttackedBelowSpec(b: Cells, target: int, defender: PieceColor, n: nat)
    requires IsBoard(b) && n <= 64
    ensures AttackedBelow(b, target, defender, n) <==>
      exists i | 0 <= i < n :: AttackerOn(b, i, target, Opponent(defender))
  {
    if n > 0 {
      AttackedBelowSpec(b, target, defender, n - 1);
    }
  }

  /** An attacker found below n is found by the whole scan. */
  lemma {:induction false} AttackedAbove(b: Cells, target: int, defender: PieceColor, n: nat)
    requires IsBoard(b) && n <= 64 && AttackedBelow(b, target, defender, n)
    ensures SquareAttacked(b, target, defender)
    decreases 64 - n
  {
    if n < 64 {
      AttackedAbove(b, target, defender, n + 1);
    }
  }

  /** The knight offsets are the knight's jumps: for an on-board target they say exactly what
      the knight table says. */
  lemma JumpsAreKnightSteps(i: int, t: int)
    requires IsSquare(i) && IsSquare(t)
    ensures JumpsOnto(i / 8, i % 8, t / 8, t % 8) <==> t in KnightLookup.KnightTargets(i)
  {
    var dr, df := t / 8 - i / 8, t % 8 - i % 8;
    if t in KnightLookup.KnightTargets(i) {
      var j := if dr == 2 && df == 1 then 0 else if dr == 2 && df == -1 then 1
        else if dr == -2 && df == 1 then 2 else if dr == -2 && df == -1 then 3
        else if dr == 1 && df == 2 then 4 else if dr == 1 && df == -2 then 5
        else if dr == -1 && df == 2 then 6 else 7;
      assert i / 8 + KnightJumps[j].0 == t / 8 && i % 8 + KnightJumps[j].1 == t % 8;
    }
  }

  /** Apart from the king's own square, the king's attack rule is the king table's. */
  lemma KingAttackIsKingStep(i: int, t: int)
    requires IsSquare(i) && IsSquare(t) && i != t
    ensures (Abs(i / 8 - t / 8) <= 1 && Abs(i % 8 - t % 8) <= 1) <==> t in KingLookup.KingTargets(i)
  {
    ToIndexOnto(i);
    ToIndexOnto(t);
  }

  // ----- the castling conditions -----

  /** The destination the king is offered for a kingside castle: g1 or g8. */
  function KingsideTarget(c: PieceColor): int
  {
    if c == White then 6 else 62
  }

  /** The destination the king is offered for a queenside castle: c1 or c8. */
  function QueensideTarget(c: PieceColor): int
  {
    if c == White then 2 else 58
  }

  /** Kingside castling for c: pieces that have not moved on files 4 and 7 of c's back rank
      (of any kind and colour), files 5 and 6 empty, and files 4, 5 and 6 not attacked. */
  predicate KingsideOk(b: Cells, c: PieceColor)
    requires IsBoard(b)
  {
    var rank := HomeRank(c);
    var king, rook := b[ToIndex(rank, 4)], b[ToIndex(rank, 7)];
    king.Some? && rook.Some? && !king.value.hasMoved && !rook.value.hasMoved &&
    b[ToIndex(rank, 5)].None? && b[ToIndex(rank, 6)].None? &&
    !SquareAttacked(b, ToIndex(rank, 4), c) && !SquareAttacked(b, ToIndex(rank, 5), c) &&
    !SquareAttacked(b, ToIndex(rank, 6), c)
  }

  /** Queenside castling for c: pieces that have not moved on files 4 and 0, files 1, 2 and 3
      empty, and files 4, 3 and 2 not attacked; file 1 may be attacked. */
  predicate QueensideOk(b: Cells, c: PieceColor)
    requires IsBoard(b)
  {
    var rank := HomeRank(c);
    var king, rook := b[ToIndex(rank, 4)], b[ToIndex(rank, 0)];
    king.Some? && rook.Some? && !king.value.hasMoved && !rook.value.hasMoved &&
    b[ToIndex(rank, 1)].None? && b[ToIndex(rank, 2)].None? && b[ToIndex(rank, 3)].None? &&
    !SquareAttacked(b, ToIndex(rank, 4), c) && !SquareAttacked(b, ToIndex(rank, 3), c) &&
    !SquareAttacked(b, ToIndex(rank, 2), c)
  }

  /** The king destinations offered: kingside first, then queenside. */
  function CastleOffer(b: Cells, c: PieceColor): seq<int>
    requires IsBoard(b)
  {
    (if KingsideOk(b, c) then [KingsideTarget(c)] else []) +
    (if QueensideOk(b, c) then [QueensideTarget(c)] else [])
  }

  /** The offer lists at most the two castling squares of c's back rank, each exactly when its
      condition holds. */
  lemma CastleOfferShape(b: Cells, c: PieceColor)
    requires IsBoard(b)
    ensures |CastleOffer(b, c)| <= 2
    ensures forall j | j in CastleOffer(b, c) :: j == KingsideTarget(c) || j == QueensideTarget(c)
    ensures KingsideTarget(c) in CastleOffer(b, c) <==> KingsideOk(b, c)
    ensures QueensideTarget(c) in CastleOffer(b, c) <==> QueensideOk(b, c)
    ensures forall j | j in CastleOffer(b, c) :: j / 8 == HomeRank(c)
  {
  }

  /** Castling needs the squares between king and rook empty: with the back rank untouched
      since the start, neither side may castle. */
  lemma NoCastleThroughPieces(b: Cells, c: PieceColor)
    requires IsBoard(b)
    requires b[ToIndex(HomeRank(c), 5)].Some? && b[ToIndex(HomeRank(c), 1)].Some?
    ensures CastleOffer(b, c) == []
  {
  }

  // ----- the flags -----

  /** The castling helper's fields, as one value. */
  datatype Flags = Flags(
    castleMoveColor: Option<PieceColor>,
    inProgress: bool,
    canKingside: bool,
    canQueenside: bool,
    kingside: bool,
    queenside: bool,
    rookDestination: int)

  /** The two in-progress flags agree with the side flags, and at most one side is chosen. */
  predicate Consistent(s: Flags)
  {
    s.inProgress == (s.kingside || s.queenside) && !(s.kingside && s.queenside)
  }

  /** The king's move: for a king of castleMoveColor with a castling right, record which side
      its destination castles to; any other move leaves the flags alone. */
  function CheckMove(s: Flags, to: int, piece: Piece): Flags
  {
    if Some(piece.color) == s.castleMoveColor && (s.canQueenside || s.canKingside) && piece.kind == King then
      var k := to == 6 || to == 62;
      var q := !k && (to == 2 || to == 58);
      s.(kingside := k, queenside := q, inProgress := k || q)
    else s
  }

  /** The castle completes when a rook of castleMoveColor lands on the recorded rook
      destination while a castle is in progress: every flag is cleared. */
  function CheckDone(s: Flags, to: int, piece: Piece): Flags
  {
    if piece.kind == Rook && Some(piece.color) == s.castleMoveColor && to == s.rookDestination && s.inProgress then
      Flags(None, false, false, false, false, false, 65)
    else s
  }

  /** The offer: the rights become exactly the two conditions, and castleMoveColor the king's
      colour when something is offered. */
  function Offer(s: Flags, b: Cells, c: PieceColor): Flags
    requires IsBoard(b)
  {
    s.(castleMoveColor := if CastleOffer(b, c) != [] then Some(c) else None,
       canKingside := KingsideOk(b, c),
       canQueenside := QueensideOk(b, c))
  }

  /** The king's move changes nothing unless the piece is a king of castleMoveColor with some
      right; then a castle is in progress exactly when `to` is one of the four castling
      destinations, on the side that destination belongs to. */
  lemma CheckMoveSpec(s: Flags, to: int, piece: Piece)
    ensures var r := CheckMove(s, to, piece);
      !(piece.kind == King && s.castleMoveColor == Some(piece.color) && (s.canKingside || s.canQueenside)) ==> r == s
    ensures var r := CheckMove(s, to, piece);
      piece.kind == King && s.castleMoveColor == Some(piece.color) && (s.canKingside || s.canQueenside) ==>
        (r.inProgress <==> to in {6, 62, 2, 58}) &&
        (r.kingside <==> to in {6, 62}) && (r.queenside <==> to in {2, 58}) &&
        r.castleMoveColor == s.castleMoveColor && r.canKingside == s.canKingside &&
        r.canQueenside == s.canQueenside && r.rookDestination == s.rookDestination
  {
  }

  /** Completion clears every flag exactly when a rook of castleMoveColor reaches the recorded
      destination with a castle in progress, and otherwise changes nothing. */
  lemma CheckDoneSpec(s: Flags, to: int, piece: Piece)
    ensures var r := CheckDone(s, to, piece);
      (piece.kind == Rook && s.castleMoveColor == Some(piece.color) && to == s.rookDestination && s.inProgress) ==>
        r.castleMoveColor == None && !r.inProgress && !r.canKingside && !r.canQueenside &&
        !r.kingside && !r.queenside && r.rookDestination == 65
    ensures var r := CheckDone(s, to, piece);
      !(piece.kind == Rook && s.castleMoveColor == Some(piece.color) && to == s.rookDestination && s.inProgress) ==>
        r == s
  {
  }

  /** Every transition keeps the in-progress flag in step with the side flags. */
  lemma ConsistentKept(s: Flags, b: Cells, c: PieceColor, to: int, piece: Piece)
    requires IsBoard(b) && Consistent(s)
    ensures Consistent(CheckMove(s, to, piece))
    ensures Consistent(CheckDone(s, to, piece))
    ensures Consistent(Offer(s, b, c))
    ensures Consistent(s.(inProgress := false, kingside := false, queenside := false))
  {
  }

  /** Where the castling rook goes: f1/f8 kingside, d1/d8 queenside (queenside wins when both
      are set), 65 when neither is. */
  function CastleRookDestination(color: PieceColor, kingside: bool, queenside: bool): (r: int)
    ensures queenside ==> r == QueensideTarget(color) + 1 && r / 8 == HomeRank(color)
    ensures kingside && !queenside ==> r == KingsideTarget(color) - 1 && r / 8 == HomeRank(color)
    ensures !kingside && !queenside ==> r == 65
  {
    if queenside then (if color == White then 3 else 59)
    else if kingside then (if color == White then 5 else 61)
    else 65
  }

  /** The rook lands on the square the king crossed: beside the king's castling destination,
      towards the centre, on the same back rank. */
  lemma RookDestinationBesideKing(color: PieceColor, kingside: bool, queenside: bool)
    ensures var r := CastleRookDestination(color, kingside, queenside);
      (queenside ==> r == QueensideTarget(color) + 1) &&
      (kingside && !queenside ==> r == KingsideTarget(color) - 1) &&
      (!kingside && !queenside ==> r == 65) &&
      (kingside || queenside ==> r / 8 == HomeRank(color))
  {
  }

  /** The rook test as written: a rook while a castle is in progress, on square 0 when
      castleMoveColor is White and square 3 otherwise, whichever side is castling. */
  function RookSelectedAsWritten(s: Flags, square: int, piece: Piece): bool
  {
    s.inProgress && piece.kind == Rook &&
    (s.queenside || s.kingside) && square == (if s.castleMoveColor == Some(White) then 0 else 3)
  }

  /** The rook test as written rejects the kingside rook White castles with and both rooks
      Black castles with, and accepts a black rook on square 3, on White's back rank. */
  lemma RookSelectedAsWrittenMissesRooks()
    ensures !RookSelectedAsWritten(Flags(Some(White), true, true, false, true, false, 5), 7, NewPiece(Rook, White))
    ensures !RookSelectedAsWritten(Flags(Some(Black), true, true, false, true, false, 61), 63, NewPiece(Rook, Black))
    ensures !RookSelectedAsWritten(Flags(Some(Black), true, false, true, false, true, 59), 56, NewPiece(Rook, Black))
    ensures RookSelectedAsWritten(Flags(Some(Black), true, false, true, false, true, 59), 3, NewPiece(Rook, Black))
  {
  }

  /** The rook square the castling conditions examined for the side in progress: file 7 for
      kingside, file 0 for queenside, on castleMoveColor's back rank. */
  function RookSquare(c: PieceColor, kingside: bool): int
  {
    ToIndex(HomeRank(c), if kingside then 7 else 0)
  }

  /** The rook test with the rook square of the side being castled. */
  function RookSelected(s: Flags, square: int, piece: Piece): bool
  {
    s.inProgress && piece.kind == Rook && s.castleMoveColor.Some? &&
    ((s.kingside && square == RookSquare(s.castleMoveColor.value, true)) ||
     (s.queenside && square == RookSquare(s.castleMoveColor.value, false)))
  }

  /** With consistent flags, the rook accepted is exactly the rook the matching castling
      condition checked, and its destination is the square beside the king's destination. */
  lemma RookSelectedSpec(s: Flags, square: int, piece: Piece)
    requires Consistent(s) && s.castleMoveColor.Some?
    ensures var c := s.castleMoveColor.value;
      RookSelected(s, square, piece) <==>
        s.inProgress && piece.kind == Rook &&
        square == ToIndex(HomeRank(c), if s.kingside then 7 else 0)
    ensures var c := s.castleMoveColor.value;
      RookSelected(s, square, piece) ==>
        (s.kingside ==> CastleRookDestination(c, true, false) == square - 2) &&
        (s.queenside ==> CastleRookDestination(c, false, true) == square + 3)
  {
  }

  /** The offer and the new flags, given the outcomes of the two castling conditions. */
  lemma OfferByFlags(s: Flags, b: Cells, c: PieceColor, kingside: bool, queenside: bool,
                     moves: seq<int>, r: Flags)
    requires IsBoard(b)
    requires kingside == KingsideOk(b, c)
    requires queenside == QueensideOk(b, c)
    requires moves == (if kingside then [KingsideTarget(c)] else []) + (if queenside then [QueensideTarget(c)] else [])
    requires r.castleMoveColor == (if kingside || queenside then Some(c) else None)
    requires r.canKingside == kingside
    requires r.canQueenside == queenside
    requires r == s.(castleMoveColor := r.castleMoveColor, canKingside := kingside, canQueenside := queenside)
    ensures moves == CastleOffer(b, c) && r == Offer(s, b, c)
  {
  }

  // ----- the helper object -----

  class CastlingHelper {
    var castleMoveColor: Option<PieceColor>
    var isCastlingInProgress: bool
    var canKingsideCastle: bool
    var canQueensideCastle: bool
    var isKingsideCastle: bool
    var isQueensideCastle: bool
    var selectedDestinationForRook: int

    /** All the fields together. */
    function State(): Flags
      reads this
    {
      Flags(castleMoveColor, isCastlingInProgress, canKingsideCastle, canQueensideCastle,
            isKingsideCastle, isQueensideCastle, selectedDestinationForRook)
    }

    /** Every flag false, no colour, rook destination 0. */
    constructor ()
      ensures State() == Flags(None, false, false, false, false, false, 0)
    {
      castleMoveColor := None;
      isCastlingInProgress := false;
      canKingsideCastle := false;
      canQueensideCastle := false;
      isKingsideCastle := false;
      isQueensideCastle := false;
      selectedDestinationForRook := 0;
    }

    method CheckMoveIsCastleMove(to: int, piece: Piece)
      modifies this
      ensures State() == CheckMove(old(State()), to, piece)
    {
      if Some(piece.color) == castleMoveColor && (canQueensideCastle || canKingsideCastle) && piece.kind == King {
        ResetInprogressCastlingFlags();
        if to == 6 || to == 62 {
          isKingsideCastle := true;
        } else if to == 2 || to == 58 {
          isQueensideCastle := true;
        }
        isCastlingInProgress := isKingsideCastle || isQueensideCastle;
      }
    }

    method ResetInprogressCastlingFlags()
      modifies this
      ensures State() == old(State()).(inProgress := false, kingside := false, queenside := false)
    {
      isKingsideCastle := false;
      isQueensideCastle := false;
      isCastlingInProgress := false;
    }

    method CanCastleKingside(board: array<Option<Piece>>, color: PieceColor) returns (can: bool)
      requires board.Length == 64
      ensures can == KingsideOk(board[..], color)
    {
      var rank := if color == White then 0 else 7;
      var kingSquare := ToIndex(rank, 4);
      var rookSquare := ToIndex(rank, 7);
      var king, rook := board[kingSquare], board[rookSquare];
      if king == None || rook == None {
        return false;
      }
      if king.value.hasMoved || rook.value.hasMoved {
        return false;
      }
      if board[ToIndex(rank, 5)] != None {
        return false;
      }
      if board[ToIndex(rank, 6)] != None {
        return false;
      }
      var a4 := IsSquareAttacked(board, kingSquare, color);
      if a4 {
        return false;
      }
      var a5 := IsSquareAttacked(board, ToIndex(rank, 5), color);
      if a5 {
        return false;
      }
      var a6 := IsSquareAttacked(board, ToIndex(rank, 6), color);
      if a6 {
        return false;
      }
      return true;
    }

    method CanCastleQueenside(board: array<Option<Piece>>, color: PieceColor) returns (can: bool)
      requires board.Length == 64
      ensures can == QueensideOk(board[..], color)
    {
      var rank := if color == White then 0 else 7;
      var kingSquare := ToIndex(rank, 4);
      var rookSquare := ToIndex(rank, 0);
      var king, rook := board[kingSquare], board[rookSquare];
      if king == None || rook == None {
        return false;
      }
      if king.value.hasMoved || rook.value.hasMoved {
        return false;
      }
      if board[ToIndex(rank, 1)] != None {
        return false;
      }
      if board[ToIndex(rank, 2)] != None {
        return false;
      }
      if board[ToIndex(rank, 3)] != None {
        return false;
      }
      var a4 := IsSquareAttacked(board, kingSquare, color);
      if a4 {
        return false;
      }
      var a3 := IsSquareAttacked(board, ToIndex(rank, 3), color);
      if a3 {
        return false;
      }
      var a2 := IsSquareAttacked(board, ToIndex(rank, 2), color);
      if a2 {
        return false;
      }
      return true;
    }

    /** Scan the board for a piece of the other colour that attacks `targetSquare`. */
    method IsSquareAttacked(board: array<Option<Piece>>, targetSquare: int, defenderColor: PieceColor)
      returns (attacked: bool)
      requires board.Length == 64 && IsSquare(targetSquare)
      ensures attacked == SquareAttacked(board[..], targetSquare, defenderColor)
    {
      var attackerColor := if defenderColor == White then Black else White;
      assert attackerColor == Opponent(defenderColor);
      var targetRank, targetFile := targetSquare / 8, targetSquare % 8;
      for i := 0 to 64
        invariant !AttackedBelow(board[..], targetSquare, defenderColor, i)
      {
        var piece := board[i];
        if piece == None || piece.value.color != attackerColor {
          continue;
        }
        var hit := PieceAttacks(board, i, piece.value, targetRank, targetFile);
        if hit {
          AttackedAbove(board[..], targetSquare, defenderColor, i + 1);
          return true;
        }
      }
      return false;
    }

    /** The body of the scan: the switch on the attacker's kind. */
    method PieceAttacks(board: array<Option<Piece>>, i: int, piece: Piece, targetRank: int, targetFile: int)
      returns (hit: bool)
      requires board.Length == 64 && IsSquare(i)
      ensures hit == Attacks(board[..], i, piece, targetRank, targetFile)
    {
      var rank, file := i / 8, i % 8;
      match piece.kind
      case Rook =>
        hit := SlideAny(board, rank, file, 0, 4, targetRank, targetFile);
      case Bishop =>
        hit := SlideAny(board, rank, file, 4, 8, targetRank, targetFile);
      case Queen =>
        hit := SlideAny(board, rank, file, 0, 8, targetRank, targetFile);
      case Knight =>
        hit := false;
        for j := 0 to 8
          invariant forall m | 0 <= m < j ::
            !(rank + KnightJumps[m].0 == targetRank && file + KnightJumps[m].1 == targetFile)
        {
          var nr, nf := rank + KnightJumps[j].0, file + KnightJumps[j].1;
          if nr == targetRank && nf == targetFile {
            return true;
          }
        }
      case Pawn =>
        var dir := if piece.color == White then 1 else -1;
        hit := rank + dir == targetRank && Abs(file - targetFile) == 1;
      case King =>
        hit := Abs(rank - targetRank) <= 1 && Abs(file - targetFile) <= 1;
    }

    /** The direction loop: try Directions[lo..hi] in order, stopping at the first that reaches. */
    method SlideAny(board: array<Option<Piece>>, rank: int, file: int, lo: int, hi: int,
                    targetRank: int, targetFile: int) returns (hit: bool)
      requires board.Length == 64 && 0 <= lo <= hi <= 8
      ensures hit == SlidesOnto(board[..], rank, file, lo, hi, targetRank, targetFile)
    {
      for k := lo to hi
        invariant forall m | lo <= m < k ::
          !SlideReaches(board[..], rank + Directions[m].0, file + Directions[m].1, Directions[m], targetRank, targetFile)
      {
        var d := Directions[k];
        var reaches := CanSlideAttack(board, rank, file, d.0, d.1, targetRank, targetFile);
        if reaches {
          return true;
        }
      }
      return false;
    }

    /** Step from (r, f) along (dr, df): the target reached first means an attack, an occupied
        square reached first or the board's edge means none. */
    method CanSlideAttack(board: array<Option<Piece>>, r: int, f: int, dr: int, df: int,
                          targetRank: int, targetFile: int) returns (reaches: bool)
      requires board.Length == 64 && Unit((dr, df))
      ensures reaches == SlideReaches(board[..], r + dr, f + df, (dr, df), targetRank, targetFile)
    {
      var cr, cf := r + dr, f + df;
      while cr >= 0 && cr < 8 && cf >= 0 && cf < 8
        invariant SlideReaches(board[..], cr, cf, (dr, df), targetRank, targetFile) ==
                  SlideReaches(board[..], r + dr, f + df, (dr, df), targetRank, targetFile)
        decreases Steps(cr, cf, (dr, df))
      {
        var idx := ToIndex(cr, cf);
        if cr == targetRank && cf == targetFile {
          return true;
        }
        if board[idx] != None {
          return false;
        }
        cr, cf := cr + dr, cf + df;
      }
      return false;
    }

    method ResetCastlingFlagsWhenCompleted()
      modifies this
      ensures old(isCastlingInProgress) ==> State() == Flags(None, false, false, false, false, false, 65)
      ensures !old(isCastlingInProgress) ==> State() == old(State())
    {
      if isCastlingInProgress {
        castleMoveColor := None;
        isCastlingInProgress := false;
        canKingsideCastle := false;
        canQueensideCastle := false;
        isKingsideCastle := false;
        isQueensideCastle := false;
        selectedDestinationForRook := 65;
      }
    }

    method CheckCastlingDone(to: int, piece: Piece)
      modifies this
      ensures State() == CheckDone(old(State()), to, piece)
    {
      if piece.kind == Rook && Some(piece.color) == castleMoveColor && to == selectedDestinationForRook {
        ResetCastlingFlagsWhenCompleted();
      }
    }

    /** The rook test, as written (see RookSelectedAsWritten). */
    method IsCastlingInProgressAndCorrectRookPieceSelected(square: int, piece: Piece) returns (result: bool)
      ensures result == RookSelectedAsWritten(State(), square, piece)
    {
      result := false;
      if isCastlingInProgress && piece.kind == Rook {
        if isQueensideCastle && square == (if castleMoveColor == Some(White) then 0 else 3) {
          result := true;
        } else if isKingsideCastle && square == (if castleMoveColor == Some(White) then 0 else 3) {
          result := true;
        } else {
          result := false;
        }
      }
    }

    /** Offer the castles the king may make, and record the rights and the colour. */
    method GetCastleMoveIfCan(board: array<Option<Piece>>, king: Piece) returns (moves: seq<int>)
      requires board.Length == 64
      modifies this
      ensures moves == CastleOffer(board[..], king.color)
      ensures State() == Offer(old(State()), board[..], king.color)
    {
      ghost var start := State();
      moves := [];
      ResetBeforeCastleMoveControlFlag();
      var kingside := CanCastleKingside(board, king.color);
      if kingside {
        moves := RecordCastle(moves, king.color, true);
      }
      var queenside := CanCastleQueenside(board, king.color);
      if queenside {
        moves := RecordCastle(moves, king.color, false);
      }
      OfferByFlags(start, board[..], king.color, kingside, queenside, moves, State());
    }

    /** One offered castle: its king destination is appended and the side's right recorded. */
    method RecordCastle(moves: seq<int>, color: PieceColor, kingside: bool) returns (r: seq<int>)
      modifies this
      ensures r == moves + [if kingside then KingsideTarget(color) else QueensideTarget(color)]
      ensures State() == old(State()).(castleMoveColor := Some(color),
        canKingside := kingside || old(canKingsideCastle), canQueenside := !kingside || old(canQueensideCastle))
    {
      if kingside {
        var to := if color == White then 6 else 62;
        r := moves + [to];
        castleMoveColor := Some(color);
        canKingsideCastle := true;
      } else {
        var to := if color == White then 2 else 58;
        r := moves + [to];
        castleMoveColor := Some(color);
        canQueensideCastle := true;
      }
    }

    method ResetBeforeCastleMoveControlFlag()
      modifies this
      ensures State() == old(State()).(castleMoveColor := None, canKingside := false, canQueenside := false)
    {
      castleMoveColor := None;
      canKingsideCastle := false;
      canQueensideCastle := false;
    }
  }
}
