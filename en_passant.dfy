/** The en passant tracker: the target square a two-square pawn advance leaves behind, the
    offer of that target to a pawn beside it, and the removal of the captured pawn.
    `CheckEnPassant` is modelled as written (`OfferAsWritten`); `Offer` is the test the setter
    and `ExecuteEnPassant` call for, and the lemmas below set the two side by side. */
module EnPassant {
  import opened ChessTypes
  import opened BitBoard
  import opened MoveGen

  /** The target a move leaves behind: after a pawn moves by exactly 16 squares, the square
      between origin and destination (`(from + to) / 2`); after any other move, none. */
  function TargetAfter(from: int, to: int, piece: Piece): (t: Option<int>)
    ensures t.Some? <==> piece.kind == Pawn && Abs(to - from) == 16
    ensures t.Some? ==>
      (to == from + 16 && t.value == from + 8) || (to == from - 16 && t.value == from - 8)
    ensures t.Some? && IsSquare(from) && IsSquare(to) ==> 8 <= t.value < 56
  {
    if piece.kind == Pawn && Abs(to - from) == 16 then Some(Quot(from + to, 2)) else None
  }

  /** The square the captured pawn stands on when a pawn of colour c captures en passant onto
      `to`: one rank back from `to`, as seen by the capturer. */
  function CapturedSquare(to: int, c: PieceColor): int
  {
    if c == White then to - 8 else to + 8
  }

  /** A pawn move onto the recorded target. */
  predicate IsEnPassantMove(ep: Option<int>, to: int, piece: Piece)
  {
    piece.kind == Pawn && ep.Some? && to == ep.value
  }

  /** The rank and file test of the check as written: the mover stands on the target's own rank,
      one file away (rank and file by C#'s truncating `/` and `%`). */
  predicate Beside(square: int, e: int)
  {
    Quot(square, 8) == Quot(e, 8) && Abs(Rem(square, 8) - Rem(e, 8)) == 1
  }

  /** The two board reads of the check as written are on the board whenever they happen: the
      captured square once the rank and file test passes, the target once that square is empty. */
  predicate ReadsInRange(b: Cells, ep: Option<int>, square: int, c: PieceColor)
    requires IsBoard(b)
  {
    ep.Some? && Beside(square, ep.value) ==>
      IsSquare(CapturedSquare(ep.value, c)) &&
      (b[CapturedSquare(ep.value, c)].None? ==> IsSquare(ep.value))
  }

  /** Slot i holds a pawn of the colour opposite to c. */
  predicate EnemyPawn(b: Cells, i: int, c: PieceColor)
    requires IsBoard(b) && IsSquare(i)
  {
    b[i].Some? && b[i].value.kind == Pawn && b[i].value.color != c
  }

  /** The en passant offer as written: with a target e, a mover beside e on e's rank gets e when
      `CapturedSquare(e)` is empty and e itself holds an enemy pawn. */
  function OfferAsWritten(b: Cells, ep: Option<int>, square: int, piece: Piece): seq<int>
    requires IsBoard(b) && ReadsInRange(b, ep, square, piece.color)
  {
    if ep.Some? && Beside(square, ep.value) then
      var e := ep.value;
      if b[CapturedSquare(e, piece.color)].None? && EnemyPawn(b, e, piece.color) then [e] else []
    else []
  }

  /** The offer as written holds at most the target, and the target it offers is on the mover's
      own rank, one file across: a sideways step, which no pawn makes. */
  lemma OfferAsWrittenSideways(b: Cells, ep: Option<int>, square: int, piece: Piece)
    requires IsBoard(b) && ReadsInRange(b, ep, square, piece.color)
    ensures var r := OfferAsWritten(b, ep, square, piece);
      r == [] || (ep.Some? && r == [ep.value] && (ep.value == square + 1 || ep.value == square - 1))
  {
    if ep.Some? && Beside(square, ep.value) {
      var e := ep.value;
      assert e - square == Rem(e, 8) - Rem(square, 8);
    }
  }

  /** After a two-square advance played as the move generator offers it, the target recorded for
      it is empty, so the check as written offers nothing to any piece on any square. */
  lemma OfferAsWrittenAfterDoublePush(b: Cells, from: int, to: int, square: int, piece: Piece)
    requires IsBoard(b) && IsSquare(from) && b[from].Some? && b[from].value.kind == Pawn
    requires IsSquare(to) && to in PawnMoves(b, from, b[from].value.color) && Abs(to - from) == 16
    ensures var b2, ep := MoveOnBoard(b, from, to), TargetAfter(from, to, b[from].value);
      ReadsInRange(b2, ep, square, piece.color) && OfferAsWritten(b2, ep, square, piece) == []
  {
    var p := b[from].value;
    var dir := Forward(p.color);
    var mid := DoublePushPassesEmpty(b, from, to);
    var b2 := MoveOnBoard(b, from, to);
    assert TargetAfter(from, to, p) == Some(mid);
    assert b2[mid] == None;
  }

  /** A 16-square destination of a pawn is its double push: it passes over the empty square
      `mid`, which lies strictly between origin and destination, on the board. */
  lemma DoublePushPassesEmpty(b: Cells, from: int, to: int) returns (mid: int)
    requires IsBoard(b) && IsSquare(from) && b[from].Some?
    requires IsSquare(to) && to in PawnMoves(b, from, b[from].value.color) && Abs(to - from) == 16
    ensures var dir := Forward(b[from].value.color);
      OnHomeRank(b[from].value.color, from / 8) &&
      mid == from + 8 * dir && to == from + 16 * dir && 8 <= mid < 56 && b[mid].None?
  {
    var c := b[from].value.color;
    var rank, file, dir := from / 8, from % 8, Forward(c);
    PawnMovesMember(b, from, c, to);
    mid := ToIndex(rank + dir, file);
  }

  /** The en passant offer the setter and `ExecuteEnPassant` call for: the target e is offered to
      a pawn one rank behind it (as the pawn moves) on an adjacent file, when e is empty and the
      square beside the mover that `ExecuteEnPassant` clears holds an enemy pawn. */
  function Offer(b: Cells, ep: Option<int>, square: int, piece: Piece): seq<int>
    requires IsBoard(b) && (ep.Some? ==> 8 <= ep.value < 56)
  {
    if ep.Some? && Quot(square, 8) == Quot(ep.value, 8) - Forward(piece.color) &&
       Abs(Rem(square, 8) - Rem(ep.value, 8)) == 1 then
      var e := ep.value;
      if b[e].None? && EnemyPawn(b, CapturedSquare(e, piece.color), piece.color) then [e] else []
    else []
  }

  /** The corrected offer holds at most the target; the target is a forward diagonal of the mover,
      and the pawn to be captured stands right beside the mover. */
  lemma OfferDiagonal(b: Cells, ep: Option<int>, square: int, piece: Piece)
    requires IsBoard(b) && (ep.Some? ==> 8 <= ep.value < 56)
    ensures var r := Offer(b, ep, square, piece);
      r == [] ||
      (ep.Some? && r == [ep.value] && b[ep.value].None? &&
       (ep.value == square + 8 * Forward(piece.color) + 1 || ep.value == square + 8 * Forward(piece.color) - 1) &&
       (CapturedSquare(ep.value, piece.color) == square + 1 || CapturedSquare(ep.value, piece.color) == square - 1))
  {
    if Offer(b, ep, square, piece) != [] {
      var e := ep.value;
      assert e - square == 8 * Forward(piece.color) + Rem(e, 8) - Rem(square, 8);
    }
  }

  /** The corrected offer after an enemy's two-square advance: a pawn standing beside the
      advanced pawn is offered the passed-over square, and capturing there clears exactly the
      square the advanced pawn stands on. */
  lemma OfferAfterDoublePush(b: Cells, from: int, to: int, square: int, piece: Piece)
    requires IsBoard(b) && IsSquare(from) && b[from].Some? && b[from].value.kind == Pawn
    requires IsSquare(to) && to in PawnMoves(b, from, b[from].value.color) && Abs(to - from) == 16
    requires IsSquare(square) && square / 8 == to / 8 && Abs(square % 8 - to % 8) == 1
    requires b[square] == Some(piece) && piece.kind == Pawn && piece.color != b[from].value.color
    ensures var b2, ep := MoveOnBoard(b, from, to), TargetAfter(from, to, b[from].value);
      ep.Some? && 8 <= ep.value < 56 && Offer(b2, ep, square, piece) == [ep.value] &&
      CapturedSquare(ep.value, piece.color) == to
  {
    var p := b[from].value;
    var rank, file, dir := from / 8, from % 8, Forward(p.color);
    var mid := DoublePushPassesEmpty(b, from, to);
    var b2 := MoveOnBoard(b, from, to);
    assert mid == ToIndex(rank + dir, file) && to == ToIndex(rank + 2 * dir, file);
    assert Forward(piece.color) == -dir;
    assert Quot(mid, 8) == rank + dir && Rem(mid, 8) == file;
    assert b2[to] == Some(p);
  }

  /** The moves that `IsEnPassantMove` recognises after a move are exactly pawn moves onto the
      square a pawn's two-square advance has just passed over. */
  lemma EnPassantMoveAfter(from: int, to: int, p: Piece, t: int, q: Piece)
    ensures IsEnPassantMove(TargetAfter(from, to, p), t, q) <==>
      q.kind == Pawn && p.kind == Pawn &&
      ((to == from + 16 && t == from + 8) || (to == from - 16 && t == from - 8))
  {
  }

  class EnPassantHelper {
    var enPassantSquare: Option<int>

    /** No target is recorded at first. */
    constructor ()
      ensures enPassantSquare == None
    {
      enPassantSquare := None;
    }

    /** Append the target to `moves` when the test as written passes (see OfferAsWritten). */
    method CheckEnPassant(board: array<Option<Piece>>, square: int, piece: Piece, moves: seq<int>)
      returns (result: seq<int>)
      requires board.Length == 64 && ReadsInRange(board[..], enPassantSquare, square, piece.color)
      ensures result == moves + OfferAsWritten(board[..], enPassantSquare, square, piece)
    {
      result := moves;
      if enPassantSquare.Some? {
        var row, col := Quot(square, 8), Rem(square, 8);
        var ep := enPassantSquare.value;
        var epRow, epCol := Quot(ep, 8), Rem(ep, 8);
        if row == epRow && Abs(col - epCol) == 1 {
          var captureSquare := if piece.color == White then ep - 8 else ep + 8;
          if board[captureSquare] == None && board[ep] != None &&
             board[ep].value.kind == Pawn && board[ep].value.color != piece.color {
            result := moves + [ep];
          }
        }
      }
    }

    /** Clear the square of the pawn captured by a pawn of `piece`'s colour landing on `to`. */
    method ExecuteEnPassant(board: array<Option<Piece>>, to: int, piece: Piece)
      requires board.Length == 64 && IsSquare(CapturedSquare(to, piece.color))
      modifies board
      ensures board[..] == old(board[..])[CapturedSquare(to, piece.color) := None]
    {
      var capturedPawnSquare := if piece.color == White then to - 8 else to + 8;
      board[capturedPawnSquare] := None;
    }

    method MoveIsEnPassant(to: int, piece: Piece) returns (r: bool)
      ensures r == IsEnPassantMove(enPassantSquare, to, piece)
    {
      r := piece.kind == Pawn && enPassantSquare.Some? && to == enPassantSquare.value;
    }

    /** Record the target the move from -> to leaves behind, or clear it. */
    method SetEnPassantSquareForNextMoveIfExist(from: int, to: int, piece: Piece)
      modifies this
      ensures enPassantSquare == TargetAfter(from, to, piece)
    {
      if piece.kind == Pawn && Abs(to - from) == 16 {
        enPassantSquare := Some(Quot(from + to, 2));
      } else {
        enPassantSquare := None;
      }
    }
  }
}
