/** The promotion tracker: the square on which a pawn reached its last rank, and the replacement
    of the piece on a square by a new piece of the chosen type and the same colour. */
module Promotion {
  import opened ChessTypes
  import opened BitBoard
  import opened MoveGen

  /** The rank a pawn of colour c promotes on: 7 for White, 0 for Black. */
  function LastRank(c: PieceColor): int
  {
    if c == White then 7 else 0
  }

  /** A move of `piece` onto `to` promotes: a pawn lands on its last rank (the rank taken with
      C#'s truncating division). */
  predicate Promotes(to: int, piece: Piece)
  {
    piece.kind == Pawn && Quot(to, 8) == LastRank(piece.color)
  }

  /** The pending square after a move onto `to`: `to` when the move promotes, and otherwise the
      square that was pending before, which is kept rather than cleared. */
  function PendingAfter(pending: Option<int>, to: int, piece: Piece): Option<int>
  {
    if Promotes(to, piece) then Some(to) else pending
  }

  /** On the board, a move records its destination exactly when a pawn lands on squares 56 to 63
      (White) or 0 to 7 (Black), and leaves the pending square alone otherwise. */
  lemma PendingAfterSpec(pending: Option<int>, to: int, piece: Piece)
    requires IsSquare(to)
    ensures var lands := piece.kind == Pawn &&
        (if piece.color == White then 56 <= to < 64 else 0 <= to < 8);
      (lands ==> PendingAfter(pending, to, piece) == Some(to)) &&
      (!lands ==> PendingAfter(pending, to, piece) == pending)
  {
  }

  /** A destination the move generator offers a pawn promotes exactly when the pawn starts on
      the rank before its last one. */
  lemma {:induction false} PromotesFromLastButOne(b: Cells, from: int, to: int)
    requires IsBoard(b) && IsSquare(from) && b[from].Some? && b[from].value.kind == Pawn
    requires to in PawnMoves(b, from, b[from].value.color)
    ensures Promotes(to, b[from].value) <==>
      from / 8 == LastRank(b[from].value.color) - Forward(b[from].value.color)
  {
    var c := b[from].value.color;
    var rank, file, dir := from / 8, from % 8, Forward(c);
    PawnMovesMember(b, from, c, to);
    if OnHomeRank(c, rank) && b[ToIndex(rank + dir, file)].None? &&
       b[ToIndex(rank + 2 * dir, file)].None? && to == ToIndex(rank + 2 * dir, file) {
      assert to / 8 == rank + 2 * dir;
    } else {
      assert to / 8 == rank + dir;
    }
  }

  /** The board after promoting on `sq`: an occupied square gets a fresh piece of type t and the
      same colour; an empty square is left as it is. */
  function Promoted(b: Cells, sq: int, t: PieceType): (r: Cells)
    requires IsBoard(b) && IsSquare(sq)
    ensures IsBoard(r)
  {
    if b[sq].None? then b else b[sq := Some(NewPiece(t, b[sq].value.color))]
  }

  /** Promotion keeps every square's occupancy and colour, touches no square but `sq`, leaves
      the piece on `sq` of type t and unmoved, and promoting twice is promoting once. */
  lemma PromotedSpec(b: Cells, sq: int, t: PieceType)
    requires IsBoard(b) && IsSquare(sq)
    ensures var r := Promoted(b, sq, t);
      forall i | 0 <= i < 64 ::
        (r[i].Some? <==> b[i].Some?) && (r[i].Some? ==> r[i].value.color == b[i].value.color) &&
        (i != sq ==> r[i] == b[i])
    ensures var r := Promoted(b, sq, t);
      r[sq].Some? ==> r[sq].value.kind == t && !r[sq].value.hasMoved
    ensures Promoted(Promoted(b, sq, t), sq, t) == Promoted(b, sq, t)
  {
  }

  class PromotionHelper {
    var pendingPromotionSquare: Option<int>

    /** Nothing is pending at first. */
    constructor ()
      ensures pendingPromotionSquare == None
    {
      pendingPromotionSquare := None;
    }

    /** Record `to` when a pawn lands on its last rank; keep the pending square otherwise. */
    method CheckPromotion(to: int, piece: Piece)
      modifies this
      ensures pendingPromotionSquare == PendingAfter(old(pendingPromotionSquare), to, piece)
    {
      var toRank := Quot(to, 8);
      if piece.kind == Pawn && ((piece.color == White && toRank == 7) || (piece.color == Black && toRank == 0)) {
        pendingPromotionSquare := Some(to);
      }
    }

    /** Replace the piece on `promotionSquare` by a new piece of `newType`, keeping its colour;
        the pending square is not cleared. */
    method PromotePawn(board: array<Option<Piece>>, promotionSquare: int, newType: PieceType)
      requires board.Length == 64 && IsSquare(promotionSquare)
      modifies board
      ensures board[..] == Promoted(old(board[..]), promotionSquare, newType)
    {
      if board[promotionSquare] != None {
        board[promotionSquare] := Some(NewPiece(newType, board[promotionSquare].value.color));
      }
    }
  }
}
