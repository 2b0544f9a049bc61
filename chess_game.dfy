/** The game object: a 64-slot board, the side to move, and the move listing with its check
    filter. The static lookup tables the game consults are built once, by `BuildTables`, and
    held by the game as `tables`. */
module Game {
  import opened ChessTypes
  import opened BitBoard
  import opened MoveGen
  import opened Rules
  import KnightLookup
  import KingLookup
  import BishopLookup
  import RookLookup
  import QueenLookup
  import BoardHelper
  import MovementHelper

  /** The five lookup tables the game reads, as built by their static constructors. */
  datatype Tables = Tables(knight: seq<Mask>, king: seq<Mask>, bishop: seq<Mask>,
                           rook: seq<Mask>, queen: seq<Mask>)

  predicate Built(t: Tables)
  {
    KnightLookup.IsKnightTable(t.knight) && KingLookup.IsKingTable(t.king) &&
    BishopLookup.IsBishopTable(t.bishop) && RookLookup.IsRookTable(t.rook) &&
    QueenLookup.IsQueenTable(t.queen)
  }

  /** Run the static constructors; the queen table is built from the bishop and rook tables. */
  method BuildTables() returns (t: Tables)
    ensures Built(t)
  {
    var knight := KnightLookup.BuildMoves();
    var king := KingLookup.BuildMoves();
    var bishop := BishopLookup.BuildMoves();
    var rook := RookLookup.BuildMoves();
    var queen := QueenLookup.BuildMoves(bishop[..], rook[..]);
    t := Tables(knight[..], king[..], bishop[..], rook[..], queen[..]);
  }

  class ChessGame {
    const board: array<Option<Piece>>
    var turn: PieceColor
    const tables: Tables

    ghost predicate Valid()
      reads this
    {
      board.Length == 64 && Built(tables)
    }

    /** A new game: the standard position on an otherwise empty board, White to move. */
    constructor ()
      ensures Valid() && fresh(board)
      ensures turn == White
      ensures board[..] == BoardHelper.InitialBoard()
    {
      var t := BuildTables();
      board := new Option<Piece>[64](_ => None);
      turn := White;
      tables := t;
      new;
      assert board[..] == seq(64, _ => None);
      SetupInitialPosition();
    }

    /** Place both sides' pieces; squares 16 to 47 are not written. */
    method SetupInitialPosition()
      requires Valid()
      modifies board
      ensures board[..] == BoardHelper.Setup(old(board[..]))
    {
      BoardHelper.SetupInitialPosition(board);
    }

    method GetPieceAt(square: int) returns (p: Option<Piece>)
      requires Valid() && IsSquare(square)
      ensures p == board[square]
    {
      p := board[square];
    }

    /** Move whatever is on `from` to `to` and pass the turn; an empty origin is a no-op. */
    method MovePiece(from: int, to: int)
      requires Valid() && IsSquare(from) && IsSquare(to)
      modifies this, board
      ensures Valid()
      ensures old(board[from]).None? ==> board[..] == old(board[..]) && turn == old(turn)
      ensures old(board[from]).Some? ==>
        board[..] == MoveOnBoard(old(board[..]), from, to) && turn == Opponent(old(turn))
    {
      var piece := board[from];
      if piece == None {
        return;
      }
      board[to] := piece;
      board[from] := None;
      turn := if turn == White then Black else White;
    }

    method GetSimpleMoves(from: int, moveMask: Mask, color: PieceColor) returns (result: seq<int>)
      requires Valid()
      ensures result == SimpleMoves(board[..], moveMask, color)
    {
      result := MovementHelper.GetSimpleMoves(board, from, moveMask, color);
    }

    method GetSlidingMoves(from: int, moveMask: Mask, color: PieceColor, directions: seq<(int, int)>)
      returns (result: seq<int>)
      requires Valid() && IsSquare(from)
      requires forall k | 0 <= k < |directions| :: Unit(directions[k])
      ensures result == SlidingMoves(board[..], from, color, directions)
    {
      result := MovementHelper.GetSlidingMoves(board, from, moveMask, color, directions);
    }

    method GetPawnMoves(from: int, color: PieceColor) returns (result: seq<int>)
      requires Valid() && IsSquare(from)
      ensures result == PawnMoves(board[..], from, color)
    {
      result := MovementHelper.GetPawnMoves(board, from, color);
    }

    /** The switch on the piece's kind shared by the move listing and the check test: the
        generator the kind selects, fed that kind's lookup mask for `square`. */
    method MovesFor(square: int, p: Piece) returns (moves: seq<int>)
      requires Valid() && IsSquare(square) && board[square] == Some(p)
      ensures moves == PseudoMoves(board[..], square)
    {
      match p.kind
      case Pawn =>
        moves := GetPawnMoves(square, p.color);
      case Knight =>
        moves := GetSimpleMoves(square, tables.knight[square], p.color);
      case Bishop =>
        moves := GetSlidingMoves(square, tables.bishop[square], p.color, BishopDirs);
      case Rook =>
        moves := GetSlidingMoves(square, tables.rook[square], p.color, RookDirs);
      case Queen =>
        moves := GetSlidingMoves(square, tables.queen[square], p.color, QueenDirs);
      case King =>
        moves := GetSimpleMoves(square, tables.king[square], p.color);
    }

    /** The destinations of the piece on `square` that do not leave its own king in check.
        Each candidate is played on the board, checked, and taken back. */
    method GetAvailableMoves(square: int) returns (legalMoves: seq<int>)
      requires Valid() && IsSquare(square)
      modifies board
      ensures board[..] == old(board[..])
      ensures legalMoves == LegalMoves(old(board[..]), square)
      ensures old(board[square]).None? ==> legalMoves == []
    {
      var piece := board[square];
      if piece == None {
        return [];
      }
      var moves := MovesFor(square, piece.value);
      ghost var start := board[..];
      PseudoMovesSafe(start, square);
      legalMoves := [];
      for k := 0 to |moves|
        invariant board[..] == start
        invariant legalMoves == KeepSafe(start, square, moves[..k])
      {
        var move := moves[k];
        var safe := TryMove(square, piece.value, move);
        if safe {
          legalMoves := legalMoves + [move];
        }
        assert moves[..k + 1][..k] == moves[..k];
      }
      assert moves[..|moves|] == moves;
    }

    /** The body of the filter loop: play square -> move, ask whether the mover's king is in
        check, then put the moved piece and the captured slot back. */
    method TryMove(square: int, piece: Piece, move: int) returns (safe: bool)
      requires Valid() && IsSquare(square) && IsSquare(move) && board[square] == Some(piece)
      modifies board
      ensures board[..] == old(board[..])
      ensures safe == SafeAfter(old(board[..]), square, move)
    {
      ghost var start := board[..];
      var captured := board[move];
      board[move] := Some(piece);
      board[square] := None;
      assert board[..] == MoveOnBoard(start, square, move);
      var inCheck := IsKingInCheck(piece.color);
      safe := !inCheck;
      board[square] := Some(piece);
      board[move] := captured;
      assert board[..] == start;
    }

    /** Find the first king of `color`; with none, report check. Otherwise report check as
        soon as an enemy piece lists the king's square among its destinations. */
    method IsKingInCheck(color: PieceColor) returns (inCheck: bool)
      requires Valid()
      ensures inCheck == InCheck(board[..], color)
    {
      var kingSquare := FindKing(color);
      if kingSquare == -1 {
        return true;
      }
      for i := 0 to 64
        invariant forall j | 0 <= j < i :: !Threatens(board[..], j, kingSquare, color)
      {
        var p := board[i];
        if p != None && p.value.color != color {
          var moves := MovesFor(i, p.value);
          if kingSquare in moves {
            assert Threatens(board[..], i, kingSquare, color);
            return true;
          }
        }
      }
      return false;
    }

    /** The king search: scan upwards and stop at the first king of `color`; -1 when there is none. */
    method FindKing(color: PieceColor) returns (kingSquare: int)
      requires Valid()
      ensures kingSquare == KingSquare(board[..], color)
    {
      kingSquare := -1;
      for i := 0 to 64
        invariant kingSquare == -1 && FirstKing(board[..], color, i) == -1
      {
        var p := board[i];
        if p != None && p.value.kind == King && p.value.color == color {
          kingSquare := i;
          FirstKingStays(board[..], color, i + 1, 64);
          return;
        }
      }
    }
  }
}
