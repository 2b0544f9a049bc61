/** The initial-position writer and the plain board read. */
module BoardHelper {
  import opened ChessTypes
  import opened BitBoard

  /** The back-rank piece on each file: R, N, B, Q, K, B, N, R. */
  function BackRank(file: int): (k: PieceType)
    requires 0 <= file < 8
    ensures k == King <==> file == 4
    ensures k == Queen <==> file == 3
  {
    [Rook, Knight, Bishop, Queen, King, Bishop, Knight, Rook][file]
  }

  /** What the setup writes on square i, for the squares it writes: the white back rank on rank 0,
      white pawns on rank 1, black pawns on rank 6 and the black back rank on rank 7. */
  function HomePiece(i: int): Option<Piece>
    requires 0 <= i < 16 || 48 <= i < 64
  {
    if i < 8 then Some(NewPiece(BackRank(i), White))
    else if i < 16 then Some(NewPiece(Pawn, White))
    else if i < 56 then Some(NewPiece(Pawn, Black))
    else Some(NewPiece(BackRank(i - 56), Black))
  }

  /** The squares the setup writes: ranks 0, 1, 6 and 7. */
  predicate HomeSquare(i: int)
  {
    0 <= i < 16 || 48 <= i < 64
  }

  /** The board after the setup: home squares hold their pieces, squares 16 to 47 keep what they had. */
  function Setup(b: Cells): (r: Cells)
    requires IsBoard(b)
    ensures IsBoard(r)
  {
    seq(64, i requires 0 <= i < 64 => if HomeSquare(i) then HomePiece(i) else b[i])
  }

  /** The position a new game starts from: the setup applied to an empty board. */
  function InitialBoard(): (r: Cells)
    ensures IsBoard(r)
  {
    Setup(seq(64, _ => None))
  }

  /** Write the white pieces: the back rank on rank 0, then a pawn on every file of rank 1. */
  method InitialWhitePiecesPosition(board: array<Option<Piece>>)
    requires board.Length == 64
    modifies board
    ensures forall i | 0 <= i < 16 :: board[i] == HomePiece(i)
    ensures forall i | 16 <= i < 64 :: board[i] == old(board[i])
  {
    PlaceBackRank(board, 0, White);
    for file := 0 to 8
      invariant forall i | 0 <= i < 8 :: board[i] == HomePiece(i)
      invariant forall i | 8 <= i < 8 + file :: board[i] == HomePiece(i)
      invariant forall i | 8 + file <= i < 64 :: board[i] == old(board[i])
    {
      board[ToIndex(1, file)] := Some(NewPiece(Pawn, White));
    }
  }

  /** Write the black pieces: the back rank on rank 7, then a pawn on every file of rank 6. */
  method InitialBlackPiecesPosition(board: array<Option<Piece>>)
    requires board.Length == 64
    modifies board
    ensures forall i | 48 <= i < 64 :: board[i] == HomePiece(i)
    ensures forall i | 0 <= i < 48 :: board[i] == old(board[i])
  {
    PlaceBackRank(board, 7, Black);
    for file := 0 to 8
      invariant forall i | 56 <= i < 64 :: board[i] == HomePiece(i)
      invariant forall i | 48 <= i < 48 + file :: board[i] == HomePiece(i)
      invariant forall i | 0 <= i < 48 || 48 + file <= i < 56 :: board[i] == old(board[i])
    {
      board[ToIndex(6, file)] := Some(NewPiece(Pawn, Black));
    }
  }

  /** The eight back-rank writes of one colour, R, N, B, Q, K, B, N, R from file 0 to file 7. */
  method PlaceBackRank(board: array<Option<Piece>>, rank: int, color: PieceColor)
    requires board.Length == 64
    requires (rank == 0 && color == White) || (rank == 7 && color == Black)
    modifies board
    ensures forall f | 0 <= f < 8 :: board[ToIndex(rank, f)] == Some(NewPiece(BackRank(f), color))
    ensures forall i | 0 <= i < 64 && i / 8 != rank :: board[i] == old(board[i])
  {
    board[ToIndex(rank, 0)] := Some(NewPiece(Rook, color));
    board[ToIndex(rank, 1)] := Some(NewPiece(Knight, color));
    board[ToIndex(rank, 2)] := Some(NewPiece(Bishop, color));
    board[ToIndex(rank, 3)] := Some(NewPiece(Queen, color));
    board[ToIndex(rank, 4)] := Some(NewPiece(King, color));
    board[ToIndex(rank, 5)] := Some(NewPiece(Bishop, color));
    board[ToIndex(rank, 6)] := Some(NewPiece(Knight, color));
    board[ToIndex(rank, 7)] := Some(NewPiece(Rook, color));
  }

  /** White half first, then the black half; nothing else is written. */
  method SetupInitialPosition(board: array<Option<Piece>>)
    requires board.Length == 64
    modifies board
    ensures board[..] == Setup(old(board[..]))
  {
    InitialWhitePiecesPosition(board);
    InitialBlackPiecesPosition(board);
    assert forall i | 0 <= i < 64 :: board[..][i] == Setup(old(board[..]))[i];
  }

  /** The piece on `square`, if any. */
  method GetPieceAt(board: array<Option<Piece>>, square: int) returns (p: Option<Piece>)
    requires board.Length == 64 && IsSquare(square)
    ensures p == board[square]
  {
    p := board[square];
  }

  /** The setup puts a king on exactly two of the squares it writes: White's on 4, Black's on 60. */
  lemma SetupKings(b: Cells, i: int)
    requires IsBoard(b) && HomeSquare(i)
    ensures var p := Setup(b)[i];
      p.Some? && p.value.kind == King <==> i == 4 || i == 60
    ensures Setup(b)[4] == Some(NewPiece(King, White))
    ensures Setup(b)[60] == Some(NewPiece(King, Black))
  {
  }

  /** A new game's board: the setup's pieces on ranks 0, 1, 6 and 7, white below and black above,
      and every square from 16 to 47 empty. */
  lemma InitialOccupancy(i: int)
    requires IsSquare(i)
    ensures InitialBoard()[i].Some? <==> HomeSquare(i)
    ensures InitialBoard()[i].Some? ==> InitialBoard()[i].value.color == (if i < 16 then White else Black)
    ensures InitialBoard()[i].Some? ==> !InitialBoard()[i].value.hasMoved
  {
  }
}
