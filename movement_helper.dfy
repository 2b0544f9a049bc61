/** The move generators over a board passed by the caller. None of them writes to the board;
    each returns exactly what the matching specification in MoveGen lists. */
module MovementHelper {
  import opened ChessTypes
  import opened BitBoard
  import opened MoveGen

  /** Pushes first, then the captures towards file - 1 and file + 1. */
  method GetPawnMoves(board: array<Option<Piece>>, from: int, color: PieceColor) returns (result: seq<int>)
    requires board.Length == 64 && IsSquare(from)
    ensures result == PawnMoves(board[..], from, color)
  {
    result := [];
    var rank, file := from / 8, from % 8;
    var dir := if color == White then 1 else -1;
    assert dir == Forward(color);
    var oneStep := rank + dir;
    if oneStep >= 0 && oneStep < 8 {
      var forward := ToIndex(oneStep, file);
      if board[forward] == None {
        result := result + [forward];
        if (color == White && rank == 1) || (color == Black && rank == 6) {
          var twoStep := ToIndex(rank + dir * 2, file);
          if board[twoStep] == None {
            result := result + [twoStep];
          }
        }
      }
    }
    assert result == PawnUpTo(board[..], from, color, 0);
    var sides := [-1, 1];
    assert sides == Sides;
    for k := 0 to 2
      invariant result == PawnUpTo(board[..], from, color, k)
    {
      var capture := CaptureTowards(board, from, color, sides[k]);
      result := result + capture;
    }
  }

  /** The body of the diagonal-capture loop: the square towards file + df, when it is on the
      board and holds a piece of the other colour. */
  method CaptureTowards(board: array<Option<Piece>>, from: int, color: PieceColor, df: int)
    returns (capture: seq<int>)
    requires board.Length == 64 && IsSquare(from)
    ensures capture == Capture(board[..], from, color, df)
  {
    capture := [];
    var rank, file := from / 8, from % 8;
    var dir := if color == White then 1 else -1;
    var attackFile, attackRank := file + df, rank + dir;
    if attackFile >= 0 && attackFile < 8 && attackRank >= 0 && attackRank < 8 {
      var attackIndex := ToIndex(attackRank, attackFile);
      var target := board[attackIndex];
      if target != None && target.value.color != color {
        capture := [attackIndex];
      }
    }
  }

  /** The squares of `moveMask`, in ascending order, that are empty or hold an enemy. */
  method GetSimpleMoves(board: array<Option<Piece>>, from: int, moveMask: Mask, color: PieceColor)
    returns (result: seq<int>)
    requires board.Length == 64
    ensures result == SimpleMoves(board[..], moveMask, color)
  {
    result := [];
    for i := 0 to 64
      invariant result == SimpleUpTo(board[..], moveMask, color, i)
    {
      if i !in moveMask {
        continue;
      }
      var target := board[i];
      if target == None || target.value.color != color {
        result := result + [i];
      }
    }
  }

  /** Walk each direction in turn, taking empty squares, stopping at the first occupied one and
      taking it only when it holds an enemy. `moveMask` is not consulted. */
  method GetSlidingMoves(board: array<Option<Piece>>, from: int, moveMask: Mask, color: PieceColor,
                         directions: seq<(int, int)>) returns (result: seq<int>)
    requires board.Length == 64 && IsSquare(from)
    requires forall k | 0 <= k < |directions| :: Unit(directions[k])
    ensures result == SlidingMoves(board[..], from, color, directions)
  {
    result := [];
    var rank, file := from / 8, from % 8;
    for k := 0 to |directions|
      invariant result == Slide(board[..], rank, file, color, directions[..k])
    {
      var ray := Walk(board, rank, file, directions[k], color);
      result := result + ray;
      assert directions[..k + 1][..k] == directions[..k];
    }
    assert directions[..|directions|] == directions;
  }

  /** The body of the direction loop: step from (rank, file) along d, taking empty squares,
      and stop at the first occupied square, taking it only when it holds an enemy. */
  method Walk(board: array<Option<Piece>>, rank: int, file: int, d: (int, int), color: PieceColor)
    returns (ray: seq<int>)
    requires board.Length == 64 && Unit(d)
    ensures ray == RayFrom(board[..], rank, file, d, color)
  {
    ray := [];
    ghost var cells := board[..];
    ghost var whole := RayFrom(cells, rank, file, d, color);
    var dr, df := d.0, d.1;
    var r, f := rank + dr, file + df;
    while r >= 0 && r < 8 && f >= 0 && f < 8
      invariant ray + Ray(cells, r, f, d, color) == whole
      decreases Steps(r, f, d)
    {
      var index := ToIndex(r, f);
      var target := board[index];
      if target == None {
        WalkThrough(cells, r, f, d, color, ray, whole);
        ray := ray + [index];
      } else {
        WalkBlocked(cells, r, f, d, color, ray, whole);
        if target.value.color != color {
          ray := ray + [index];
        }
        return;
      }
      r, f := r + dr, f + df;
    }
    WalkOff(cells, r, f, d, color, ray, whole);
  }
}
