/** Pieces, colours and the 64-slot board shared by every other module.
    A board slot is either empty (None) or holds a piece (Some), the tagged
    form of the source's nullable `Piece?` slot. */
module ChessTypes {

  datatype Option<T> = None | Some(value: T)

  datatype PieceType = Pawn | Knight | Bishop | Rook | Queen | King

  datatype PieceColor = White | Black

  /** A piece: its type, its colour and the `HasMoved` flag used for castling. */
  datatype Piece = Piece(kind: PieceType, color: PieceColor, hasMoved: bool)

  /** A freshly constructed piece: `HasMoved` starts out false. */
  function NewPiece(kind: PieceType, color: PieceColor): (p: Piece)
    ensures p.kind == kind && p.color == color && !p.hasMoved
  {
    Piece(kind, color, false)
  }

  function Opponent(c: PieceColor): (o: PieceColor)
    ensures o != c
  {
    if c == White then Black else White
  }

  /** A snapshot of the board's 64 slots. */
  type Cells = seq<Option<Piece>>

  predicate IsBoard(b: Cells) { |b| == 64 }

  predicate IsSquare(i: int) { 0 <= i < 64 }

  /** Square i is a legal landing square for a piece of colour c:
      it is empty or holds a piece of the other colour. */
  predicate EmptyOrEnemy(b: Cells, i: int, c: PieceColor)
    requires 0 <= i < |b|
  {
    b[i].None? || b[i].value.color != c
  }

  /** Square i holds a piece of colour c. */
  predicate HoldsColor(b: Cells, i: int, c: PieceColor)
    requires 0 <= i < |b|
  {
    b[i].Some? && b[i].value.color == c
  }

  /** The board with the piece on `from` moved to `to` and `from` emptied,
      in that order: with from == to the square ends up empty. */
  function MoveOnBoard(b: Cells, from: int, to: int): (r: Cells)
    requires IsBoard(b) && IsSquare(from) && IsSquare(to)
    ensures IsBoard(r)
    ensures r[from] == None
    ensures from != to ==> r[to] == b[from]
    ensures forall k | 0 <= k < 64 && k != from && k != to :: r[k] == b[k]
  {
    b[to := b[from]][from := None]
  }
}
