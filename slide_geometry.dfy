/** Sliding destinations against the lookup tables: the source passes each slider its mask
    and then ignores it; every square a walk reaches is nevertheless in that mask. */
module SlideGeometry {
  import opened ChessTypes
  import opened BitBoard
  import opened MoveGen
  import BishopLookup
  import RookLookup
  import QueenLookup

  /** (r, f) lies strictly ahead of (rank, file) along the unit direction d: every coordinate
      moves the way d does, and a diagonal one by as many files as ranks. */
  predicate Ahead(rank: int, file: int, r: int, f: int, d: (int, int))
  {
    Sign(r - rank) == d.0 && Sign(f - file) == d.1 &&
    (d.0 != 0 && d.1 != 0 ==> Abs(r - rank) == Abs(f - file))
  }

  /** Every square of the walk from a square ahead of (rank, file) is on the board, is empty or
      an enemy, and is itself ahead of (rank, file). */
  lemma {:induction false} RayAhead(b: Cells, rank: int, file: int, r: int, f: int, d: (int, int),
                                    color: PieceColor, j: int)
    requires IsBoard(b) && Unit(d) && Ahead(rank, file, r, f, d)
    requires j in Ray(b, r, f, d, color)
    ensures IsSquare(j) && EmptyOrEnemy(b, j, color) && Ahead(rank, file, j / 8, j % 8, d)
    decreases Steps(r, f, d)
  {
    if j != ToIndex(r, f) {
      assert j in Ray(b, r + d.0, f + d.1, d, color);
      AheadNext(rank, file, r, f, d);
      RayAhead(b, rank, file, r + d.0, f + d.1, d, color, j);
    } else {
      RayFirst(b, r, f, d, color);
    }
  }

  /** One step along d from a square ahead of (rank, file) stays ahead of it. */
  lemma AheadNext(rank: int, file: int, r: int, f: int, d: (int, int))
    requires Unit(d) && Ahead(rank, file, r, f, d)
    ensures Ahead(rank, file, r + d.0, f + d.1, d)
  {
  }

  /** A square ahead of (rank, file) is another square, on its diagonal for a diagonal d and
      on its rank or file for a straight one. */
  lemma AheadLine(rank: int, file: int, j: int, d: (int, int))
    requires IsValidSquare(rank, file) && IsSquare(j) && Unit(d) && Ahead(rank, file, j / 8, j % 8, d)
    ensures j != ToIndex(rank, file)
    ensures d.0 != 0 && d.1 != 0 ==> BishopLookup.BishopStep(ToIndex(rank, file), j)
    ensures d.0 == 0 || d.1 == 0 ==> RookLookup.RookStep(ToIndex(rank, file), j)
  {
  }

  /** Every square of a walk from a neighbour of (rank, file) is on the board, is empty or an
      enemy, is not (rank, file) itself, and lies on the diagonal (for a diagonal step) or the
      rank or file (for a straight step) of (rank, file). */
  lemma RayLine(b: Cells, rank: int, file: int, d: (int, int), color: PieceColor, j: int)
    requires IsBoard(b) && IsValidSquare(rank, file) && Unit(d)
    requires j in Ray(b, rank + d.0, file + d.1, d, color)
    ensures IsSquare(j) && EmptyOrEnemy(b, j, color) && j != ToIndex(rank, file)
    ensures d.0 != 0 && d.1 != 0 ==> BishopLookup.BishopStep(ToIndex(rank, file), j)
    ensures d.0 == 0 || d.1 == 0 ==> RookLookup.RookStep(ToIndex(rank, file), j)
  {
    RayAhead(b, rank, file, rank + d.0, file + d.1, d, color, j);
    AheadLine(rank, file, j, d);
  }

  /** Every sliding destination is on the board, is not the origin, is empty or an enemy, and is
      in the queen's mask of the origin; in the bishop's mask too when every direction is
      diagonal, and in the rook's when every direction is straight. */
  lemma {:induction false} SlideInLines(b: Cells, rank: int, file: int, color: PieceColor,
                                        dirs: seq<(int, int)>)
    requires IsBoard(b) && IsValidSquare(rank, file) && forall k | 0 <= k < |dirs| :: Unit(dirs[k])
    ensures forall j | j in Slide(b, rank, file, color, dirs) ::
      IsSquare(j) && EmptyOrEnemy(b, j, color) && j != ToIndex(rank, file) &&
      QueenLookup.QueenStep(ToIndex(rank, file), j) &&
      ((forall k | 0 <= k < |dirs| :: dirs[k].0 != 0 && dirs[k].1 != 0) ==>
         BishopLookup.BishopStep(ToIndex(rank, file), j)) &&
      ((forall k | 0 <= k < |dirs| :: dirs[k].0 == 0 || dirs[k].1 == 0) ==>
         RookLookup.RookStep(ToIndex(rank, file), j))
  {
    if |dirs| > 0 {
      var n := |dirs| - 1;
      SlideInLines(b, rank, file, color, dirs[..n]);
      assert forall k | 0 <= k < n :: dirs[..n][k] == dirs[k];
      var i, d := ToIndex(rank, file), dirs[n];
      forall j | j in RayFrom(b, rank, file, d, color)
        ensures IsSquare(j) && EmptyOrEnemy(b, j, color) && j != i && QueenLookup.QueenStep(i, j)
        ensures d.0 != 0 && d.1 != 0 ==> BishopLookup.BishopStep(i, j)
        ensures d.0 == 0 || d.1 == 0 ==> RookLookup.RookStep(i, j)
      {
        RayLine(b, rank, file, d, color, j);
        QueenLookup.QueenIsBishopOrRook(i, j);
      }
    }
  }

  /** No sliding destination is the origin, off the board, or a piece of the mover's colour;
      along the bishop's, rook's and queen's directions every destination lies in that piece's
      lookup mask for the origin. */
  lemma SlidingMovesSafe(b: Cells, from: int, color: PieceColor, dirs: seq<(int, int)>)
    requires IsBoard(b) && IsSquare(from) && forall k | 0 <= k < |dirs| :: Unit(dirs[k])
    ensures forall j | j in SlidingMoves(b, from, color, dirs) ::
      IsSquare(j) && j != from && EmptyOrEnemy(b, j, color)
    ensures dirs == BishopDirs ==>
      forall j | j in SlidingMoves(b, from, color, dirs) :: j in BishopLookup.BishopTargets(from)
    ensures dirs == RookDirs ==>
      forall j | j in SlidingMoves(b, from, color, dirs) :: j in RookLookup.RookTargets(from)
    ensures forall j | j in SlidingMoves(b, from, color, dirs) :: j in QueenLookup.QueenTargets(from)
  {
    ToIndexOnto(from);
    SlideInLines(b, from / 8, from % 8, color, dirs);
  }
}
