/** The king table: for every square, the mask of the squares next to it. */
module KingLookup {
  import opened BitBoard

  /** The offset (dr, df) is one of the eight king steps. */
  predicate Near(dr: int, df: int)
  {
    -1 <= dr <= 1 && -1 <= df <= 1 && !(dr == 0 && df == 0)
  }

  /** j is next to i: at Chebyshev distance exactly 1. */
  predicate KingStep(i: int, j: int)
  {
    Near(j / 8 - i / 8, j % 8 - i % 8)
  }

  /** The squares a king on i attacks, as a mask. */
  function KingTargets(i: int): Mask
  {
    set j | 0 <= j < 64 && KingStep(i, j)
  }

  /** What visiting the pair (dr, df) adds: its square, unless the pair is (0, 0) or leaves the board. */
  function Visit(rank: int, file: int, dr: int, df: int): Mask
  {
    if (dr == 0 && df == 0) || !IsValidSquare(rank + dr, file + df) then {}
    else SetBit(ToIndex(rank + dr, file + df))
  }

  /** Pair (a, b) comes before pair (dr, df) in the loops' order (dr outer, df inner, both rising). */
  predicate Before(a: int, b: int, dr: int, df: int)
  {
    a < dr || (a == dr && b < df)
  }

  /** j is a neighbour of (rank, file) whose pair the loops have visited before reaching (dr, df). */
  predicate Seen(rank: int, file: int, dr: int, df: int, j: int)
  {
    0 <= j < 64 && Near(j / 8 - rank, j % 8 - file) && Before(j / 8 - rank, j % 8 - file, dr, df)
  }

  /** One visit: adding Visit(dr, df) to the squares seen before (dr, df) gives those seen before (dr, df + 1). */
  lemma VisitStep(rank: int, file: int, dr: int, df: int, j: int, seen: Mask)
    requires IsValidSquare(rank, file) && -1 <= dr <= 1 && -1 <= df <= 1
    requires j in seen <==> Seen(rank, file, dr, df, j)
    ensures j in seen + Visit(rank, file, dr, df) <==> Seen(rank, file, dr, df + 1, j)
  {
    if (dr == 0 && df == 0) || !IsValidSquare(rank + dr, file + df) {
      VisitNothing(rank, file, dr, df, j);
    } else {
      VisitSquare(rank, file, dr, df, j);
    }
  }

  /** A pair that is (0, 0) or leads off the board adds no neighbour. */
  lemma VisitNothing(rank: int, file: int, dr: int, df: int, j: int)
    requires IsValidSquare(rank, file) && -1 <= dr <= 1 && -1 <= df <= 1
    requires (dr == 0 && df == 0) || !IsValidSquare(rank + dr, file + df)
    ensures Seen(rank, file, dr, df + 1, j) <==> Seen(rank, file, dr, df, j)
  {
    if 0 <= j < 64 {
      ToIndexOnto(j);
    }
  }

  /** Any other pair adds exactly its own square. */
  lemma VisitSquare(rank: int, file: int, dr: int, df: int, j: int)
    requires IsValidSquare(rank, file) && -1 <= dr <= 1 && -1 <= df <= 1
    requires !(dr == 0 && df == 0) && IsValidSquare(rank + dr, file + df)
    ensures Seen(rank, file, dr, df + 1, j) <==> Seen(rank, file, dr, df, j) || j == ToIndex(rank + dr, file + df)
  {
    if 0 <= j < 64 {
      ToIndexOnto(j);
      ToIndexInjective(j / 8, j % 8, rank + dr, file + df);
    }
  }

  /** Finishing row dr is starting row dr + 1. */
  lemma RowDone(rank: int, file: int, dr: int, j: int)
    ensures Seen(rank, file, dr, 2, j) <==> Seen(rank, file, dr + 1, -1, j)
  {
  }

  /** Once every pair is visited, the squares seen are the king's squares. */
  lemma AllSeen(rank: int, file: int, j: int)
    requires IsValidSquare(rank, file)
    ensures Seen(rank, file, 2, -1, j) <==> j in KingTargets(ToIndex(rank, file))
  {
  }

  /** The body of the source's two inner loops: or together the on-board neighbours. */
  method SquareMask(rank: int, file: int) returns (mask: Mask)
    requires IsValidSquare(rank, file)
    ensures mask == KingTargets(ToIndex(rank, file))
  {
    mask := {};
    for dr := -1 to 2
      invariant forall j :: j in mask <==> Seen(rank, file, dr, -1, j)
    {
      for df := -1 to 2
        invariant forall j :: j in mask <==> Seen(rank, file, dr, df, j)
      {
        ghost var seen := mask;
        forall j ensures j in seen + Visit(rank, file, dr, df) <==> Seen(rank, file, dr, df + 1, j) {
          VisitStep(rank, file, dr, df, j, seen);
        }
        if dr == 0 && df == 0 {
          assert seen + Visit(rank, file, dr, df) == seen;
          continue;
        }
        var r, f := rank + dr, file + df;
        if IsValidSquare(r, f) {
          mask := mask + SetBit(ToIndex(r, f));
        }
        assert mask == seen + Visit(rank, file, dr, df);
      }
      forall j ensures Seen(rank, file, dr, 2, j) <==> Seen(rank, file, dr + 1, -1, j) {
        RowDone(rank, file, dr, j);
      }
    }
    forall j ensures j in mask <==> j in KingTargets(ToIndex(rank, file)) {
      AllSeen(rank, file, j);
    }
  }

  /** The source's static constructor: fill `Moves[64]` rank by rank, file by file. */
  method BuildMoves() returns (moves: array<Mask>)
    ensures moves.Length == 64
    ensures forall i | 0 <= i < 64 :: moves[i] == KingTargets(i)
  {
    moves := new Mask[64](_ => {});
    for rank := 0 to 8
      invariant forall i | 0 <= i < rank * 8 :: moves[i] == KingTargets(i)
    {
      for file := 0 to 8
        invariant forall i | 0 <= i < rank * 8 + file :: moves[i] == KingTargets(i)
      {
        var index := ToIndex(rank, file);
        var mask := SquareMask(rank, file);
        moves[index] := mask;
      }
    }
  }

  /** A table with exactly the king's neighbours on every square. */
  predicate IsKingTable(t: seq<Mask>)
  {
    |t| == 64 && forall i | 0 <= i < 64 :: t[i] == KingTargets(i)
  }

  /** No square is in its own mask, every mask is on the board, and the table is symmetric. */
  lemma KingTableGeometry(t: seq<Mask>)
    requires IsKingTable(t)
    ensures forall i | 0 <= i < 64 :: i !in t[i] && IsMask(t[i])
    ensures forall i, j | 0 <= i < 64 && 0 <= j < 64 :: j in t[i] <==> i in t[j]
  {
  }

  /** The edges of the block of ranks and files around (r, f), clipped to the board. */
  function Low(x: int): int { if x == 0 then 0 else x - 1 }
  function High(x: int): int { if x == 7 then 7 else x + 1 }

  /** A king's squares are the clipped block around its square, without the square itself. */
  lemma KingBlock(i: int)
    requires 0 <= i < 64
    ensures var r, f := i / 8, i % 8;
      i in Rect(Low(r), High(r), Low(f), High(f)) &&
      KingTargets(i) == Rect(Low(r), High(r), Low(f), High(f)) - {i}
  {
  }

  /** 3 squares on a corner, 5 on the rest of the edge and 8 inside. */
  lemma KingCount(i: int)
    requires 0 <= i < 64
    ensures var redge, fedge := i / 8 == 0 || i / 8 == 7, i % 8 == 0 || i % 8 == 7;
      |KingTargets(i)| == if redge && fedge then 3 else if redge || fedge then 5 else 8
  {
    var r, f := i / 8, i % 8;
    KingBlock(i);
    RectCard(Low(r), High(r), Low(f), High(f));
    assert Area(2, 2) == 4 && Area(2, 3) == 6 && Area(3, 2) == 6 && Area(3, 3) == 9;
  }
}
