/** The queen table: for every square, the bishop's squares together with the rook's. */
module QueenLookup {
  import opened BitBoard
  import BishopLookup
  import RookLookup

  /** j shares a rank, a file or a diagonal with i and is not i. */
  predicate QueenStep(i: int, j: int)
  {
    var a, b := j / 8 - i / 8, j % 8 - i % 8;
    !(a == 0 && b == 0) && (a == 0 || b == 0 || Abs(a) == Abs(b))
  }

  /** The squares a queen on i reaches on an empty board, as a mask. */
  function QueenTargets(i: int): Mask
  {
    set j | 0 <= j < 64 && QueenStep(i, j)
  }

  /** A queen's line is a bishop's diagonal or a rook's rank or file, and nothing else. */
  lemma QueenIsBishopOrRook(i: int, j: int)
    ensures QueenStep(i, j) <==> BishopLookup.BishopStep(i, j) || RookLookup.RookStep(i, j)
  {
  }

  /** The source's static constructor: or together the bishop and rook entries of each square. */
  method BuildMoves(bishop: seq<Mask>, rook: seq<Mask>) returns (moves: array<Mask>)
    requires BishopLookup.IsBishopTable(bishop) && RookLookup.IsRookTable(rook)
    ensures moves.Length == 64
    ensures forall i | 0 <= i < 64 :: moves[i] == QueenTargets(i)
  {
    moves := new Mask[64](_ => {});
    for i := 0 to 64
      invariant forall k | 0 <= k < i :: moves[k] == QueenTargets(k)
    {
      moves[i] := bishop[i] + rook[i];
      forall j ensures j in moves[i] <==> j in QueenTargets(i) {
        QueenIsBishopOrRook(i, j);
      }
    }
  }

  /** A table with exactly the queen's squares on every square. */
  predicate IsQueenTable(t: seq<Mask>)
  {
    |t| == 64 && forall i | 0 <= i < 64 :: t[i] == QueenTargets(i)
  }

  /** Each queen mask is the union of the bishop and rook masks of its square, so it contains
      both; no square is in its own mask, and the table is symmetric. */
  lemma QueenTableGeometry(t: seq<Mask>, bishop: seq<Mask>, rook: seq<Mask>)
    requires IsQueenTable(t) && BishopLookup.IsBishopTable(bishop) && RookLookup.IsRookTable(rook)
    ensures forall i | 0 <= i < 64 ::
      t[i] == bishop[i] + rook[i] && bishop[i] <= t[i] && rook[i] <= t[i] && i !in t[i]
    ensures forall i, j | 0 <= i < 64 && 0 <= j < 64 :: j in t[i] <==> i in t[j]
  {
    forall i, j | 0 <= i < 64
      ensures j in t[i] <==> j in bishop[i] + rook[i]
    {
      QueenIsBishopOrRook(i, j);
    }
  }
}

