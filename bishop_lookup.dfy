/** The bishop table: for every square, the mask of the squares on its four diagonals
    (the empty-board reach of a bishop). */
module BishopLookup {
  import opened BitBoard

  /** The four diagonal directions, in the order the source walks them. */
  const Dr: seq<int> := [1, 1, -1, -1]
  const Df: seq<int> := [1, -1, 1, -1]

  /** j is on a diagonal through i and is not i. */
  predicate BishopStep(i: int, j: int)
  {
    var a, b := j / 8 - i / 8, j % 8 - i % 8;
    Abs(a) == Abs(b) && a != 0
  }

  /** The squares a bishop on i reaches on an empty board, as a mask. */
  function BishopTargets(i: int): Mask
  {
    set j | 0 <= j < 64 && BishopStep(i, j)
  }

  /** The position in Dr/Df of the diagonal direction (sr, sf). */
  function Ord(sr: int, sf: int): int
  {
    if sr == 1 && sf == 1 then 0 else if sr == 1 then 1 else if sf == 1 then 2 else 3
  }

  /** Each listed direction is a unit diagonal step, and Ord finds it again. */
  lemma Direction(dir: int)
    requires 0 <= dir < 4
    ensures Abs(Dr[dir]) == 1 && Abs(Df[dir]) == 1 && Ord(Dr[dir], Df[dir]) == dir
  {
    assert dir == 0 || dir == 1 || dir == 2 || dir == 3;
  }

  /** j is on a diagonal from (rank, file) that the walks have covered before reaching
      distance s along direction dir. */
  predicate Seen(rank: int, file: int, dir: int, s: int, j: int)
  {
    var a, b := j / 8 - rank, j % 8 - file;
    0 <= j < 64 && Abs(a) == Abs(b) && a != 0 &&
    (Ord(Sign(a), Sign(b)) < dir || (Ord(Sign(a), Sign(b)) == dir && Abs(a) < s))
  }

  /** One step of a walk: adding the square at distance s covers distance s. */
  lemma WalkStep(rank: int, file: int, dir: int, s: int, j: int, seen: Mask)
    requires IsValidSquare(rank, file) && 0 <= dir < 4 && s >= 1
    requires IsValidSquare(rank + Times(s, Dr[dir]), file + Times(s, Df[dir]))
    requires j in seen <==> Seen(rank, file, dir, s, j)
    ensures j in seen + SetBit(ToIndex(rank + Times(s, Dr[dir]), file + Times(s, Df[dir])))
      <==> Seen(rank, file, dir, s + 1, j)
  {
    Direction(dir);
    var r, f := rank + Times(s, Dr[dir]), file + Times(s, Df[dir]);
    if 0 <= j < 64 {
      ToIndexOnto(j);
      ToIndexInjective(j / 8, j % 8, r, f);
    }
  }

  /** A walk stops at the first square off the board: every farther square of that
      diagonal is off the board too. */
  lemma WalkDone(rank: int, file: int, dir: int, s: int, j: int)
    requires IsValidSquare(rank, file) && 0 <= dir < 4 && s >= 1
    requires !IsValidSquare(rank + Times(s, Dr[dir]), file + Times(s, Df[dir]))
    ensures Seen(rank, file, dir, s, j) <==> Seen(rank, file, dir + 1, 0, j)
  {
    Direction(dir);
    if 0 <= j < 64 {
      ToIndexOnto(j);
    }
  }

  /** Once all four walks are done, the squares seen are the bishop's squares. */
  lemma AllSeen(rank: int, file: int, j: int)
    requires IsValidSquare(rank, file)
    ensures Seen(rank, file, 4, 0, j) <==> j in BishopTargets(ToIndex(rank, file))
  {
  }

  /** The body of the source's direction loop: walk each diagonal until it leaves the board. */
  method SquareMask(rank: int, file: int) returns (mask: Mask)
    requires IsValidSquare(rank, file)
    ensures mask == BishopTargets(ToIndex(rank, file))
  {
    mask := {};
    for dir := 0 to 4
      invariant forall j :: j in mask <==> Seen(rank, file, dir, 0, j)
    {
      Direction(dir);
      var r, f := rank + Dr[dir], file + Df[dir];
      ghost var s := 1;
      forall j ensures Seen(rank, file, dir, 0, j) <==> Seen(rank, file, dir, 1, j) {
      }
      while IsValidSquare(r, f)
        invariant 1 <= s <= 8
        invariant r == rank + Times(s, Dr[dir]) && f == file + Times(s, Df[dir])
        invariant forall j :: j in mask <==> Seen(rank, file, dir, s, j)
        decreases 8 - s
      {
        ghost var seen := mask;
        forall j ensures j in seen + SetBit(ToIndex(r, f)) <==> Seen(rank, file, dir, s + 1, j) {
          WalkStep(rank, file, dir, s, j, seen);
        }
        mask := mask + SetBit(ToIndex(r, f));
        r, f, s := r + Dr[dir], f + Df[dir], s + 1;
      }
      forall j ensures Seen(rank, file, dir, s, j) <==> Seen(rank, file, dir + 1, 0, j) {
        WalkDone(rank, file, dir, s, j);
      }
    }
    forall j ensures j in mask <==> j in BishopTargets(ToIndex(rank, file)) {
      AllSeen(rank, file, j);
    }
  }

  /** The source's static constructor: fill `Moves[64]` rank by rank, file by file. */
  method BuildMoves() returns (moves: array<Mask>)
    ensures moves.Length == 64
    ensures forall i | 0 <= i < 64 :: moves[i] == BishopTargets(i)
  {
    moves := new Mask[64](_ => {});
    for rank := 0 to 8
      invariant forall i | 0 <= i < rank * 8 :: moves[i] == BishopTargets(i)
    {
      for file := 0 to 8
        invariant forall i | 0 <= i < rank * 8 + file :: moves[i] == BishopTargets(i)
      {
        var index := ToIndex(rank, file);
        var mask := SquareMask(rank, file);
        moves[index] := mask;
      }
    }
  }

  /** A table with exactly the diagonal squares on every square. */
  predicate IsBishopTable(t: seq<Mask>)
  {
    |t| == 64 && forall i | 0 <= i < 64 :: t[i] == BishopTargets(i)
  }

  /** A diagonal step keeps the parity of rank + file: it changes both by the same amount, up to sign. */
  lemma StepKeepsColour(i: int, j: int)
    requires BishopStep(i, j)
    ensures (j / 8 + j % 8) % 2 == (i / 8 + i % 8) % 2
  {
    var a, b := j / 8 - i / 8, j % 8 - i % 8;
    assert (j / 8 + j % 8) == (i / 8 + i % 8) + (a + b);
    assert a + b == 2 * a || a + b == 0;
  }

  /** No square is in its own mask, every mask is on the board, the table is symmetric, and a
      bishop's squares all have the colour of its own square (the parity of rank + file). */
  lemma BishopTableGeometry(t: seq<Mask>)
    requires IsBishopTable(t)
    ensures forall i | 0 <= i < 64 :: i !in t[i] && IsMask(t[i])
    ensures forall i, j | 0 <= i < 64 && 0 <= j < 64 :: j in t[i] <==> i in t[j]
    ensures forall i, j | 0 <= i < 64 && j in t[i] :: (j / 8 + j % 8) % 2 == (i / 8 + i % 8) % 2
  {
    forall i, j | 0 <= i < 64 && j in t[i]
      ensures (j / 8 + j % 8) % 2 == (i / 8 + i % 8) % 2
    {
      StepKeepsColour(i, j);
    }
  }
}
