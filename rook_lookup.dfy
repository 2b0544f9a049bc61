/** The rook table: for every square, the mask of the other squares of its rank and file
    (the empty-board reach of a rook). */
module RookLookup {
  import opened BitBoard

  /** The four straight directions, in the order the source walks them. */
  const Dr: seq<int> := [1, -1, 0, 0]
  const Df: seq<int> := [0, 0, 1, -1]

  /** j shares i's rank or i's file and is not i. */
  predicate RookStep(i: int, j: int)
  {
    var a, b := j / 8 - i / 8, j % 8 - i % 8;
    (a == 0) != (b == 0)
  }

  /** The squares a rook on i reaches on an empty board, as a mask. */
  function RookTargets(i: int): Mask
  {
    set j | 0 <= j < 64 && RookStep(i, j)
  }

  /** The position in Dr/Df of the straight direction (sr, sf). */
  function Ord(sr: int, sf: int): int
  {
    if sr == 1 then 0 else if sr == -1 then 1 else if sf == 1 then 2 else 3
  }

  /** Each listed direction is a unit straight step, and Ord finds it again. */
  lemma Direction(dir: int)
    requires 0 <= dir < 4
    ensures Abs(Dr[dir]) + Abs(Df[dir]) == 1 && Ord(Dr[dir], Df[dir]) == dir
  {
    assert dir == 0 || dir == 1 || dir == 2 || dir == 3;
  }

  /** j is on a line from (rank, file) that the walks have covered before reaching
      distance s along direction dir. */
  predicate Seen(rank: int, file: int, dir: int, s: int, j: int)
  {
    var a, b := j / 8 - rank, j % 8 - file;
    0 <= j < 64 && (a == 0) != (b == 0) &&
    (Ord(Sign(a), Sign(b)) < dir || (Ord(Sign(a), Sign(b)) == dir && Abs(a) + Abs(b) < s))
  }

  /** One step of a walk: adding the square at distance s covers distance s. */
  lemma WalkStep(rank: int, file: int, dir: int, s: int, j: int, seen: Mask)
    requires IsValidSquare(rank, file) && 0 <= dir < 4 && s >= 1
    requires IsValidSquare(rank + Times(s, Dr[dir]), file + Times(s, Df[dir]))
    requires j in seen <==> Seen(rank, file, dir, s, j)
    ensures j in seen + SetBit(ToIndex(rank + Times(s, Dr[dir]), file + Times(s, Df[dir])))
      <==> Seen(rank, file, dir, s + 1, j)
  {
    Direction(dir);
    var r, f := rank + Times(s, Dr[dir]), file + Times(s, Df[dir]);
    if 0 <= j < 64 {
      ToIndexOnto(j);
      ToIndexInjective(j / 8, j % 8, r, f);
    }
  }

  /** A walk stops at the first square off the board: every farther square of that
      line is off the board too. */
  lemma WalkDone(rank: int, file: int, dir: int, s: int, j: int)
    requires IsValidSquare(rank, file) && 0 <= dir < 4 && s >= 1
    requires !IsValidSquare(rank + Times(s, Dr[dir]), file + Times(s, Df[dir]))
    ensures Seen(rank, file, dir, s, j) <==> Seen(rank, file, dir + 1, 0, j)
  {
    Direction(dir);
    if 0 <= j < 64 {
      ToIndexOnto(j);
    }
  }

  /** Once all four walks are done, the squares seen are the rook's squares. */
  lemma AllSeen(rank: int, file: int, j: int)
    requires IsValidSquare(rank, file)
    ensures Seen(rank, file, 4, 0, j) <==> j in RookTargets(ToIndex(rank, file))
  {
  }

  /** The body of the source's direction loop: walk each line until it leaves the board. */
  method SquareMask(rank: int, file: int) returns (mask: Mask)
    requires IsValidSquare(rank, file)
    ensures mask == RookTargets(ToIndex(rank, file))
  {
    mask := {};
    for dir := 0 to 4
      invariant forall j :: j in mask <==> Seen(rank, file, dir, 0, j)
    {
      Direction(dir);
      var r, f := rank + Dr[dir], file + Df[dir];
      ghost var s := 1;
      forall j ensures Seen(rank, file, dir, 0, j) <==> Seen(rank, file, dir, 1, j) {
      }
      while IsValidSquare(r, f)
        invariant 1 <= s <= 8
        invariant r == rank + Times(s, Dr[dir]) && f == file + Times(s, Df[dir])
        invariant forall j :: j in mask <==> Seen(rank, file, dir, s, j)
        decreases 8 - s
      {
        ghost var seen := mask;
        forall j ensures j in seen + SetBit(ToIndex(r, f)) <==> Seen(rank, file, dir, s + 1, j) {
          WalkStep(rank, file, dir, s, j, seen);
        }
        mask := mask + SetBit(ToIndex(r, f));
        r, f, s := r + Dr[dir], f + Df[dir], s + 1;
      }
      forall j ensures Seen(rank, file, dir, s, j) <==> Seen(rank, file, dir + 1, 0, j) {
        WalkDone(rank, file, dir, s, j);
      }
    }
    forall j ensures j in mask <==> j in RookTargets(ToIndex(rank, file)) {
      AllSeen(rank, file, j);
    }
  }

  /** The source's static constructor: fill `Moves[64]` rank by rank, file by file. */
  method BuildMoves() returns (moves: array<Mask>)
    ensures moves.Length == 64
    ensures forall i | 0 <= i < 64 :: moves[i] == RookTargets(i)
  {
    moves := new Mask[64](_ => {});
    for rank := 0 to 8
      invariant forall i | 0 <= i < rank * 8 :: moves[i] == RookTargets(i)
    {
      for file := 0 to 8
        invariant forall i | 0 <= i < rank * 8 + file :: moves[i] == RookTargets(i)
      {
        var index := ToIndex(rank, file);
        var mask := SquareMask(rank, file);
        moves[index] := mask;
      }
    }
  }

  /** A table with exactly the rank-and-file squares on every square. */
  predicate IsRookTable(t: seq<Mask>)
  {
    |t| == 64 && forall i | 0 <= i < 64 :: t[i] == RookTargets(i)
  }

  /** The rank and the file through i share exactly i; without i they hold 7 + 7 squares. */
  lemma RookCount(i: int)
    requires 0 <= i < 64
    ensures |RookTargets(i)| == 14
  {
    var r, f := i / 8, i % 8;
    var rank, file := Rect(r, r, 0, 7), Rect(0, 7, f, f);
    RectCard(r, r, 0, 7);
    RectCard(0, 7, f, f);
    assert rank * file == {i};
    assert |rank + file| == 15;
    assert RookTargets(i) == (rank + file) - {i};
  }

  /** No square is in its own mask, every mask holds 14 squares of the board, and the table is
      symmetric. */
  lemma RookTableGeometry(t: seq<Mask>)
    requires IsRookTable(t)
    ensures forall i | 0 <= i < 64 :: i !in t[i] && IsMask(t[i]) && |t[i]| == 14
    ensures forall i, j | 0 <= i < 64 && 0 <= j < 64 :: j in t[i] <==> i in t[j]
  {
    forall i | 0 <= i < 64
      ensures |t[i]| == 14
    {
      RookCount(i);
    }
  }
}

