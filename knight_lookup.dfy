/** The knight table: for every square, the mask of squares a knight jumps to. */
module KnightLookup {
  import opened BitBoard

  /** The eight knight offsets, in the order the source tries them. */
  const Dr: seq<int> := [2, 2, 1, 1, -1, -1, -2, -2]
  const Df: seq<int> := [1, -1, 2, -2, 2, -2, 1, -1]

  /** j is a knight's jump away from i: one rank and two files apart, or two ranks and one file. */
  predicate KnightStep(i: int, j: int)
  {
    var dr, df := Abs(j / 8 - i / 8), Abs(j % 8 - i % 8);
    (dr == 1 && df == 2) || (dr == 2 && df == 1)
  }

  /** The squares a knight on i attacks, as a mask. */
  function KnightTargets(i: int): Mask
  {
    set j | 0 <= j < 64 && KnightStep(i, j)
  }

  /** Offset k from (rank, file) lands on the board at square j. */
  predicate Hit(rank: int, file: int, k: int, j: int)
    requires 0 <= k < 8
  {
    IsValidSquare(rank + Dr[k], file + Df[k]) && j == ToIndex(rank + Dr[k], file + Df[k])
  }

  /** The squares the first n offsets from (rank, file) land on. */
  function Landing(rank: int, file: int, n: nat): Mask
    requires n <= 8
  {
    if n == 0 then {}
    else
      var r, f := rank + Dr[n - 1], file + Df[n - 1];
      if IsValidSquare(r, f) then Landing(rank, file, n - 1) + SetBit(ToIndex(r, f))
      else Landing(rank, file, n - 1)
  }

  /** Trying offset k adds its landing square, if it has one, to those of the offsets before it. */
  lemma LandingNext(rank: int, file: int, k: nat)
    requires k < 8
    ensures var r, f := rank + Dr[k], file + Df[k];
      IsValidSquare(r, f) ==> Landing(rank, file, k + 1) == Landing(rank, file, k) + SetBit(ToIndex(r, f))
    ensures var r, f := rank + Dr[k], file + Df[k];
      !IsValidSquare(r, f) ==> Landing(rank, file, k + 1) == Landing(rank, file, k)
  {
  }

  lemma {:induction false} LandingMember(rank: int, file: int, n: nat, j: int)
    requires n <= 8
    ensures j in Landing(rank, file, n) <==> exists k | 0 <= k < n :: Hit(rank, file, k, j)
  {
    if n > 0 {
      LandingMember(rank, file, n - 1, j);
      if Hit(rank, file, n - 1, j) {
        LandingHit(rank, file, n, j);
      } else {
        LandingMiss(rank, file, n, j);
      }
    }
  }

  /** When offset n - 1 lands on j, the first n offsets reach j. */
  lemma LandingHit(rank: int, file: int, n: nat, j: int)
    requires 0 < n <= 8 && Hit(rank, file, n - 1, j)
    ensures j in Landing(rank, file, n) && exists k | 0 <= k < n :: Hit(rank, file, k, j)
  {
  }

  /** When offset n - 1 misses j, the first n offsets reach j iff the first n - 1 do. */
  lemma LandingMiss(rank: int, file: int, n: nat, j: int)
    requires 0 < n <= 8 && !Hit(rank, file, n - 1, j)
    requires j in Landing(rank, file, n - 1) <==> exists k | 0 <= k < n - 1 :: Hit(rank, file, k, j)
    ensures j in Landing(rank, file, n) <==> exists k | 0 <= k < n :: Hit(rank, file, k, j)
  {
    assert j in Landing(rank, file, n) <==> j in Landing(rank, file, n - 1);
  }

  /** The offset that realises a knight's jump by (dr, df). */
  function OffsetOf(dr: int, df: int): (k: int)
    ensures 0 <= k < 8
  {
    if dr == 2 && df == 1 then 0
    else if dr == 2 && df == -1 then 1
    else if dr == 1 && df == 2 then 2
    else if dr == 1 && df == -2 then 3
    else if dr == -1 && df == 2 then 4
    else if dr == -1 && df == -2 then 5
    else if dr == -2 && df == 1 then 6
    else 7
  }

  /** One square: some offset lands on j iff j is a knight's jump from (rank, file). */
  lemma HitIffKnightStep(rank: int, file: int, j: int)
    requires IsValidSquare(rank, file) && 0 <= j < 64
    ensures (exists k | 0 <= k < 8 :: Hit(rank, file, k, j)) <==> KnightStep(ToIndex(rank, file), j)
  {
    var i := ToIndex(rank, file);
    var jr, jf := j / 8, j % 8;
    ToIndexOnto(j);
    if KnightStep(i, j) {
      var k := OffsetOf(jr - rank, jf - file);
      assert Dr[k] == jr - rank && Df[k] == jf - file;
      assert Hit(rank, file, k, j);
    }
    if exists k | 0 <= k < 8 :: Hit(rank, file, k, j) {
      var k :| 0 <= k < 8 && Hit(rank, file, k, j);
      assert k == 0 || k == 1 || k == 2 || k == 3 || k == 4 || k == 5 || k == 6 || k == 7;
      ToIndexInjective(rank + Dr[k], file + Df[k], jr, jf);
    }
  }

  /** The eight offsets reach exactly the knight's jumps. */
  lemma LandingIsKnightTargets(rank: int, file: int)
    requires IsValidSquare(rank, file)
    ensures Landing(rank, file, 8) == KnightTargets(ToIndex(rank, file))
  {
    var i := ToIndex(rank, file);
    forall j ensures j in Landing(rank, file, 8) <==> j in KnightTargets(i) {
      LandingMember(rank, file, 8, j);
      if 0 <= j < 64 {
        HitIffKnightStep(rank, file, j);
      }
    }
  }

  /** The body of the source's inner loop: or together the on-board landing squares of the eight offsets. */
  method SquareMask(rank: int, file: int) returns (mask: Mask)
    requires IsValidSquare(rank, file)
    ensures mask == KnightTargets(ToIndex(rank, file))
  {
    mask := {};
    for k := 0 to 8
      invariant mask == Landing(rank, file, k)
    {
      var r, f := rank + Dr[k], file + Df[k];
      LandingNext(rank, file, k);
      if IsValidSquare(r, f) {
        mask := mask + SetBit(ToIndex(r, f));
      }
    }
    LandingIsKnightTargets(rank, file);
  }

  /** The source's static constructor: fill `Moves[64]` rank by rank, file by file. */
  method BuildMoves() returns (moves: array<Mask>)
    ensures moves.Length == 64
    ensures forall i | 0 <= i < 64 :: moves[i] == KnightTargets(i)
  {
    moves := new Mask[64](_ => {});
    for rank := 0 to 8
      invariant forall i | 0 <= i < rank * 8 :: moves[i] == KnightTargets(i)
    {
      for file := 0 to 8
        invariant forall i | 0 <= i < rank * 8 + file :: moves[i] == KnightTargets(i)
      {
        var index := ToIndex(rank, file);
        var mask := SquareMask(rank, file);
        moves[index] := mask;
      }
    }
  }

  /** A table with exactly the knight's jumps on every square. */
  predicate IsKnightTable(t: seq<Mask>)
  {
    |t| == 64 && forall i | 0 <= i < 64 :: t[i] == KnightTargets(i)
  }

  /** No square is in its own mask, every mask is on the board, and the table is symmetric. */
  lemma KnightTableGeometry(t: seq<Mask>)
    requires IsKnightTable(t)
    ensures forall i | 0 <= i < 64 :: i !in t[i] && IsMask(t[i])
    ensures forall i, j | 0 <= i < 64 && 0 <= j < 64 :: j in t[i] <==> i in t[j]
  {
  }

  /** From a1 the knight reaches only b3 and c2. */
  lemma KnightCorner(t: seq<Mask>)
    requires IsKnightTable(t)
    ensures t[0] == {10, 17}
  {
    forall j | j in t[0] ensures j == 10 || j == 17 {
      ToIndexOnto(j);
    }
    assert KnightStep(0, 10) && KnightStep(0, 17);
  }

  /** The first n offsets land on at most n squares. */
  lemma {:induction false} LandingSize(rank: int, file: int, n: nat)
    requires n <= 8
    ensures |Landing(rank, file, n)| <= n
  {
    if n > 0 {
      LandingSize(rank, file, n - 1);
    }
  }

  /** Every knight mask has between 2 and 8 squares: at most one per offset, and from any square
      at least the two jumps towards the centre stay on the board. */
  lemma KnightCount(i: int)
    requires 0 <= i < 64
    ensures 2 <= |KnightTargets(i)| <= 8
  {
    var r, f := i / 8, i % 8;
    ToIndexOnto(i);
    LandingIsKnightTargets(r, f);
    LandingSize(r, f, 8);
    var sr, sf := if r < 4 then 1 else -1, if f < 4 then 1 else -1;
    var a, b := ToIndex(r + 2 * sr, f + sf), ToIndex(r + sr, f + 2 * sf);
    assert KnightStep(i, a) && KnightStep(i, b) && a != b;
    var pair := {a, b};
    assert KnightTargets(i) == pair + (KnightTargets(i) - pair);
  }
}

