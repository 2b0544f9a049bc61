/** Square indexing and square masks.
    A square is `rank * 8 + file`. The source keeps masks in a 64-bit word
    whose bit j stands for square j; here a mask is the set of the squares
    whose bits are set, so `1UL << i` is `{i}`, `a | b` is `a + b`, the test
    `(m & (1UL << i)) != 0` is `i in m` and a popcount is a cardinality. */
module BitBoard {

  const BoardSize: int := 8

  /** A 64-bit square mask, as the set of its set bits. */
  type Mask = set<int>

  predicate IsValidSquare(rank: int, file: int)
  {
    0 <= rank < BoardSize && 0 <= file < BoardSize
  }

  function ToIndex(rank: int, file: int): (i: int)
    ensures IsValidSquare(rank, file) ==> 0 <= i < 64 && i / 8 == rank && i % 8 == file
  {
    rank * 8 + file
  }

  /** Every square of the board is the index of its own rank and file. */
  lemma ToIndexOnto(i: int)
    requires 0 <= i < 64
    ensures IsValidSquare(i / 8, i % 8) && ToIndex(i / 8, i % 8) == i
  {
  }

  /** Two valid (rank, file) pairs with the same index are the same pair. */
  lemma ToIndexInjective(r1: int, f1: int, r2: int, f2: int)
    requires IsValidSquare(r1, f1) && IsValidSquare(r2, f2)
    ensures ToIndex(r1, f1) == ToIndex(r2, f2) <==> r1 == r2 && f1 == f2
  {
  }

  /** The mask with exactly bit `index` set (`1UL << index`). */
  function SetBit(index: int): (m: Mask)
    requires 0 <= index < 64
  {
    {index}
  }

  /** A mask whose bits all stand for squares of the board. */
  predicate IsMask(m: Mask)
  {
    forall j :: j in m ==> 0 <= j < 64
  }

  // ----- integer helpers shared by the geometry of tables, generators and attacks -----

  function Abs(x: int): (a: int)
    ensures a >= 0 && (a == x || a == -x)
  {
    if x < 0 then -x else x
  }

  function Sign(x: int): (s: int)
    ensures (x > 0 ==> s == 1) && (x == 0 ==> s == 0) && (x < 0 ==> s == -1)
  {
    if x > 0 then 1 else if x < 0 then -1 else 0
  }

  /** s * d, written by cases so that unit directions stay linear for the solver. */
  function Times(s: int, d: int): int
  {
    if d == 1 then s else if d == -1 then -s else if d == 0 then 0 else s * d
  }

  function RankOf(i: int): int { i / 8 }

  function FileOf(i: int): int { i % 8 }

  /** C#'s integer `/`, which truncates toward zero (Dafny's `/` is Euclidean); the two agree
      on non-negative dividends. */
  function Quot(x: int, d: int): (q: int)
    requires d > 0
    ensures x >= 0 ==> q == x / d
    ensures x < 0 ==> q <= 0 && -x - d < -q * d <= -x
  {
    if x >= 0 then x / d else -((-x) / d)
  }

  /** C#'s integer `%`: the remainder that goes with `Quot`, carrying the dividend's sign. */
  function Rem(x: int, d: int): (r: int)
    requires d > 0
    ensures x >= 0 ==> r == x % d
    ensures -d < r < d && x == Quot(x, d) * d + r
  {
    x - Quot(x, d) * d
  }

  /** `SetBit(i)` has exactly one bit set, bit i. */
  lemma SetBitSingle(i: int, j: int)
    requires 0 <= i < 64
    ensures j in SetBit(i) <==> j == i
    ensures |SetBit(i)| == 1
  {
  }

  // ----- counting squares: the popcounts of the tables -----

  /** The squares on ranks rlo..rhi and files flo..fhi. */
  function Rect(rlo: int, rhi: int, flo: int, fhi: int): Mask
  {
    set j | 0 <= j < 64 && rlo <= j / 8 <= rhi && flo <= j % 8 <= fhi
  }

  /** One rank's files flo..fhi: fhi - flo + 1 squares. */
  lemma {:induction false} SpanCard(r: int, flo: int, fhi: int)
    requires 0 <= r < 8 && 0 <= flo <= fhi + 1 && fhi < 8
    ensures |Rect(r, r, flo, fhi)| == fhi - flo + 1
    decreases fhi - flo
  {
    if fhi < flo {
      assert Rect(r, r, flo, fhi) == {};
    } else {
      SpanCard(r, flo, fhi - 1);
      assert Rect(r, r, flo, fhi) == Rect(r, r, flo, fhi - 1) + {ToIndex(r, fhi)};
    }
  }

  /** h rows of w squares each. */
  function Area(h: int, w: int): int
    decreases h
  {
    if h <= 0 then 0 else Area(h - 1, w) + w
  }

  /** A rectangle of ranks and files has as many squares as its height times its width. */
  lemma {:induction false} RectCard(rlo: int, rhi: int, flo: int, fhi: int)
    requires 0 <= rlo <= rhi + 1 && rhi < 8 && 0 <= flo <= fhi + 1 && fhi < 8
    ensures |Rect(rlo, rhi, flo, fhi)| == Area(rhi - rlo + 1, fhi - flo + 1)
    decreases rhi - rlo
  {
    if rhi < rlo {
      assert Rect(rlo, rhi, flo, fhi) == {};
    } else {
      RectCard(rlo, rhi - 1, flo, fhi);
      SpanCard(rhi, flo, fhi);
      var below, top := Rect(rlo, rhi - 1, flo, fhi), Rect(rhi, rhi, flo, fhi);
      RectTopRank(rlo, rhi, flo, fhi);
      assert |below + top| == |below| + |top| by {
        assert below * top == {};
      }
    }
  }

  /** A rectangle is its ranks below the top one together with its top rank, disjointly. */
  lemma RectTopRank(rlo: int, rhi: int, flo: int, fhi: int)
    requires rlo <= rhi
    ensures Rect(rlo, rhi, flo, fhi) == Rect(rlo, rhi - 1, flo, fhi) + Rect(rhi, rhi, flo, fhi)
    ensures Rect(rlo, rhi - 1, flo, fhi) * Rect(rhi, rhi, flo, fhi) == {}
  {
  }
}
