/** The three pseudo-legal move generators, specified once over a board snapshot.
    A generator lists destination squares in the order the source appends them. */
module MoveGen {
  import opened ChessTypes
  import opened BitBoard

  // ----- pawns -----

  /** The rank step of a pawn: +1 for White, -1 for Black. */
  function Forward(c: PieceColor): (d: int)
    ensures d == 1 || d == -1
  {
    if c == White then 1 else -1
  }

  /** A pawn of colour c on this rank may advance two squares. */
  predicate OnHomeRank(c: PieceColor, rank: int)
  {
    (c == White && rank == 1) || (c == Black && rank == 6)
  }

  /** The files a pawn captures towards, in the order the source tries them. */
  const Sides: seq<int> := [-1, 1]

  /** The diagonal capture towards file + df, if that square is on the board and holds an enemy. */
  function Capture(b: Cells, from: int, color: PieceColor, df: int): seq<int>
    requires IsBoard(b) && IsSquare(from)
  {
    var rank, file := from / 8 + Forward(color), from % 8 + df;
    if IsValidSquare(rank, file) && b[ToIndex(rank, file)].Some? && b[ToIndex(rank, file)].value.color != color
    then [ToIndex(rank, file)]
    else []
  }

  /** The push and, from the home rank, the double push: each only onto an empty square, and the
      double push only when the push square is empty too. */
  function PawnPushes(b: Cells, from: int, color: PieceColor): seq<int>
    requires IsBoard(b) && IsSquare(from)
  {
    var rank, file, dir := from / 8, from % 8, Forward(color);
    if 0 <= rank + dir < 8 && b[ToIndex(rank + dir, file)].None? then
      [ToIndex(rank + dir, file)] +
      (if OnHomeRank(color, rank) && b[ToIndex(rank + 2 * dir, file)].None?
       then [ToIndex(rank + 2 * dir, file)] else [])
    else []
  }

  /** The pushes, then the captures towards the first k of Sides. */
  function PawnUpTo(b: Cells, from: int, color: PieceColor, k: nat): seq<int>
    requires IsBoard(b) && IsSquare(from) && k <= |Sides|
  {
    if k == 0 then PawnPushes(b, from, color)
    else PawnUpTo(b, from, color, k - 1) + Capture(b, from, color, Sides[k - 1])
  }

  /** A pawn's destinations: the pushes, then the captures towards file - 1 and file + 1. */
  function PawnMoves(b: Cells, from: int, color: PieceColor): seq<int>
    requires IsBoard(b) && IsSquare(from)
  {
    PawnUpTo(b, from, color, 2)
  }

  /** What a pawn's destinations are, square by square: the push square when it is on the board
      and empty; the double-push square from the home rank when both squares are empty; a
      forward diagonal on the board that holds a piece of the other colour. Nothing else. */
  lemma PawnMovesMember(b: Cells, from: int, color: PieceColor, j: int)
    requires IsBoard(b) && IsSquare(from)
    ensures var rank, file, dir := from / 8, from % 8, Forward(color);
      j in PawnMoves(b, from, color) <==>
        (IsValidSquare(rank + dir, file) && b[ToIndex(rank + dir, file)].None? &&
         j == ToIndex(rank + dir, file)) ||
        (OnHomeRank(color, rank) && b[ToIndex(rank + dir, file)].None? &&
         b[ToIndex(rank + 2 * dir, file)].None? && j == ToIndex(rank + 2 * dir, file)) ||
        (IsValidSquare(rank + dir, file - 1) && j == ToIndex(rank + dir, file - 1) &&
         b[j].Some? && b[j].value.color != color) ||
        (IsValidSquare(rank + dir, file + 1) && j == ToIndex(rank + dir, file + 1) &&
         b[j].Some? && b[j].value.color != color)
  {
    assert Sides[0] == -1 && Sides[1] == 1;
    assert PawnUpTo(b, from, color, 1) == PawnPushes(b, from, color) + Capture(b, from, color, -1);
    assert PawnMoves(b, from, color) == PawnUpTo(b, from, color, 1) + Capture(b, from, color, 1);
  }

  /** A pawn never lands on its own square, off the board, or on a piece of its own colour. */
  lemma PawnMovesSafe(b: Cells, from: int, color: PieceColor)
    requires IsBoard(b) && IsSquare(from)
    ensures forall j | j in PawnMoves(b, from, color) ::
      IsSquare(j) && j != from && EmptyOrEnemy(b, j, color)
  {
    forall j | j in PawnMoves(b, from, color)
      ensures IsSquare(j) && j != from && EmptyOrEnemy(b, j, color)
    {
      PawnMovesMember(b, from, color, j);
    }
  }

  // ----- knights and kings: a lookup mask filtered by occupancy -----

  /** The squares 0 .. n-1 of `mask` that are empty or hold an enemy, in ascending order. */
  function SimpleUpTo(b: Cells, mask: Mask, color: PieceColor, n: nat): seq<int>
    requires IsBoard(b) && n <= 64
  {
    if n == 0 then []
    else
      SimpleUpTo(b, mask, color, n - 1) +
      (if n - 1 in mask && EmptyOrEnemy(b, n - 1, color) then [n - 1] else [])
  }

  /** The destinations of a knight or king whose lookup mask is `mask`. */
  function SimpleMoves(b: Cells, mask: Mask, color: PieceColor): seq<int>
    requires IsBoard(b)
  {
    SimpleUpTo(b, mask, color, 64)
  }

  /** Strictly ascending, so without repetitions. */
  predicate Ascending(s: seq<int>)
  {
    forall k, l | 0 <= k < l < |s| :: s[k] < s[l]
  }

  lemma {:induction false} SimpleUpToMember(b: Cells, mask: Mask, color: PieceColor, n: nat)
    requires IsBoard(b) && n <= 64
    ensures forall j :: j in SimpleUpTo(b, mask, color, n) <==>
      0 <= j < n && j in mask && EmptyOrEnemy(b, j, color)
    ensures Ascending(SimpleUpTo(b, mask, color, n))
  {
    if n > 0 {
      SimpleUpToMember(b, mask, color, n - 1);
      var prev := SimpleUpTo(b, mask, color, n - 1);
      forall k | 0 <= k < |prev| ensures prev[k] < n - 1 {
        assert prev[k] in prev;
      }
    }
  }

  /** The simple destinations are exactly the squares of the mask that are empty or hold an
      enemy, listed in ascending order. */
  lemma SimpleMovesMember(b: Cells, mask: Mask, color: PieceColor)
    requires IsBoard(b)
    ensures forall j :: j in SimpleMoves(b, mask, color) <==>
      IsSquare(j) && j in mask && EmptyOrEnemy(b, j, color)
    ensures Ascending(SimpleMoves(b, mask, color))
  {
    SimpleUpToMember(b, mask, color, 64);
  }

  // ----- bishops, rooks and queens: ray walks -----

  /** A direction of one of the sliding pieces: a non-zero step of at most one rank and one file. */
  predicate Unit(d: (int, int))
  {
    -1 <= d.0 <= 1 && -1 <= d.1 <= 1 && !(d.0 == 0 && d.1 == 0)
  }

  /** How many more squares (r, f) has before the walk in direction d leaves the board. */
  function Steps(r: int, f: int, d: (int, int)): int
  {
    if d.0 > 0 then 8 - r else if d.0 < 0 then r + 1 else if d.1 > 0 then 8 - f else f + 1
  }

  /** The walk from square (r, f) in direction d: empty squares are taken and the walk goes
      on; the first occupied square ends it and is taken only when it holds an enemy. */
  function Ray(b: Cells, r: int, f: int, d: (int, int), color: PieceColor): seq<int>
    requires IsBoard(b) && Unit(d)
    decreases Steps(r, f, d)
  {
    if !IsValidSquare(r, f) then []
    else if b[ToIndex(r, f)].None? then [ToIndex(r, f)] + Ray(b, r + d.0, f + d.1, d, color)
    else if b[ToIndex(r, f)].value.color != color then [ToIndex(r, f)]
    else []
  }

  /** A walk that is not empty starts with (r, f), which is on the board and empty or an enemy;
      if the walk goes on past it, it is empty. */
  lemma RayFirst(b: Cells, r: int, f: int, d: (int, int), color: PieceColor)
    requires IsBoard(b) && Unit(d) && |Ray(b, r, f, d, color)| > 0
    ensures IsValidSquare(r, f) && Ray(b, r, f, d, color)[0] == ToIndex(r, f)
    ensures EmptyOrEnemy(b, ToIndex(r, f), color)
    ensures |Ray(b, r, f, d, color)| > 1 ==> b[ToIndex(r, f)].None?
  {
  }

  /** A walk whose squares so far are `taken` and which goes on from an empty (r, f) takes (r, f)
      and goes on from the next square. */
  lemma WalkThrough(b: Cells, r: int, f: int, d: (int, int), color: PieceColor, taken: seq<int>, whole: seq<int>)
    requires IsBoard(b) && Unit(d) && IsValidSquare(r, f) && b[ToIndex(r, f)].None?
    requires taken + Ray(b, r, f, d, color) == whole
    ensures (taken + [ToIndex(r, f)]) + Ray(b, r + d.0, f + d.1, d, color) == whole
  {
    RayThrough(b, r, f, d, color);
    assert taken + ([ToIndex(r, f)] + Ray(b, r + d.0, f + d.1, d, color)) ==
      (taken + [ToIndex(r, f)]) + Ray(b, r + d.0, f + d.1, d, color);
  }

  /** A walk that reaches an occupied (r, f) ends there, taking it only when it holds an enemy. */
  lemma WalkBlocked(b: Cells, r: int, f: int, d: (int, int), color: PieceColor, taken: seq<int>, whole: seq<int>)
    requires IsBoard(b) && Unit(d) && IsValidSquare(r, f) && b[ToIndex(r, f)].Some?
    requires taken + Ray(b, r, f, d, color) == whole
    ensures b[ToIndex(r, f)].value.color != color ==> taken + [ToIndex(r, f)] == whole
    ensures b[ToIndex(r, f)].value.color == color ==> taken == whole
  {
  }

  /** A walk that has left the board has taken all its squares. */
  lemma WalkOff(b: Cells, r: int, f: int, d: (int, int), color: PieceColor, taken: seq<int>, whole: seq<int>)
    requires IsBoard(b) && Unit(d) && !IsValidSquare(r, f)
    requires taken + Ray(b, r, f, d, color) == whole
    ensures taken == whole
  {
  }

  /** Through an empty square the walk takes that square and goes on from the next one. */
  lemma RayThrough(b: Cells, r: int, f: int, d: (int, int), color: PieceColor)
    requires IsBoard(b) && Unit(d) && IsValidSquare(r, f) && b[ToIndex(r, f)].None?
    ensures Ray(b, r, f, d, color) == [ToIndex(r, f)] + Ray(b, r + d.0, f + d.1, d, color)
  {
  }

  /** The square `k` steps from (r, f) in direction d. */
  function At(r: int, f: int, d: (int, int), k: int): (int, int)
  {
    (r + Times(k, d.0), f + Times(k, d.1))
  }

  /** k + 1 steps from (r, f) is k steps from the next square. */
  lemma AtStep(r: int, f: int, d: (int, int), k: int)
    requires Unit(d)
    ensures At(r, f, d, k + 1) == At(r + d.0, f + d.1, d, k)
  {
  }

  /** Entry k of the walk from (r, f) is the square k steps along d; it is empty or an enemy,
      and it is empty unless it is the last entry. */
  lemma {:induction false} RayAt(b: Cells, r: int, f: int, d: (int, int), color: PieceColor, k: int)
    requires IsBoard(b) && Unit(d) && 0 <= k < |Ray(b, r, f, d, color)|
    ensures IsValidSquare(At(r, f, d, k).0, At(r, f, d, k).1)
    ensures Ray(b, r, f, d, color)[k] == ToIndex(At(r, f, d, k).0, At(r, f, d, k).1)
    ensures EmptyOrEnemy(b, Ray(b, r, f, d, color)[k], color)
    ensures k < |Ray(b, r, f, d, color)| - 1 ==> b[Ray(b, r, f, d, color)[k]].None?
    decreases k, 1
  {
    if k == 0 {
      RayFirst(b, r, f, d, color);
      assert At(r, f, d, 0) == (r, f);
    } else {
      RayAtLater(b, r, f, d, color, k);
    }
  }

  /** Entry k > 0 of the walk from (r, f) is entry k - 1 of the walk from the next square. */
  lemma {:induction false} RayAtLater(b: Cells, r: int, f: int, d: (int, int), color: PieceColor, k: int)
    requires IsBoard(b) && Unit(d) && 0 < k < |Ray(b, r, f, d, color)|
    ensures IsValidSquare(At(r, f, d, k).0, At(r, f, d, k).1)
    ensures Ray(b, r, f, d, color)[k] == ToIndex(At(r, f, d, k).0, At(r, f, d, k).1)
    ensures EmptyOrEnemy(b, Ray(b, r, f, d, color)[k], color)
    ensures k < |Ray(b, r, f, d, color)| - 1 ==> b[Ray(b, r, f, d, color)[k]].None?
    decreases k, 0
  {
    RayFirst(b, r, f, d, color);
    var rest := Ray(b, r + d.0, f + d.1, d, color);
    RayThrough(b, r, f, d, color);
    assert Ray(b, r, f, d, color)[k] == rest[k - 1];
    RayAt(b, r + d.0, f + d.1, d, color, k - 1);
    AtStep(r, f, d, k - 1);
    assert At(r, f, d, k) == At(r + d.0, f + d.1, d, k - 1);
  }

  /** Square sq is on the board and holds a piece of colour c. */
  predicate FriendAt(b: Cells, sq: (int, int), c: PieceColor)
    requires IsBoard(b)
  {
    IsValidSquare(sq.0, sq.1) && HoldsColor(b, ToIndex(sq.0, sq.1), c)
  }

  /** Square sq is on the board and holds a piece of the other colour than c. */
  predicate EnemyAt(b: Cells, sq: (int, int), c: PieceColor)
    requires IsBoard(b)
  {
    IsValidSquare(sq.0, sq.1) && b[ToIndex(sq.0, sq.1)].Some? && b[ToIndex(sq.0, sq.1)].value.color != c
  }

  /** The walk from (r, f) cannot go on after n squares: square n is off the board or holds a
      piece of the mover's colour, or square n - 1 holds an enemy. */
  predicate Stopped(b: Cells, r: int, f: int, d: (int, int), color: PieceColor, n: int)
    requires IsBoard(b)
  {
    !IsValidSquare(At(r, f, d, n).0, At(r, f, d, n).1) || FriendAt(b, At(r, f, d, n), color) ||
    (n > 0 && EnemyAt(b, At(r, f, d, n - 1), color))
  }

  /** Stopping n squares after the next square is stopping n + 1 squares after this one. */
  lemma StoppedStep(b: Cells, r: int, f: int, d: (int, int), color: PieceColor, n: int)
    requires IsBoard(b) && Unit(d) && n >= 0
    requires Stopped(b, r + d.0, f + d.1, d, color, n)
    ensures Stopped(b, r, f, d, color, n + 1)
  {
    AtStep(r, f, d, n);
    if n > 0 {
      AtStep(r, f, d, n - 1);
    }
  }

  /** A walk whose first square is off the board or occupied stops at once: it is empty, or it is
      that one enemy square. */
  lemma RayEndHere(b: Cells, r: int, f: int, d: (int, int), color: PieceColor)
    requires IsBoard(b) && Unit(d)
    requires !(IsValidSquare(r, f) && b[ToIndex(r, f)].None?)
    ensures Stopped(b, r, f, d, color, |Ray(b, r, f, d, color)|)
  {
    assert At(r, f, d, 0) == (r, f);
  }

  /** Why the walk from (r, f) stops where it does. */
  lemma {:induction false} RayEnd(b: Cells, r: int, f: int, d: (int, int), color: PieceColor)
    requires IsBoard(b) && Unit(d)
    ensures Stopped(b, r, f, d, color, |Ray(b, r, f, d, color)|)
    decreases Steps(r, f, d), 1
  {
    if IsValidSquare(r, f) && b[ToIndex(r, f)].None? {
      RayEndOn(b, r, f, d, color);
    } else {
      RayEndHere(b, r, f, d, color);
    }
  }

  /** The walk through an empty square stops one square after the walk from the next one. */
  lemma {:induction false} RayEndOn(b: Cells, r: int, f: int, d: (int, int), color: PieceColor)
    requires IsBoard(b) && Unit(d)
    requires IsValidSquare(r, f) && b[ToIndex(r, f)].None?
    ensures Stopped(b, r, f, d, color, |Ray(b, r, f, d, color)|)
    decreases Steps(r, f, d), 0
  {
    var n := |Ray(b, r + d.0, f + d.1, d, color)|;
    assert Stopped(b, r, f, d, color, n + 1) by {
      RayEnd(b, r + d.0, f + d.1, d, color);
      StoppedStep(b, r, f, d, color, n);
    }
    assert |Ray(b, r, f, d, color)| == n + 1;
  }

  /** The walk of a piece on (rank, file) in direction d: it starts on the next square. */
  function RayFrom(b: Cells, rank: int, file: int, d: (int, int), color: PieceColor): seq<int>
    requires IsBoard(b) && Unit(d)
  {
    Ray(b, rank + d.0, file + d.1, d, color)
  }

  /** The destinations of a sliding piece on (rank, file): the walks in each of `dirs`, in order. */
  function Slide(b: Cells, rank: int, file: int, color: PieceColor, dirs: seq<(int, int)>): seq<int>
    requires IsBoard(b) && forall k | 0 <= k < |dirs| :: Unit(dirs[k])
  {
    if |dirs| == 0 then []
    else Slide(b, rank, file, color, dirs[..|dirs| - 1]) + RayFrom(b, rank, file, dirs[|dirs| - 1], color)
  }

  /** A sliding piece's destinations are the squares of its walks, one per direction. */
  lemma {:induction false} SlideMember(b: Cells, rank: int, file: int, color: PieceColor,
                                       dirs: seq<(int, int)>, j: int)
    requires IsBoard(b) && forall k | 0 <= k < |dirs| :: Unit(dirs[k])
    ensures j in Slide(b, rank, file, color, dirs) <==>
      exists k | 0 <= k < |dirs| :: j in RayFrom(b, rank, file, dirs[k], color)
  {
    if |dirs| > 0 {
      var n := |dirs| - 1;
      SlideMember(b, rank, file, color, dirs[..n], j);
      SlidePrefix(b, rank, file, color, dirs, j);
      SlideLast(b, rank, file, color, dirs, j);
    }
  }

  /** Walking the first n directions of dirs is walking the directions of dirs[..n]. */
  lemma SlidePrefix(b: Cells, rank: int, file: int, color: PieceColor, dirs: seq<(int, int)>, j: int)
    requires IsBoard(b) && |dirs| > 0 && forall k | 0 <= k < |dirs| :: Unit(dirs[k])
    ensures var n := |dirs| - 1;
      (exists k | 0 <= k < n :: j in RayFrom(b, rank, file, dirs[..n][k], color)) <==>
      (exists k | 0 <= k < n :: j in RayFrom(b, rank, file, dirs[k], color))
  {
    var n := |dirs| - 1;
    assert forall k | 0 <= k < n :: dirs[..n][k] == dirs[k];
  }

  /** A square is among the walks of all of dirs iff it is among those of the first |dirs| - 1
      or on the last one. */
  lemma SlideLast(b: Cells, rank: int, file: int, color: PieceColor, dirs: seq<(int, int)>, j: int)
    requires IsBoard(b) && |dirs| > 0 && forall k | 0 <= k < |dirs| :: Unit(dirs[k])
    ensures var n := |dirs| - 1;
      (exists k | 0 <= k < |dirs| :: j in RayFrom(b, rank, file, dirs[k], color)) <==>
      (exists k | 0 <= k < n :: j in RayFrom(b, rank, file, dirs[k], color)) ||
      j in RayFrom(b, rank, file, dirs[n], color)
  {
  }

  /** The destinations of a sliding piece on `from` moving along `dirs`. */
  function SlidingMoves(b: Cells, from: int, color: PieceColor, dirs: seq<(int, int)>): seq<int>
    requires IsBoard(b) && forall k | 0 <= k < |dirs| :: Unit(dirs[k])
  {
    Slide(b, from / 8, from % 8, color, dirs)
  }

  const BishopDirs: seq<(int, int)> := [(1, 1), (1, -1), (-1, 1), (-1, -1)]
  const RookDirs: seq<(int, int)> := [(1, 0), (-1, 0), (0, 1), (0, -1)]
  const QueenDirs: seq<(int, int)> := RookDirs + BishopDirs
}
