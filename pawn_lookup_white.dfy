/** The white pawn tables: for every square, the squares a white pawn there may advance to
    and the squares it attacks. White moves towards rank 7. */
module PawnLookupWhite {
  import opened BitBoard

  /** j is the square straight ahead of i, or two ahead when i is on White's pawn rank (1). */
  predicate AdvanceStep(i: int, j: int)
  {
    j % 8 == i % 8 && (j / 8 == i / 8 + 1 || (i / 8 == 1 && j / 8 == 3))
  }

  /** j is diagonally ahead of i. */
  predicate AttackStep(i: int, j: int)
  {
    j / 8 == i / 8 + 1 && Abs(j % 8 - i % 8) == 1
  }

  function MoveTargets(i: int): Mask
  {
    set j | 0 <= j < 64 && AdvanceStep(i, j)
  }

  function AttackTargets(i: int): Mask
  {
    set j | 0 <= j < 64 && AttackStep(i, j)
  }

  /** The advance squares of (rank, file), square by square. */
  lemma MoveShape(rank: int, file: int)
    requires IsValidSquare(rank, file)
    ensures MoveTargets(ToIndex(rank, file)) ==
      if rank < 7 then {ToIndex(rank + 1, file)} + (if rank == 1 then {ToIndex(rank + 2, file)} else {})
      else {}
  {
    forall j | 0 <= j < 64 {
      ToIndexOnto(j);
    }
  }

  /** The attacked squares of (rank, file), square by square. */
  lemma AttackShape(rank: int, file: int)
    requires IsValidSquare(rank, file)
    ensures AttackTargets(ToIndex(rank, file)) ==
      if rank < 7 then
        (if file > 0 then {ToIndex(rank + 1, file - 1)} else {}) +
        (if file < 7 then {ToIndex(rank + 1, file + 1)} else {})
      else {}
  {
    forall j | 0 <= j < 64 {
      ToIndexOnto(j);
    }
  }

  /** The body of the source's loop for one square. */
  method SquareMasks(rank: int, file: int) returns (move: Mask, attack: Mask)
    requires IsValidSquare(rank, file)
    ensures move == MoveTargets(ToIndex(rank, file))
    ensures attack == AttackTargets(ToIndex(rank, file))
  {
    move, attack := {}, {};
    if rank < 7 {
      move := move + SetBit(ToIndex(rank + 1, file));
      if rank == 1 {
        move := move + SetBit(ToIndex(rank + 2, file));
      }
      if file > 0 {
        attack := attack + SetBit(ToIndex(rank + 1, file - 1));
      }
      if file < 7 {
        attack := attack + SetBit(ToIndex(rank + 1, file + 1));
      }
    }
    MoveShape(rank, file);
    AttackShape(rank, file);
  }

  /** The source's static constructor: fill `Moves[64]` and `Attacks[64]`. */
  method BuildTables() returns (moves: array<Mask>, attacks: array<Mask>)
    ensures moves.Length == 64 && attacks.Length == 64 && moves != attacks
    ensures forall i | 0 <= i < 64 :: moves[i] == MoveTargets(i) && attacks[i] == AttackTargets(i)
  {
    moves := new Mask[64](_ => {});
    attacks := new Mask[64](_ => {});
    for rank := 0 to 8
      invariant forall i | 0 <= i < rank * 8 :: moves[i] == MoveTargets(i) && attacks[i] == AttackTargets(i)
    {
      for file := 0 to 8
        invariant forall i | 0 <= i < rank * 8 + file ::
          moves[i] == MoveTargets(i) && attacks[i] == AttackTargets(i)
      {
        var index := ToIndex(rank, file);
        var move, attack := SquareMasks(rank, file);
        moves[index] := move;
        attacks[index] := attack;
      }
    }
  }

  /** A pawn on the last rank (7) has neither advances nor attacks; elsewhere its advance and
      attack squares are disjoint, at most two of each, and never its own square. */
  lemma PawnMasks(i: int)
    requires 0 <= i < 64
    ensures i / 8 == 7 ==> MoveTargets(i) == {} && AttackTargets(i) == {}
    ensures MoveTargets(i) * AttackTargets(i) == {}
    ensures |MoveTargets(i)| <= 2 && |AttackTargets(i)| <= 2
    ensures i !in MoveTargets(i) && i !in AttackTargets(i)
  {
    ToIndexOnto(i);
    MoveShape(i / 8, i % 8);
    AttackShape(i / 8, i % 8);
  }
}

