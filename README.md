# Chess move engine — a Dafny model

This project models the move-generation core of a small C# chess server. The board is 64
slots indexed `rank * 8 + file`, and each slot is empty or holds a piece (type, colour,
`HasMoved`).

The `ChessGame` class:

- sets up the standard position;
- moves a piece and passes the turn;
- lists the pseudo-legal destinations of a piece (pawn pushes and captures, knight and king
  jumps from lookup masks, and bishop, rook and queen ray walks);
- filters them by playing each move on the live board, asking whether the mover's king is in
  check, and taking the move back.

Beside it stand several helpers:

- `MovementHelper` holds the same three generators over a board passed in.
- `CastlingHelper` holds an attack test, the two castling conditions and a small flag machine
  that follows one castle from offer to completion.
- `EnPassantHelper` and `PromotionHelper` each track one square.
- `BoardHelper` writes the initial position.
- `BitBoardHelper` does the square arithmetic.
- Seven static lookup tables hold the reach of every piece from every square as 64-bit masks.

Modules:

- `ChessTypes` holds the pieces and the board snapshot.
- `BitBoard` holds square indexing and masks: a mask is the set of its set bits.
- `MoveGen` specifies the three generators once, as functions of a board snapshot.
- `MovementHelper` holds the imperative generators, proved equal to those functions.
- `SlideGeometry` relates the ray walks to the lookup tables.
- `Rules` holds the king search, check and the check filter, as functions.
- `Game` holds the `ChessGame` class.
- One module per lookup table.
- `BoardHelper`, `Castling`, `EnPassant` and `Promotion`.

Behaviour of the code that the model keeps, and that a reader might not expect:

- The helpers are not called by `ChessGame`. So the game's turn always alternates, and no
  castling, en passant or promotion effect reaches its board.
- `HasMoved` is never set to true. The castling conditions therefore look at whatever unmoved
  pieces stand on the king and rook squares.
- A colour with no king counts as in check. This is not treated as an error.
- `PromotePawn` does not clear the pending promotion square.
- `GetSlidingMoves` ignores the mask it is passed.

## Model

| member | source | states |
|---|---|---|
| ChessTypes.NewPiece | ChessServer/Logic/Piece.cs:3-6 | a new piece has the given type and colour and `HasMoved` false |
| ChessTypes.MoveOnBoard | ChessServer/Logic/ChessGame.cs:59-62 | after a move the origin is empty; the destination holds the moved piece unless it is the origin; every other square is unchanged |
| BitBoard.ToIndex | ChessServer/Logic/BitBoardHelper.cs:12 | for a valid rank and file the index is on the board, and dividing by 8 gives back the rank and file |
| BitBoard.ToIndexOnto | ChessServer/Logic/BitBoardHelper.cs:9-12 | every square 0..63 is valid when split into rank and file, and is the index of that pair |
| BitBoard.ToIndexInjective | ChessServer/Logic/BitBoardHelper.cs:12 | two valid pairs have the same index exactly when they are the same pair |
| BitBoard.SetBitSingle | ChessServer/Logic/BitBoardHelper.cs:14 | the mask of one square has exactly one member, that square |
| BitBoard.Quot | ChessServer/Helpers/EnPassantHelper.cs:13-17 | C#'s truncating division: equal to Euclidean division on non-negative values, rounded toward zero on negative ones |
| BitBoard.Rem | ChessServer/Helpers/EnPassantHelper.cs:13-17 | C#'s remainder: it pairs with `Quot` to rebuild the dividend and is smaller than the divisor in magnitude |
| BitBoard.RectCard | ChessServer/Logic/KingLookup.cs:16-26 | a block of ranks and files has height times width squares |
| BitBoard.SpanCard | ChessServer/Logic/RookLookup.cs:19-29 | a run of files on one rank has as many squares as files |
| BitBoard.RectTopRank | ChessServer/Logic/KingLookup.cs:16-26 | a block is its lower ranks plus its top rank, disjointly |
| MoveGen.PawnMovesMember | ChessServer/Helpers/MovementHelper.cs:10-53 | a pawn's destinations are exactly: the empty push square; the double-push square from the home rank when both squares are empty; a forward diagonal on the board holding an enemy |
| MoveGen.PawnMovesSafe | ChessServer/Helpers/MovementHelper.cs:16-50 | no pawn destination is off the board, the origin, or a friendly piece |
| MoveGen.SimpleMovesMember | ChessServer/Helpers/MovementHelper.cs:55-68 | knight and king destinations are exactly the mask squares on the board that are empty or enemy, in strictly ascending order |
| MoveGen.SimpleUpToMember | ChessServer/Helpers/MovementHelper.cs:58-66 | after the first n squares of the scan, the list holds exactly the qualifying mask squares below n, ascending |
| MoveGen.RayFirst | ChessServer/Helpers/MovementHelper.cs:81-102 | a non-empty walk starts on the next square, which is empty or an enemy, and is empty if the walk goes on |
| MoveGen.RayAt | ChessServer/Helpers/MovementHelper.cs:81-102 | entry k of a walk is the square k steps along the direction, empty or enemy, and empty unless it is the last entry |
| MoveGen.RayEnd | ChessServer/Helpers/MovementHelper.cs:81-102 | a walk stops only at the board's edge, at a friendly piece, or just after taking an enemy piece |
| MoveGen.SlideMember | ChessServer/Helpers/MovementHelper.cs:76-103 | a slider's destinations are exactly the squares of its walks, one walk per direction |
| MoveGen.WalkThrough | ChessServer/Helpers/MovementHelper.cs:86-101 | an empty square is taken and the walk goes on |
| MoveGen.WalkBlocked | ChessServer/Helpers/MovementHelper.cs:90-98 | an occupied square ends the walk and is taken only when it holds an enemy |
| SlideGeometry.SlideInLines | ChessServer/Logic/ChessGame.cs:83-119 | every sliding destination is on the board, not the origin, empty or enemy, and on the queen's lines (on the bishop's for diagonal directions, on the rook's for straight ones) |
| SlideGeometry.SlidingMovesSafe | ChessServer/Logic/ChessGame.cs:83-119 | sliding destinations are never the origin, off the board or friendly, and always lie in the mask of the piece the directions belong to, although that mask is not consulted |
| SlideGeometry.RayLine | ChessServer/Helpers/MovementHelper.cs:81-102 | every square of one walk lies on that direction's line through the origin |
| MovementHelper.GetPawnMoves | ChessServer/Helpers/MovementHelper.cs:10-53 | returns exactly the pawn destinations of the board it reads, pushes before captures; it writes nothing |
| MovementHelper.CaptureTowards | ChessServer/Helpers/MovementHelper.cs:38-50 | one diagonal: the square when it is on the board and holds an enemy, otherwise nothing |
| MovementHelper.GetSimpleMoves | ChessServer/Helpers/MovementHelper.cs:55-68 | returns exactly the simple destinations for the mask, ascending; it writes nothing |
| MovementHelper.GetSlidingMoves | ChessServer/Helpers/MovementHelper.cs:70-106 | returns the walks of all directions in order, and the result does not depend on the mask; it writes nothing |
| MovementHelper.Walk | ChessServer/Helpers/MovementHelper.cs:78-102 | one direction's walk, up to and including an enemy blocker and excluding a friendly one |
| Rules.PseudoMovesSafe | ChessServer/Logic/ChessGame.cs:177-199 | no pseudo-legal destination of any piece is off the board, the origin, or a friendly piece |
| Rules.FirstKingSpec | ChessServer/Logic/ChessGame.cs:231-239 | the king search finds the lowest square holding the colour's king, and returns -1 exactly when there is none |
| Rules.FirstKingStays | ChessServer/Logic/ChessGame.cs:231-239 | once a king is found, scanning further does not change the answer |
| Rules.InCheckWithoutKing | ChessServer/Logic/ChessGame.cs:241 | a colour with no king on the board counts as in check |
| Rules.InCheckWithKing | ChessServer/Logic/ChessGame.cs:244-279 | with a king, the colour is in check exactly when some enemy piece lists the king's square among its destinations |
| Rules.KeepSafeMember | ChessServer/Logic/ChessGame.cs:202-221 | a destination survives the filter exactly when it was offered and the king is safe after it |
| Rules.LegalMovesMember | ChessServer/Logic/ChessGame.cs:170-222 | an offered move is pseudo-legal and leaves the mover out of check, and every such move is offered; offered moves are on the board, not the origin, and not friendly |
| Game.BuildTables | ChessServer/Logic/QueenLookup.cs:7-11 | the five tables the game reads hold exactly each piece's reach; the queen table is built from the bishop and rook tables |
| Game.ChessGame.constructor | ChessServer/Logic/ChessGame.cs:13-48 | a new game has White to move and the standard position on an otherwise empty board |
| Game.ChessGame.SetupInitialPosition | ChessServer/Logic/ChessGame.cs:21-48 | the home ranks get their pieces and squares 16 to 47 keep what they had |
| Game.ChessGame.GetPieceAt | ChessServer/Logic/ChessGame.cs:50 | returns the slot's content |
| Game.ChessGame.MovePiece | ChessServer/Logic/ChessGame.cs:55-66 | an empty origin changes nothing, turn included; otherwise the board is the moved board (with from == to the piece is erased) and the turn passes |
| Game.ChessGame.GetSimpleMoves | ChessServer/Logic/ChessGame.cs:68-81 | the simple destinations of the mask on the game's board |
| Game.ChessGame.GetSlidingMoves | ChessServer/Logic/ChessGame.cs:83-119 | the sliding destinations on the game's board, independent of the mask passed |
| Game.ChessGame.GetPawnMoves | ChessServer/Logic/ChessGame.cs:121-164 | the pawn destinations on the game's board |
| Game.ChessGame.MovesFor | ChessServer/Logic/ChessGame.cs:177-199 | the switch on the piece kind gives that piece's pseudo-legal destinations |
| Game.ChessGame.GetAvailableMoves | ChessServer/Logic/ChessGame.cs:170-222 | the board is exactly as before; the result is the legal destinations of the piece, in generator order; an empty square gives none |
| Game.ChessGame.TryMove | ChessServer/Logic/ChessGame.cs:204-219 | one simulated move: the board is restored exactly, and the answer is whether the mover is safe after the move |
| Game.ChessGame.IsKingInCheck | ChessServer/Logic/ChessGame.cs:226-280 | true with no king; otherwise true exactly when an enemy piece's destinations contain the first king's square |
| Game.ChessGame.FindKing | ChessServer/Logic/ChessGame.cs:231-239 | the lowest square of the colour's king, or -1 |
| BoardHelper.BackRank | ChessServer/Helpers/BoardHelper.cs:18-25 | the king stands on file 4 and the queen on file 3, and on no other file |
| BoardHelper.PlaceBackRank | ChessServer/Helpers/BoardHelper.cs:18-25 | rank 0 (White) or 7 (Black) gets R, N, B, Q, K, B, N, R; no other rank is written |
| BoardHelper.InitialWhitePiecesPosition | ChessServer/Helpers/BoardHelper.cs:31-44 | squares 0 to 15 get the white back rank and pawns; squares 16 to 63 are unchanged |
| BoardHelper.InitialBlackPiecesPosition | ChessServer/Helpers/BoardHelper.cs:16-29 | squares 48 to 63 get the black pawns and back rank; squares 0 to 47 are unchanged |
| BoardHelper.SetupInitialPosition | ChessServer/Helpers/BoardHelper.cs:7-14 | the board becomes the setup of the old board: home squares written, squares 16 to 47 untouched |
| BoardHelper.GetPieceAt | ChessServer/Helpers/BoardHelper.cs:46 | returns the slot's content and writes nothing |
| BoardHelper.SetupKings | ChessServer/Helpers/BoardHelper.cs:22 | the setup puts a king on exactly two of the squares it writes: White's on 4 and Black's on 60 |
| BoardHelper.InitialOccupancy | ChessServer/Helpers/BoardHelper.cs:7-44 | a new board is occupied exactly on ranks 0, 1, 6 and 7, White below and Black above, by unmoved pieces |
| KnightLookup.SquareMask | ChessServer/Logic/KnightLookup.cs:16-26 | the inner loop's mask is exactly the knight's jumps from the square |
| KnightLookup.BuildMoves | ChessServer/Logic/KnightLookup.cs:7-29 | every entry is the knight's jumps from its square |
| KnightLookup.LandingIsKnightTargets | ChessServer/Logic/KnightLookup.cs:9-25 | the eight offsets that stay on the board reach exactly the squares one rank and two files, or two ranks and one file, away |
| KnightLookup.KnightTableGeometry | ChessServer/Logic/KnightLookup.cs:9-26 | no square is in its own mask, masks are on the board, and the table is symmetric |
| KnightLookup.KnightCorner | ChessServer/Logic/KnightLookup.cs:19-26 | the mask of square 0 is {10, 17} |
| KnightLookup.KnightCount | ChessServer/Logic/KnightLookup.cs:19-26 | every mask has between 2 and 8 squares |
| KnightLookup.LandingSize | ChessServer/Logic/KnightLookup.cs:19-25 | n offsets add at most n squares |
| KingLookup.SquareMask | ChessServer/Logic/KingLookup.cs:14-26 | the inner loops' mask is exactly the squares at distance one |
| KingLookup.BuildMoves | ChessServer/Logic/KingLookup.cs:7-30 | every entry is the king's neighbours of its square |
| KingLookup.KingTableGeometry | ChessServer/Logic/KingLookup.cs:16-25 | no square is in its own mask, masks are on the board, and the table is symmetric |
| KingLookup.KingBlock | ChessServer/Logic/KingLookup.cs:16-26 | a king's mask is the clipped 3x3 block around it, without its own square |
| KingLookup.KingCount | ChessServer/Logic/KingLookup.cs:16-27 | masks have 3 squares on corners, 5 on other edge squares and 8 inside |
| BishopLookup.SquareMask | ChessServer/Logic/BishopLookup.cs:17-31 | the four diagonal walks cover exactly the squares with equal non-zero rank and file distance |
| BishopLookup.BuildMoves | ChessServer/Logic/BishopLookup.cs:7-34 | every entry is the diagonal reach of its square |
| BishopLookup.StepKeepsColour | ChessServer/Logic/BishopLookup.cs:19-29 | a diagonal step keeps the parity of rank plus file |
| BishopLookup.BishopTableGeometry | ChessServer/Logic/BishopLookup.cs:9-29 | no square is in its own mask, masks are on the board, the table is symmetric, and every square of a mask has its origin's colour |
| RookLookup.SquareMask | ChessServer/Logic/RookLookup.cs:17-31 | the four straight walks cover exactly the other squares of the rank and file |
| RookLookup.BuildMoves | ChessServer/Logic/RookLookup.cs:7-34 | every entry is the rank-and-file reach of its square |
| RookLookup.RookCount | ChessServer/Logic/RookLookup.cs:19-31 | every mask has exactly 14 squares |
| RookLookup.RookTableGeometry | ChessServer/Logic/RookLookup.cs:9-31 | no square is in its own mask, masks hold 14 squares of the board, and the table is symmetric |
| QueenLookup.BuildMoves | ChessServer/Logic/QueenLookup.cs:7-11 | every entry is the queen's reach of its square, built from the bishop and rook tables |
| QueenLookup.QueenIsBishopOrRook | ChessServer/Logic/QueenLookup.cs:9-10 | a queen's line is a bishop's diagonal or a rook's rank or file, and nothing else |
| QueenLookup.QueenTableGeometry | ChessServer/Logic/QueenLookup.cs:9-10 | each entry is the union of the bishop and rook entries and contains both; no square is in its own mask; the table is symmetric |
| PawnLookupWhite.MoveShape | ChessServer/Logic/PawnLookupWhite.cs:17-21 | below rank 7 the advance mask is the square ahead, plus the one two ahead exactly from rank 1; on rank 7 it is empty |
| PawnLookupWhite.AttackShape | ChessServer/Logic/PawnLookupWhite.cs:17-26 | below rank 7 the attack mask is the forward diagonals that exist; on rank 7 it is empty |
| PawnLookupWhite.SquareMasks | ChessServer/Logic/PawnLookupWhite.cs:17-26 | one square's loop body gives its advance and attack masks |
| PawnLookupWhite.BuildTables | ChessServer/Logic/PawnLookupWhite.cs:8-33 | both 64-entry tables hold exactly those masks, in two distinct arrays |
| PawnLookupWhite.PawnMasks | ChessServer/Logic/PawnLookupWhite.cs:17-30 | both masks are empty on rank 7; they are disjoint, have at most two squares each, and never contain the origin |
| PawnLookupBlack.MoveShape | ChessServer/Logic/PawnLookupBlack.cs:17-24 | above rank 0 the advance mask is the square ahead, plus the one two ahead exactly from rank 6; on rank 0 it is empty |
| PawnLookupBlack.AttackShape | ChessServer/Logic/PawnLookupBlack.cs:17-30 | above rank 0 the attack mask is the forward diagonals that exist; on rank 0 it is empty |
| PawnLookupBlack.SquareMasks | ChessServer/Logic/PawnLookupBlack.cs:17-30 | one square's loop body gives its advance and attack masks |
| PawnLookupBlack.BuildTables | ChessServer/Logic/PawnLookupBlack.cs:8-37 | both 64-entry tables hold exactly those masks, in two distinct arrays |
| PawnLookupBlack.PawnMasks | ChessServer/Logic/PawnLookupBlack.cs:17-34 | both masks are empty on rank 0; they are disjoint, have at most two squares each, and never contain the origin |
| Castling.HomeRank | ChessServer/Helpers/CastlingHelper.cs:46 | the castling rank is 0 or 7 |
| Castling.SlideAttackIff | ChessServer/Helpers/CastlingHelper.cs:170-192 | a slider reaches the target exactly when the target lies some steps along the direction with only empty squares strictly between |
| Castling.AttackedBelowSpec | ChessServer/Helpers/CastlingHelper.cs:108-165 | the board scan finds an attacker exactly when some square holds an enemy piece attacking the target |
| Castling.AttackedAbove | ChessServer/Helpers/CastlingHelper.cs:108-167 | an attacker found early is an attacker for the whole scan |
| Castling.JumpsAreKnightSteps | ChessServer/Helpers/CastlingHelper.cs:141-150 | the attack test's knight offsets are exactly the knight table's jumps |
| Castling.KingAttackIsKingStep | ChessServer/Helpers/CastlingHelper.cs:160-163 | apart from its own square, the king's attack rule is the king table's |
| Castling.CastleOfferShape | ChessServer/Helpers/CastlingHelper.cs:259-283 | the offer has at most two entries, only the colour's two castling squares, each present exactly when its condition holds, all on the home rank |
| Castling.NoCastleThroughPieces | ChessServer/Helpers/CastlingHelper.cs:56-80 | with pieces between king and rooks, nothing is offered |
| Castling.CheckMoveSpec | ChessServer/Helpers/CastlingHelper.cs:19-35 | nothing changes unless a king of the recorded colour with a right moves; then a castle is in progress exactly when `to` is 6, 62, 2 or 58, on that destination's side |
| Castling.CheckDoneSpec | ChessServer/Helpers/CastlingHelper.cs:194-217 | every flag is cleared, the colour set to null and the rook destination to 65 exactly when a rook of the recorded colour lands on the rook destination during a castle; otherwise nothing changes |
| Castling.ConsistentKept | ChessServer/Helpers/CastlingHelper.cs:19-42 | every transition keeps the in-progress flag in step with the side flags, at most one side chosen |
| Castling.CastleRookDestination | ChessServer/Helpers/CastlingHelper.cs:241-257 | the rook's castling square: beside the king's queenside destination (3/59) when the queenside flag is set, whichever the kingside flag; beside the king's kingside destination (5/61) when only the kingside flag is set; both on the castling colour's home rank; 65 when neither flag is set |
| Castling.RookDestinationBesideKing | ChessServer/Helpers/CastlingHelper.cs:241-257 | the rook goes to 5/61 kingside or 3/59 queenside (queenside wins), beside the king's destination on the home rank, and 65 when neither flag is set |
| Castling.RookSelectedAsWrittenMissesRooks | ChessServer/Helpers/CastlingHelper.cs:219-239 | the rook test as written rejects White's kingside rook and both of Black's rooks, and accepts a Black rook on square 3 |
| Castling.RookSelectedSpec | ChessServer/Helpers/CastlingHelper.cs:219-239 | the corrected test accepts exactly the rook the castling condition examined, whose destination is then beside the king's |
| Castling.OfferByFlags | ChessServer/Helpers/CastlingHelper.cs:259-283 | the two condition outcomes determine the offer list and the new flags |
| Castling.CastlingHelper.constructor | ChessServer/Helpers/CastlingHelper.cs:7-17 | all flags false, no colour, rook destination 0 |
| Castling.CastlingHelper.CheckMoveIsCastleMove | ChessServer/Helpers/CastlingHelper.cs:19-35 | the new flags are the king-move transition of the old ones |
| Castling.CastlingHelper.ResetInprogressCastlingFlags | ChessServer/Helpers/CastlingHelper.cs:37-42 | clears the in-progress and side flags, nothing else |
| Castling.CastlingHelper.CanCastleKingside | ChessServer/Helpers/CastlingHelper.cs:44-66 | unmoved pieces of any kind on files 4 and 7, files 5 and 6 empty, and files 4, 5 and 6 not attacked |
| Castling.CastlingHelper.CanCastleQueenside | ChessServer/Helpers/CastlingHelper.cs:68-91 | unmoved pieces on files 4 and 0, files 1, 2 and 3 empty, and files 4, 3 and 2 not attacked (file 1 may be attacked) |
| Castling.CastlingHelper.IsSquareAttacked | ChessServer/Helpers/CastlingHelper.cs:93-168 | true exactly when some enemy piece attacks the target by its kind's rule |
| Castling.CastlingHelper.PieceAttacks | ChessServer/Helpers/CastlingHelper.cs:117-164 | one piece's attack by its kind: slider lines, knight offsets, pawn forward diagonals, king within one square |
| Castling.CastlingHelper.SlideAny | ChessServer/Helpers/CastlingHelper.cs:117-139 | some direction of the range reaches the target |
| Castling.CastlingHelper.CanSlideAttack | ChessServer/Helpers/CastlingHelper.cs:170-192 | the walk meets the target before any piece or the board's edge |
| Castling.CastlingHelper.ResetCastlingFlagsWhenCompleted | ChessServer/Helpers/CastlingHelper.cs:194-209 | during a castle every flag is reset and the rook destination set to 65; otherwise nothing changes |
| Castling.CastlingHelper.CheckCastlingDone | ChessServer/Helpers/CastlingHelper.cs:211-217 | the new flags are the completion transition of the old ones |
| Castling.CastlingHelper.IsCastlingInProgressAndCorrectRookPieceSelected | ChessServer/Helpers/CastlingHelper.cs:219-239 | the rook test as written, on squares 0 and 3 |
| Castling.CastlingHelper.GetCastleMoveIfCan | ChessServer/Helpers/CastlingHelper.cs:259-283 | returns the castle offer and sets the rights to the two conditions and the colour to the king's when something is offered |
| Castling.CastlingHelper.RecordCastle | ChessServer/Helpers/CastlingHelper.cs:263-280 | one offered castle appends its king square and sets that side's right and the colour |
| Castling.CastlingHelper.ResetBeforeCastleMoveControlFlag | ChessServer/Helpers/CastlingHelper.cs:285-290 | clears the colour and both rights, nothing else |
| EnPassant.TargetAfter | ChessServer/Helpers/EnPassantHelper.cs:43-49 | a target is recorded exactly after a pawn moves 16 squares; it is the square in between, on ranks 1 to 6 |
| EnPassant.OfferAsWrittenSideways | ChessServer/Helpers/EnPassantHelper.cs:9-30 | the check as written offers at most the target, and only as a sideways step on the mover's own rank |
| EnPassant.OfferAsWrittenAfterDoublePush | ChessServer/Helpers/EnPassantHelper.cs:20-26 | after a double push, the target recorded is empty, so the check as written offers nothing to anyone |
| EnPassant.DoublePushPassesEmpty | ChessServer/Helpers/MovementHelper.cs:28-33 | a 16-square pawn destination is the double push from the home rank, over an empty middle square |
| EnPassant.OfferDiagonal | ChessServer/Helpers/EnPassantHelper.cs:32-36 | the corrected offer is a forward diagonal onto the empty target, capturing the pawn beside the mover |
| EnPassant.OfferAfterDoublePush | ChessServer/Helpers/EnPassantHelper.cs:43-49 | after a double push, an enemy pawn beside the pushed pawn is offered the passed square, and capturing there clears the pushed pawn |
| EnPassant.EnPassantMoveAfter | ChessServer/Helpers/EnPassantHelper.cs:38-46 | after a move, a pawn move counts as en passant exactly when it lands on the square a double push just passed |
| EnPassant.EnPassantHelper.constructor | ChessServer/Helpers/EnPassantHelper.cs:7 | no target at first |
| EnPassant.EnPassantHelper.CheckEnPassant | ChessServer/Helpers/EnPassantHelper.cs:9-30 | the moves passed in, followed by the offer as written; the board and the target are not written |
| EnPassant.EnPassantHelper.ExecuteEnPassant | ChessServer/Helpers/EnPassantHelper.cs:32-36 | clears square to-8 (White) or to+8 (Black) and no other |
| EnPassant.EnPassantHelper.MoveIsEnPassant | ChessServer/Helpers/EnPassantHelper.cs:38-41 | a pawn move onto the recorded target |
| EnPassant.EnPassantHelper.SetEnPassantSquareForNextMoveIfExist | ChessServer/Helpers/EnPassantHelper.cs:43-49 | the target becomes the square passed by a 16-square pawn move, and none after any other move |
| Promotion.PendingAfterSpec | ChessServer/Helpers/PromotionHelper.cs:11-18 | a pawn landing on 56..63 (White) or 0..7 (Black) records its square; any other move leaves the pending square as it was |
| Promotion.PromotesFromLastButOne | ChessServer/Helpers/PromotionHelper.cs:11-14 | a generated pawn move promotes exactly when the pawn starts on the rank before its last |
| Promotion.PromotedSpec | ChessServer/Helpers/PromotionHelper.cs:21-28 | promotion keeps occupancy and colours, touches only its square, leaves a piece of the new type that has not moved, and is idempotent |
| Promotion.PromotionHelper.constructor | ChessServer/Helpers/PromotionHelper.cs:7 | nothing pending at first |
| Promotion.PromotionHelper.CheckPromotion | ChessServer/Helpers/PromotionHelper.cs:9-19 | the pending square after the move, as PendingAfterSpec describes |
| Promotion.PromotionHelper.PromotePawn | ChessServer/Helpers/PromotionHelper.cs:21-28 | the board becomes the promoted board; an empty square is left alone; the pending square is not cleared |

## Left out

- The HTTP controller, its shared `BoardState`, the `GameStatus` data holder and the placeholder `ChessLogic` are not part of this model. They are transport and data, not engine logic. No checkmate, stalemate, draw rule, serialisation or undo exists in the engine to model.
- Concurrency and the order of C# static constructors are not modelled. The tables are built once, by `Game.BuildTables`, and held by the game as a value.
- Masks are the sets of their set bits, not 64-bit words. Every mask here lies within 0..63, so no bit is lost.
- `List<int>` results are sequences. `CheckEnPassant` returns the extended list instead of appending to the caller's list in place, so aliasing of that list is not captured.
- `ChessGame` has its own copies of the setup and the three generators. The model's game delegates to `BoardHelper` and `MovementHelper`, whose code is the same; their line ranges are cited on the game's rows.
- The source's `break` out of the direction walk and the king search is a `return` from the extracted methods `MovementHelper.Walk` and `Game.ChessGame.FindKing`.
- `MovementHelper.CaptureTowards`, `Castling.CastlingHelper.RecordCastle` and `Game.ChessGame.TryMove` are loop bodies or blocks of the source pulled out into methods of their own.
- The castling, en passant and promotion helpers each act on their own board argument, because the game never calls them.
- Squares outside 0..63: `EnPassant.EnPassantHelper.ExecuteEnPassant`, `EnPassant.EnPassantHelper.CheckEnPassant`, `Promotion.PromotionHelper.PromotePawn`, `BoardHelper.GetPieceAt`, `Game.ChessGame.GetPieceAt`, `Game.ChessGame.MovePiece` and `Game.ChessGame.GetAvailableMoves` require every square they read or write to be on the board. The C# code does not guard these indices and throws `IndexOutOfRangeException` on such input; that exception is not modelled.
- Generator inputs: `MovementHelper.GetPawnMoves`, `MovementHelper.CaptureTowards`, `MovementHelper.GetSlidingMoves`, `MovementHelper.Walk`, and the game's copies `Game.ChessGame.GetPawnMoves` and `Game.ChessGame.GetSlidingMoves`, require an origin on the board. The sliding ones also require every direction to be a unit step, a non-zero change of at most one rank and one file. The C# methods accept any origin and any direction. An off-board origin such as -1 computes rank 0 and file -1 and reads the board from there. A longer step such as (2, 0) is walked as written. A direction of (0, 0) from an empty square never ends, because `r` and `f` never change and the result list grows forever; the model's termination argument depends on excluding it. The game only ever passes board squares and its fixed unit-direction lists, so these inputs are not modelled.

## Findings

| source | as written | input that shows it | evidently intended | confidence | as-written member | corrected member |
|---|---|---|---|---|---|---|
| ChessServer/Helpers/CastlingHelper.cs:224-228 | the rook being moved must stand on square 0 when White castles and on square 3 otherwise, whichever side is castled | White castling kingside moves the rook from 7 and is rejected; Black's rooks on 56 and 63 are always rejected, and a Black rook on 3 is accepted | the rook the castling condition examined: file 7 kingside, file 0 queenside, on the castling colour's back rank | not executed | Castling.RookSelectedAsWrittenMissesRooks | Castling.RookSelectedSpec |
| ChessServer/Helpers/EnPassantHelper.cs:20-24 | the capture is offered to a pawn on the target's own rank, when the target holds an enemy pawn; but the setter records the empty square the pushed pawn passed | Black plays 51 to 35 with a White pawn on 36: the target is 43, which is empty and one rank above the White pawn, so nothing is offered | offer the target to a pawn one rank behind it, on an adjacent file, when the target is empty and the pawn beside the mover is an enemy pawn | not executed | EnPassant.OfferAsWrittenAfterDoublePush | EnPassant.OfferAfterDoublePush |

The class methods follow the code as written. The corrected definitions, `Castling.RookSelected` and `EnPassant.Offer`, stand beside them with their properties proved.
