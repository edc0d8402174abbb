# Shogi rules engine of kifunarabe, in Dafny

This project models the rules engine of kifunarabe, a browser Shogi board.
The engine is written in TypeScript. It walks piece moves along direction
vectors over a list of pieces and checks the path between two squares. It
checks the double-pawn (nifu) rule on drops and lists the legal pawn-drop
squares. It decides whether a move may or must promote, and keeps the books
for drops and captures. It also holds the 40-piece initial position, the
undo/redo history cursor, the turn and selection predicates, and the shape
check on a saved game state.

The modules follow the source files:

| module | file | models |
|---|---|---|
| `Wrappers`, `SeqOps`, `Types` | types.dfy | `Option` for `undefined`/`null`; the array combinators `some`, `find`, `filter`, `flatMap`; the piece, square, vector and verdict shapes |
| `InitialPosition` | initial_position.dfy | `src/data/initialPosition.ts` |
| `Inventory` | captured_pieces.dfy | `src/types/capturedPieces.ts` |
| `BoardState` | board_state.dfy | `src/logic/boardState.ts` |
| `DoublePawnValidation` | double_pawn.dfy | `src/logic/doublePawnValidation.ts` |
| `DropLogic` | drop_logic.dfy | `src/logic/dropLogic.ts` |
| `CaptureLogic` | capture_logic.dfy | `src/logic/captureLogic.ts` |
| `MoveRules` | move_rules.dfy | `src/logic/moveRules.ts` |
| `PromotionLogic` | promotion.dfy | `src/logic/promotionLogic.ts` |
| `TurnControl` | turn_control.dfy | `src/logic/turnControl.ts` |
| `SelectionLogic` | selection_logic.dfy | `src/logic/selectionLogic.ts` |
| `HistoryManager` | history_manager.dfy | `src/logic/historyManager.ts` |
| `Persistence` | persistence.dfy | `validatePersistedGameState` of `src/logic/persistenceManager.ts` |

How the model is built:

- Pieces, squares and vectors are datatypes, and the board is a `seq<Piece>`.
- A piece carries a `promoted` flag. The source reads and writes that flag although its `Piece` interface does not declare it.
- Range is `One | Unbounded`. The source's `Infinity` sliding range stops only at the board edge or at a blocker.
- Three source functions are loops, and each is a Dafny method proved equal to a specification function:
  - `calculateValidMoves` is `MoveRules.CalculateValidMoves`, proved equal to `ValidMoves`;
  - `isPathClear` is `MoveRules.IsPathClear`. For a destination on a line through the start it is proved equal to `ClearBetween`. For a one-square move or a knight jump it is proved true, and for any other destination false;
  - `getValidPawnDropSquares` is `DoublePawnValidation.GetValidPawnDropSquares`, proved equal to `PawnDropSquares`.
- The inner step loop of `calculateValidMoves` is its own method, `MoveRules.CollectRay`.
- Everything else in the source builds new values, so it is modelled as functions.
- Multiplying a vector by a step count is written as repeated addition, `MoveRules.Scale`. `ScaleIsProduct` proves it equals `d * k`.

The repository's tests (`tests/logic/moveRules.test.ts` imports promoted patterns that do not exist) and its design contracts (`specs/010-prevent-double-pawn/contracts/doublePawnValidation.ts`) describe more than the code does. Where they disagree, the model follows the code:

- A walk never ends on an occupied square, friend or enemy. Moving does not capture (`src/logic/moveRules.ts:225-229`).
- There are no promoted move patterns. A promoted piece moves like an unpromoted one (`src/logic/moveRules.ts:201`).
- `canDropPiece` checks only the bounds and that the square is empty. It does not apply the double-pawn rule (`DropLogic.CanDropIgnoresDoublePawn`).
- `addToCapturedPieces` counts the captured piece's type. The type never names a promoted form, so the hand holds unpromoted kinds. No function takes a piece out of a hand.
- `isPathClear` cannot reach a destination that is off every line through the start and is not a knight jump. For such a destination it returns false at the first piece on its step-by-step walk, and loops forever when no piece lies on the walk. `MoveRules.IsPathClear` therefore requires the destination to be on a line or a knight jump, or the walk to meet a piece. `MoveRules.UnalignedWalkMeetsBlocker` gives such an input.
- A saved history cursor may equal the history's length and still be accepted (`Persistence.CursorBoundIsInclusive`). In that case the current entry is then `undefined` (`HistoryManager.CursorAtLengthShowsNothing`).

## Model

| member | source | states |
|---|---|---|
| SeqOps.Any | src/logic/dropLogic.ts:25-30 | `some` holds iff some element satisfies the predicate |
| SeqOps.FindFirst | src/logic/captureLogic.ts:24-26 | `find` returns an element exactly when `some` holds, and it is the first one that satisfies the predicate |
| SeqOps.FilterCounts | src/logic/captureLogic.ts:77-85 | `filter` keeps each element that passes as often as it occurs, and drops every other |
| SeqOps.FilterSkipsOne | src/logic/captureLogic.ts:77-85 | a filter that fails only at index i removes exactly that element, keeping the order |
| SeqOps.ConcatMapMembers | src/logic/moveRules.ts:206-238 | a value is in the concatenated results iff it is in the results of one of the vectors |
| Types.Glyph | src/types/piece.ts:1-13 | each piece type has its one-character glyph |
| Types.GlyphsDistinct | src/types/piece.ts:13 | two glyphs are equal iff the types are |
| Types.Occupied | src/logic/dropLogic.ts:25-27 | a square is occupied iff some piece of either player is on it |
| Types.PieceAt | src/logic/moveRules.ts:221-223 | the first piece found on a square exists iff the square is occupied, and it stands there |
| InitialPosition.Owners | src/data/initialPosition.ts:7-57 | 40 pieces: the first 20 are sente's and the last 20 gote's |
| InitialPosition.Disjoint | src/data/initialPosition.ts:7-57 | no two initial pieces share a square |
| InitialPosition.OnBoard | src/data/initialPosition.ts:7-57 | every initial piece is on the board and unpromoted |
| InitialPosition.KingEntries | src/data/initialPosition.ts:10-43 | exactly one 王, at index 4 and sente's; exactly one 玉, at index 24 and gote's |
| InitialPosition.BackRanks | src/data/initialPosition.ts:10-43 | rank 1 holds 香 桂 銀 金 王 金 銀 桂 香 for sente in file order; rank 9 mirrors it for gote, with 玉 at file 5 |
| InitialPosition.PawnRows | src/data/initialPosition.ts:23-56 | sente's pawns fill rank 3 and gote's rank 7, one per file; there are no other pawns |
| InitialPosition.PawnInEveryFile | src/data/initialPosition.ts:23-56 | each player has an unpromoted pawn in every file, and the position obeys the double-pawn rule |
| InitialPosition.PointSymmetric | src/data/initialPosition.ts:10-56 | the piece at (f, r) has its counterpart at (10-f, 10-r), of the same type but the other player, with 王 and 玉 swapped |
| Inventory.CreateEmptyCapturedPieces | src/types/capturedPieces.ts:36-41 | both hands are empty maps |
| Inventory.GetCapturedPiecesForPlayer | src/types/capturedPieces.ts:49-54 | returns exactly the map of the given player |
| Inventory.EmptyHandsHoldNothing | src/types/capturedPieces.ts:14-41 | in an empty hand every count is 0, and both hands satisfy the hand invariant (every key present is held at least once, so counts are non-negative and an unheld type is absent) |
| BoardState.IsValidPosition | src/logic/boardState.ts:16-18 | defined as file and rank both in 1..9; `ValidPositionsAreTheBoard` proves these are exactly the 81 scanned squares |
| BoardState.ValidPositionsAreTheBoard | src/logic/boardState.ts:16-18 | a square is valid iff it is one of the 81 squares with file and rank in 1..9 |
| BoardState.CreateInitialGameState | src/logic/boardState.ts:24-31 | the initial position, no selection, sente to move, both hands empty |
| BoardState.InitialStateIsWellFormed | src/logic/boardState.ts:24-31 | the initial state has no shared square, obeys the double-pawn rule, has every piece on the board, and holds valid hands |
| BoardState.MovedTo | src/logic/boardState.ts:42-47 | the per-piece map: type, owner and promotion kept; a piece on `from` lands on `to`; any other piece is returned unchanged |
| BoardState.UpdateBoardAfterMove | src/logic/boardState.ts:40-48 | same length; each piece on `from` moves to `to` keeping type, owner and promotion; every other piece is unchanged at its index |
| BoardState.MoveVacatesOrigin | src/logic/boardState.ts:40-48 | after a move with distinct ends, no piece is left on `from` |
| BoardState.MoveToEmptyKeepsNoOverlap | src/logic/boardState.ts:40-48 | moving onto an empty square keeps the no-shared-square invariant |
| DoublePawnValidation.HasUnpromotedPawnInFile | src/logic/doublePawnValidation.ts:19-24 | holds iff some piece is an unpromoted 歩 of the player in the file |
| DoublePawnValidation.OnlyOwnUnpromotedPawnsCount | src/logic/doublePawnValidation.ts:19-24 | adding promoted pawns, the opponent's pawns or other pieces never changes the answer |
| DoublePawnValidation.GetErrorMessage | src/logic/doublePawnValidation.ts:103-113 | every code has a non-empty message |
| DoublePawnValidation.ErrorMessagesDistinct | src/logic/doublePawnValidation.ts:103-113 | the three messages are distinct |
| DoublePawnValidation.ValidateDoublePawn | src/logic/doublePawnValidation.ts:35-58 | a non-pawn is always valid with no code; a pawn is invalid, with code DOUBLE_PAWN and its message, exactly when its file holds the player's unpromoted pawn |
| DoublePawnValidation.NonPawnDropsAlwaysValid | src/logic/doublePawnValidation.ts:42-44 | any type other than 歩 passes, whatever the board |
| DoublePawnValidation.ValidDropKeepsNifuFree | src/logic/doublePawnValidation.ts:35-58 | a drop that passes keeps the board free of double pawns |
| DoublePawnValidation.AllSquaresMembers | src/logic/doublePawnValidation.ts:70-71 | the scan visits exactly the 81 board squares |
| DoublePawnValidation.AllSquaresOrdered | src/logic/doublePawnValidation.ts:70-71 | the scan order is by file, then by rank |
| DoublePawnValidation.PawnDropSquares | src/logic/doublePawnValidation.ts:67-95 | the specification of the scan: the 81 squares in scan order, filtered by the drop condition; `PawnDropSquaresSpec` states its members and order |
| DoublePawnValidation.GetValidPawnDropSquares | src/logic/doublePawnValidation.ts:67-95 | the nested loop returns exactly the specification list of pawn-drop squares |
| DoublePawnValidation.PawnDropSquaresSpec | src/logic/doublePawnValidation.ts:67-95 | a square is listed iff it is on the board, empty, and its file has no unpromoted pawn of the player; the list is ordered by file then rank and has no duplicates |
| DoublePawnValidation.EmptyBoardOffersEverySquare | src/logic/doublePawnValidation.ts:67-95 | on an empty board all 81 squares are offered |
| DoublePawnValidation.EveryFilePawnedOffersNothing | src/logic/doublePawnValidation.ts:67-95 | with the player's unpromoted pawn in every file, nothing is offered |
| DropLogic.IsWithinBoard | src/logic/dropLogic.ts:7-9 | defined as file and rank both in 1..9; `WithinBoardIsValidPosition` proves it is the same test as `isValidPosition` |
| DropLogic.WithinBoardIsValidPosition | src/logic/dropLogic.ts:7-9 | `isWithinBoard` and `isValidPosition` agree |
| DropLogic.CanDropPiece | src/logic/dropLogic.ts:18-31 | a drop is allowed iff the square is on the board and no piece of either player stands there |
| DropLogic.DropPiece | src/logic/dropLogic.ts:42-57 | the input in order, followed by exactly one new unpromoted piece of the given type and player on the square |
| DropLogic.DropOccupiesSquare | src/logic/dropLogic.ts:42-57 | after an allowed drop, the dropped piece is the one found on the square |
| DropLogic.AllowedDropKeepsBoardInvariant | src/logic/dropLogic.ts:18-57 | an allowed drop keeps every piece on the board and no square shared |
| DropLogic.CheckedDropKeepsNifuFree | src/logic/dropLogic.ts:18-57 | an allowed drop that also passes `validateDoublePawn` keeps the double-pawn rule |
| DropLogic.CanDropIgnoresDoublePawn | src/logic/dropLogic.ts:18-31 | a second pawn in a file passes `canDropPiece`, and the resulting board breaks the double-pawn rule |
| CaptureLogic.GetTargetPiece | src/logic/captureLogic.ts:13-40 | none off the board, on an empty square, or when the first piece there is the mover's; otherwise that first piece, which is the opponent's |
| CaptureLogic.TargetOnDisjointBoard | src/logic/captureLogic.ts:13-40 | on a board with no shared square, the target is the piece at that index, unless it is the mover's |
| CaptureLogic.AddToCapturedPieces | src/logic/captureLogic.ts:50-67 | the capturing player's count for the type rises by one, with a missing key counting as 0; every other count and the other player's hand are unchanged |
| CaptureLogic.AddKeepsHandsValid | src/logic/captureLogic.ts:50-67 | adding keeps the hand invariant: every key present in either hand has a count of at least one, so no type is listed unheld; the captured type is then held at least once |
| CaptureLogic.RemovePieceFromBoard | src/logic/captureLogic.ts:76-86 | no piece matching the target on square, type and owner is left; with no match the board is returned unchanged |
| CaptureLogic.RemoveKeepsOthers | src/logic/captureLogic.ts:76-86 | every piece not matching the target keeps its multiplicity, and matching ones are gone |
| CaptureLogic.RemoveKeepsOrder | src/logic/captureLogic.ts:76-86 | removal distributes over concatenation, so the survivors keep their order |
| CaptureLogic.RemoveKeepsNoOverlap | src/logic/captureLogic.ts:76-86 | removal keeps the no-shared-square invariant |
| CaptureLogic.RemoveLoneDeletes | src/logic/captureLogic.ts:76-86 | removing a piece that is alone on its square deletes exactly that index |
| CaptureLogic.RemoveCapturedFreesSquare | src/logic/captureLogic.ts:76-86 | on a disjoint board, removing a piece shortens the board by one and frees its square |
| MoveRules.MovePatterns | src/logic/moveRules.ts:23-121 | the range is unbounded exactly for rook, bishop and lance |
| MoveRules.PatternShapes | src/logic/moveRules.ts:23-121 | every pattern is non-empty; each vector is a unit step, or a knight jump for the knight |
| MoveRules.KingsMoveAlike | src/logic/moveRules.ts:92-120 | 王 and 玉 share a pattern: the eight unit steps, range one |
| MoveRules.AdjustedVectors | src/logic/moveRules.ts:129-141 | sente keeps the table vectors; gote gets each one negated, in the same order |
| MoveRules.AdjustTwiceRestores | src/logic/moveRules.ts:129-141 | negating the vectors of a gote piece twice gives back the table |
| MoveRules.ScaleIsProduct | src/logic/moveRules.ts:208-209 | the repeated-addition step offset is `vector * step` |
| MoveRules.StepBound | src/logic/moveRules.ts:207-218 | two on-board squares along a non-zero vector are at most nine steps apart, so an unbounded walk ends |
| MoveRules.Ray | src/logic/moveRules.ts:207-237 | one vector's walk from a step on: every square on the board and empty, and at most one square for range one; `RayMembership` states its members |
| MoveRules.RayMembership | src/logic/moveRules.ts:207-237 | a square is on the walk iff it is reached by some step within range, on the board, with every square up to it empty |
| MoveRules.ValidMovesAreReachable | src/logic/moveRules.ts:196-241 | a square is a valid move iff one adjusted vector reaches it within range over empty on-board squares |
| MoveRules.ValidMovesOnEmptySquares | src/logic/moveRules.ts:215-229 | every valid move is on the board and on an empty square: no square holding any piece is returned |
| MoveRules.NonSliderMoveCount | src/logic/moveRules.ts:233-236 | a non-sliding piece has at most one move per vector |
| MoveRules.ValidMoves | src/logic/moveRules.ts:196-241 | the specification of `calculateValidMoves`: the walks along the adjusted vectors, concatenated in order; `ValidMovesAreReachable` and `ValidMovesOnEmptySquares` state its members |
| MoveRules.CalculateValidMoves | src/logic/moveRules.ts:196-241 | the nested loop returns exactly the specification list of moves, vector by vector and step by step |
| MoveRules.CollectRay | src/logic/moveRules.ts:207-237 | the inner loop returns exactly the walk along one vector |
| MoveRules.RayStops | src/logic/moveRules.ts:215-229 | an off-board or occupied next square ends the walk with nothing more |
| MoveRules.RayUnfold | src/logic/moveRules.ts:215-237 | a free on-board next square is taken; range one stops there, and an unbounded range goes on |
| MoveRules.IsValidMove | src/logic/moveRules.ts:251-267 | holds iff the destination is among the calculated moves, iff it is reachable; it is then on the board and empty |
| MoveRules.StepsReach | src/logic/moveRules.ts:172-184 | along a line, unit steps hit `to` exactly after the distance and never before |
| MoveRules.IsPathClear | src/logic/moveRules.ts:150-187 | true for moves of at most one square each way and for knight jumps; on a line, true iff no piece stands strictly between the ends; off every line, false (the walk ends at its first piece, which the precondition asks to exist) |
| MoveRules.StepsLandOnlyOnLines | src/logic/moveRules.ts:165-184 | the unit-step walk lands on `to` only when `to` is on a line through `from`, so for any other destination the loop can end only at a piece |
| MoveRules.UnalignedWalkMeetsBlocker | src/logic/moveRules.ts:165-184 | from (5,5) toward (7,6) the walk steps by (1,1), so a piece on (6,6) meets it and the source returns false: the precondition admits this unaligned input |
| MoveRules.ClearBetween | src/logic/moveRules.ts:168-184 | defined as: no piece on the squares 1 .. distance-1 unit steps from `from` toward `to`; `IsPathClear` and `StepsReach` tie it to the loop |
| MoveRules.OfferedMovesHaveClearPath | src/logic/moveRules.ts:150-241 | every calculated move is a knight jump or on a line through the start, and then its path is clear |
| MoveRules.UnitRayClear | src/logic/moveRules.ts:165-184 | a free walk of k unit steps ends at a straight destination with a clear path |
| MoveRules.UnitRayIsStraight | src/logic/moveRules.ts:165-184 | k unit steps lie on a line at distance k, and the path's steps are the walk's steps |
| MoveRules.KnightTarget | src/logic/moveRules.ts:159-162 | one knight vector from a square is a knight jump |
| MoveRules.SingleVector | src/logic/moveRules.ts:196-241 | a piece with one vector has just the walk along it |
| MoveRules.OneStep | src/logic/moveRules.ts:215-236 | a range-one step gives its square when it is on the board and empty, and nothing when it is off the board |
| MoveRules.PawnsStepForward | src/logic/moveRules.ts:24-28 | on an empty board a sente pawn at (5,7) gets exactly (5,8), and a gote pawn at (5,3) exactly (5,2) |
| MoveRules.PawnOnLastRankIsStuck | src/logic/moveRules.ts:24-28 | a pawn on its last rank has no move |
| MoveRules.FileRay | src/logic/moveRules.ts:207-237 | on an empty board the walk up a file from step s covers exactly the remaining squares of the file, in order |
| MoveRules.LanceRunsTheFile | src/logic/moveRules.ts:30-34 | a lance at (1,1) on an empty board gets the 8 squares (1,2) to (1,9), in order |
| MoveRules.CentreRayLength | src/logic/moveRules.ts:207-237 | from (5,5) on an empty board, each unit direction slides to the edge |
| MoveRules.CentreRook | src/logic/moveRules.ts:70-79 | a rook at (5,5) on an empty board has 16 moves |
| MoveRules.CentreBishop | src/logic/moveRules.ts:81-90 | a bishop at (5,5) on an empty board has 16 moves |
| MoveRules.BlockerStopsRay | src/logic/moveRules.ts:220-229 | a piece two squares ahead of a rook leaves only the square before it; neither the blocker nor anything beyond is a valid move |
| MoveRules.KnightJumps | src/logic/moveRules.ts:36-43 | a knight jumps over an adjacent piece to both landing squares |
| PromotionLogic.IsInEnemyTerritory | src/logic/promotionLogic.ts:15-19 | sente's zone is rank ≥ 7, and gote's is rank ≤ 3; the zones' shape is proved in `EnemyZoneRanks`, `EnemyZonesMirror` and `EnemyZonesDisjoint` |
| PromotionLogic.EnemyZoneRanks | src/logic/promotionLogic.ts:15-19 | on the board the zones are ranks {7,8,9} and {1,2,3} |
| PromotionLogic.EnemyZonesMirror | src/logic/promotionLogic.ts:15-19 | rank r is in sente's zone iff 10-r is in gote's |
| PromotionLogic.EnemyZonesDisjoint | src/logic/promotionLogic.ts:15-19 | no rank is in both zones |
| PromotionLogic.IsPromotablePieceType | src/logic/promotionLogic.ts:7-28 | membership outside the constant `NON_PROMOTABLE_TYPES` = {金, 王, 玉}: false exactly for those three; `PromotableTypes` gives the promotable set |
| PromotionLogic.PromotableTypes | src/logic/promotionLogic.ts:7-28 | the promotable types are exactly rook, bishop, silver, knight, lance and pawn |
| PromotionLogic.CanPromoteMove | src/logic/promotionLogic.ts:42-58 | false for non-promotable types and promoted pieces; otherwise true iff the start or the end rank is in the mover's zone |
| PromotionLogic.CanPromoteMoveMirrors | src/logic/promotionLogic.ts:42-58 | mirroring the move and the owner keeps the answer |
| PromotionLogic.MustPromote | src/logic/promotionLogic.ts:70-91 | only unpromoted 歩, 香, 桂: pawn and lance iff on the last rank, knight iff on one of the last two |
| PromotionLogic.MustPromoteInEnemyZone | src/logic/promotionLogic.ts:15-88 | on the board, a forced promotion lands in the mover's zone |
| PromotionLogic.MustPromoteAllowsPromotion | src/logic/promotionLogic.ts:42-91 | a move that must promote may promote |
| PromotionLogic.ForcedPromotionLeavesNoMove | src/logic/promotionLogic.ts:70-91 | an unpromoted piece that must promote where it stands has no move from there on any board |
| PromotionLogic.FirstStepsLeaveBoard | src/logic/promotionLogic.ts:70-91 | for such a piece, the first step along every vector leaves the board |
| TurnControl.CanSelectPiece | src/logic/turnControl.ts:10-12 | holds iff the piece's owner is the side to move; `SwitchTurnTwice` proves the side that just moved cannot select |
| TurnControl.SwitchTurn | src/logic/turnControl.ts:19-21 | never returns its argument |
| TurnControl.SwitchTurnTwice | src/logic/turnControl.ts:19-21 | switching twice is the identity, and after a switch the previous side cannot select |
| TurnControl.GetTurnDisplayName | src/logic/turnControl.ts:28-30 | 先手の番 for sente, 後手の番 for gote |
| TurnControl.DisplayNamesIdentifyTurn | src/logic/turnControl.ts:28-30 | the names are equal iff the turns are; both are four characters ending in の番 |
| SelectionLogic.CanSelectPiece | src/logic/selectionLogic.ts:10-18 | an empty square is never selectable; a piece is iff its owner is the side to move; `OneSideSelects` and `AgreesWithTurnControl` prove it picks exactly one side and matches the turn rule |
| SelectionLogic.AgreesWithTurnControl | src/logic/selectionLogic.ts:17 | agrees with the turn predicate, and depends only on the owner |
| SelectionLogic.OneSideSelects | src/logic/selectionLogic.ts:17 | every piece is selectable on exactly one side's turn |
| HistoryManager.SliceEnd | src/logic/historyManager.ts:9 | the clamped end `Array.slice` uses, counting a negative end from the back |
| HistoryManager.AddMove | src/logic/historyManager.ts:7-17 | keeps the entries up to the cursor, appends the new one, and puts the cursor on it |
| HistoryManager.GoToPrevious | src/logic/historyManager.ts:23-29 | the cursor becomes max(0, i-1), and the entries are unchanged |
| HistoryManager.GoToNext | src/logic/historyManager.ts:35-42 | the cursor becomes min(len-1, i+1), and the entries are unchanged |
| HistoryManager.GoToFirst | src/logic/historyManager.ts:48-53 | the cursor goes to 0, and the entries are unchanged; `EndsDisableButtons` proves back is then disabled |
| HistoryManager.GoToLast | src/logic/historyManager.ts:59-64 | the cursor goes to len-1, and the entries are unchanged; `EndsDisableButtons` proves forward is then disabled and the last entry shown |
| HistoryManager.GetCurrentEntry | src/logic/historyManager.ts:69-71 | the entry under the cursor, present exactly when the cursor is in range; `AddMoveValid`, `AddThenBackRestores` and `CursorAtLengthShowsNothing` use it to state what each operation shows |
| HistoryManager.GetNavigationState | src/logic/historyManager.ts:77-89 | back iff i > 0, forward iff i < len-1, move number i, total len-1; `StepsAreInverse` proves each button is enabled iff its step moves the cursor |
| HistoryManager.OperationsKeepValid | src/logic/historyManager.ts:7-64 | from a cursor on an entry, every operation leaves the cursor on an entry |
| HistoryManager.AddMoveValid | src/logic/historyManager.ts:7-17 | appending always leaves a valid history showing the new entry |
| HistoryManager.AddMoveDropsRedo | src/logic/historyManager.ts:9 | appending from the middle discards everything after the cursor, so forward is disabled |
| HistoryManager.AddThenBackRestores | src/logic/historyManager.ts:7-29 | appending and then stepping back shows the previously current entry |
| HistoryManager.StepsAreInverse | src/logic/historyManager.ts:23-89 | back then forward, and forward then back, restore the history when the button is enabled; a button is enabled iff its step moves the cursor |
| HistoryManager.EndsDisableButtons | src/logic/historyManager.ts:48-89 | the first entry disables back; the last disables forward and shows the last entry |
| HistoryManager.CursorAtLengthShowsNothing | src/logic/historyManager.ts:69-71 | a cursor equal to the number of entries shows no entry |
| HistoryManager.NegativeCursorKeepsFromTheBack | src/logic/historyManager.ts:9 | with a cursor below zero, the slice keeps a prefix counted from the back |
| Persistence.ValidatePersistedGameState | src/logic/persistenceManager.ts:172-250 | accepts exactly the objects with the seven fields, each of its documented kind, a known turn and a cursor in 0..history length |
| Persistence.RejectsNonObjects | src/logic/persistenceManager.ts:174-181 | null, undefined, scalars and arrays are rejected |
| Persistence.RejectsMissingField | src/logic/persistenceManager.ts:184-198 | an object missing any one of the seven fields is rejected |
| Persistence.RejectsUnknownTurn | src/logic/persistenceManager.ts:219-222 | a turn other than sente or gote is rejected |
| Persistence.ArrayContentsIgnored | src/logic/persistenceManager.ts:204-249 | the elements of `pieces` and `history` never affect the verdict |
| Persistence.CursorBoundIsInclusive | src/logic/persistenceManager.ts:230-237 | a cursor equal to the history length is accepted; one more than it, or -1, is rejected |

## Left out

- `saveGameState`, `loadGameState` and `clearGameState` are not modelled. They do `localStorage` I/O, `JSON.parse`/`JSON.stringify`, `Date.now()` timestamps, console logging and exception handling.
- The React components and the style constants are rendering, and are not modelled.
- The UI selection state of `src/types/selection.ts` is not modelled. The types of its two guards are tag tests on a datatype.
- `src/types/turn.ts` is not part of this model. A turn is a `Player`, as the source uses it.
- Persistence.ValidatePersistedGameState: a number is a Dafny `real`. So `NaN` and `Infinity` (which `typeof` also calls numbers) are not modelled, nor is a fractional cursor's effect on later indexing.
- Persistence.HasKey: arrays are taken to have none of the seven field names, and inherited or prototype properties are not modelled.
- MoveRules.IsPathClear: requires a destination on a line through the start, a knight jump, or a walk that meets a piece. The one excluded case is a destination off every line whose walk meets no piece, which the source never returns from.
- MoveRules.CalculateValidMoves: the step bound comes from the board size. The source's `Infinity` range is `Unbounded`, so no floating-point comparison is modelled.
- Promoted move patterns (Dragon, Horse, gold-like promoted minors) are not modelled. The source defines none, and `calculateValidMoves` uses the unpromoted table.
- The hand rule that 王/玉 never enters a hand (src/types/capturedPieces.ts:17) is not part of `Inventory.ValidHands`. `addToCapturedPieces` adds whatever type it is given, so only the end of the game, which is not modelled, keeps kings out.
- Capture by moving, a double-pawn check inside `canDropPiece`, taking a piece out of a hand after a drop, check, checkmate and game end are not modelled. None exists in the source.
- The four-argument `canDropPiece` of `specs/010-prevent-double-pawn/contracts/doublePawnValidation.ts` is not modelled. It is a declaration without a body.
- Integer width: files, ranks, counts and cursors are unbounded integers. On the board and in the history they stay small, so no JavaScript number rounding arises there.
