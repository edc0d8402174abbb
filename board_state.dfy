/** Board helpers: coordinate validity, the move update and the initial game state. */
module BoardState {
  import opened Wrappers
  import opened Types
  import opened Inventory
  import opened InitialPosition
  import opened DoublePawnValidation

  /** `isValidPosition`: the square lies on the 9x9 board. */
  predicate IsValidPosition(pos: Position) {
    pos.file >= 1 && pos.file <= 9 && pos.rank >= 1 && pos.rank <= 9
  }

  /** Exactly the 81 squares of the scan order are valid positions. */
  lemma ValidPositionsAreTheBoard(pos: Position)
    ensures IsValidPosition(pos) <==> pos in AllSquares()
  {
    AllSquaresMembers(pos);
  }

  /** The game state: board, selected square, side to move and both hands. */
  datatype GameState = GameState(pieces: seq<Piece>, selectedSquare: Option<Position>, currentTurn: Player, capturedPieces: CapturedPieces)

  /** `createInitialGameState`: the starting position, nothing selected, sente to move, empty hands. */
  function CreateInitialGameState(): (g: GameState)
    ensures g.pieces == INITIAL_POSITION && g.selectedSquare == None && g.currentTurn == Sente
    ensures g.capturedPieces == CreateEmptyCapturedPieces()
  {
    GameState(INITIAL_POSITION, None, Sente, CreateEmptyCapturedPieces())
  }

  /** The initial state satisfies the board invariants: squares on the board and disjoint, no double pawn, valid hands. */
  lemma InitialStateIsWellFormed()
    ensures NoOverlap(CreateInitialGameState().pieces)
    ensures NifuFree(CreateInitialGameState().pieces)
    ensures forall i :: 0 <= i < |CreateInitialGameState().pieces| ==>
      IsValidPosition(Position(CreateInitialGameState().pieces[i].file, CreateInitialGameState().pieces[i].rank))
    ensures ValidHands(CreateInitialGameState().capturedPieces)
  {
    Disjoint();
    PawnInEveryFile();
    OnBoard();
    Owners();
  }

  /** The piece after it is moved: the destination square, its type, player and promoted flag kept. */
  function MovedTo(p: Piece, from: Position, to: Position): (q: Piece)
    ensures q.kind == p.kind && q.player == p.player && q.promoted == p.promoted
    ensures IsAt(p, from.file, from.rank) ==> IsAt(q, to.file, to.rank)
    ensures !IsAt(p, from.file, from.rank) ==> q == p
  {
    if p.file == from.file && p.rank == from.rank then p.(file := to.file, rank := to.rank) else p
  }

  /**
   * `updateBoardAfterMove`: every piece on `from` is placed on `to`; all others,
   * including a piece already on `to`, stay as they are at the same index.
   */
  function UpdateBoardAfterMove(board: seq<Piece>, from: Position, to: Position): (r: seq<Piece>)
    ensures |r| == |board|
    ensures forall i :: 0 <= i < |board| && IsAt(board[i], from.file, from.rank) ==>
      r[i] == Piece(board[i].kind, board[i].player, to.file, to.rank, board[i].promoted)
    ensures forall i :: 0 <= i < |board| && !IsAt(board[i], from.file, from.rank) ==> r[i] == board[i]
  {
    seq(|board|, i requires 0 <= i < |board| => MovedTo(board[i], from, to))
  }

  /** After a move to a different square, nothing is left on `from`. */
  lemma MoveVacatesOrigin(board: seq<Piece>, from: Position, to: Position)
    requires from != to
    ensures !Occupied(UpdateBoardAfterMove(board, from, to), from.file, from.rank)
  {
  }

  /** Moving onto an empty square keeps the pieces on distinct squares. */
  lemma MoveToEmptyKeepsNoOverlap(board: seq<Piece>, from: Position, to: Position)
    requires NoOverlap(board)
    requires !Occupied(board, to.file, to.rank)
    ensures NoOverlap(UpdateBoardAfterMove(board, from, to))
  {
    var r := UpdateBoardAfterMove(board, from, to);
    forall i, j | 0 <= i < j < |r| ensures !IsAt(r[j], r[i].file, r[i].rank) {
      var mi, mj := IsAt(board[i], from.file, from.rank), IsAt(board[j], from.file, from.rank);
      if mi && !mj {
        assert !IsAt(board[j], to.file, to.rank);
      } else if mj && !mi {
        assert !IsAt(board[i], to.file, to.rank);
      }
    }
  }
}
