/** The square-click selection rule. */
module SelectionLogic {
  import opened Wrappers
  import opened Types
  import TurnControl

  /** `canSelectPiece`: an empty square (no piece) is never selectable; a piece is when its owner is to move. */
  function CanSelectPiece(piece: Option<Piece>, currentTurn: Player): (r: bool)
    ensures piece == None ==> !r
    ensures piece.Some? ==> (r <==> piece.value.player == currentTurn)
  {
    if piece.None? then false
    else piece.value.player == currentTurn
  }

  /** On a piece the rule is the turn rule on its owner, and nothing else about the piece matters. */
  lemma AgreesWithTurnControl(piece: Piece, other: Piece, currentTurn: Player)
    requires other.player == piece.player
    ensures CanSelectPiece(Some(piece), currentTurn) == TurnControl.CanSelectPiece(currentTurn, piece.player)
    ensures CanSelectPiece(Some(other), currentTurn) == CanSelectPiece(Some(piece), currentTurn)
  {
  }

  /** Exactly one of the two players can select a given piece. */
  lemma OneSideSelects(piece: Piece)
    ensures CanSelectPiece(Some(piece), Sente) != CanSelectPiece(Some(piece), Gote)
  {
  }
}
