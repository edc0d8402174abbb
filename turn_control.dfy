/** Turn handling: whose piece may be picked, passing the move, and the turn banner. */
module TurnControl {
  import opened Types

  /** `canSelectPiece`: a piece may be picked only by the player whose turn it is. */
  function CanSelectPiece(currentTurn: Player, piecePlayer: Player): (r: bool)
    ensures r <==> currentTurn == piecePlayer
  {
    currentTurn == piecePlayer
  }

  /** `switchTurn`: the move passes to the other player. */
  function SwitchTurn(currentTurn: Player): (r: Player)
    ensures r != currentTurn
  {
    if currentTurn == Sente then Gote else Sente
  }

  /** Passing the move twice gives it back, and the player to move can never pick a piece of the one who just moved. */
  lemma SwitchTurnTwice(t: Player)
    ensures SwitchTurn(SwitchTurn(t)) == t
    ensures !CanSelectPiece(SwitchTurn(t), t)
  {
  }

  /** `getTurnDisplayName`: the banner text for the side to move. */
  function GetTurnDisplayName(turn: Player): (s: string)
    ensures turn == Sente ==> s == "先手の番"
    ensures turn == Gote ==> s == "後手の番"
  {
    if turn == Sente then "先手の番" else "後手の番"
  }

  /** The two banners differ, so the banner tells the side to move, and both end in "の番". */
  lemma DisplayNamesIdentifyTurn(a: Player, b: Player)
    ensures GetTurnDisplayName(a) == GetTurnDisplayName(b) <==> a == b
    ensures |GetTurnDisplayName(a)| == 4 && GetTurnDisplayName(a)[2..] == "の番"
  {
    assert "先手の番"[0] != "後手の番"[0];
  }
}
