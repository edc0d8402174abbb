/** The per-player hand: how many pieces of each type a player has captured. */
module Inventory {
  import opened Types

  /** Piece type to count; a type the player does not hold is absent. */
  type CapturedPiecesMap = map<PieceType, int>

  datatype CapturedPieces = CapturedPieces(sente: CapturedPiecesMap, gote: CapturedPiecesMap)

  /**
   * The documented rule for a hand map: counts are non-negative and a type
   * not held is absent, so every key present is held at least once.
   */
  ghost predicate ValidMap(m: CapturedPiecesMap) {
    forall t :: t in m ==> m[t] >= 1
  }

  ghost predicate ValidHands(c: CapturedPieces) {
    ValidMap(c.sente) && ValidMap(c.gote)
  }

  /** `createEmptyCapturedPieces`: both players start with an empty hand. */
  function CreateEmptyCapturedPieces(): (c: CapturedPieces)
    ensures c.sente == map[] && c.gote == map[]
  {
    CapturedPieces(map[], map[])
  }

  /** `getCapturedPiecesForPlayer`: the hand map of `player`. */
  function GetCapturedPiecesForPlayer(c: CapturedPieces, player: Player): (m: CapturedPiecesMap)
    ensures player == Sente ==> m == c.sente
    ensures player == Gote ==> m == c.gote
  {
    match player
    case Sente => c.sente
    case Gote => c.gote
  }

  /** The number of `t` held in `m`, a missing key counting as zero (`m[t] || 0`). */
  function Count(m: CapturedPiecesMap, t: PieceType): int {
    if t in m then m[t] else 0
  }

  /** The empty hands hold nothing of any type, for either player, and are valid. */
  lemma EmptyHandsHoldNothing(player: Player, t: PieceType)
    ensures Count(GetCapturedPiecesForPlayer(CreateEmptyCapturedPieces(), player), t) == 0
    ensures ValidHands(CreateEmptyCapturedPieces())
  {
  }
}
