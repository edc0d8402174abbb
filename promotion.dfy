/** Promotion: the enemy zone, which types may promote, and when promotion is optional or forced. */
module PromotionLogic {
  import opened Types
  import opened BoardState
  import opened SeqOps
  import opened MoveRules

  /** `NON_PROMOTABLE_TYPES`: gold and both kings never promote. */
  const NON_PROMOTABLE_TYPES: set<PieceType> := {Gold, King, Jewel}

  /** `isInEnemyTerritory`: the three ranks farthest from the player's own side. */
  function IsInEnemyTerritory(rank: int, player: Player): (r: bool)
    ensures player == Sente ==> (r <==> rank >= 7)
    ensures player == Gote ==> (r <==> rank <= 3)
  {
    if player == Sente then rank >= 7 else rank <= 3
  }

  /** The two zones are mirror images through the centre rank. */
  lemma EnemyZonesMirror(rank: int)
    ensures IsInEnemyTerritory(rank, Sente) <==> IsInEnemyTerritory(10 - rank, Gote)
  {
  }

  /** On the board each zone is exactly three ranks: 7-9 for sente, 1-3 for gote. */
  lemma EnemyZoneRanks(player: Player)
    ensures player == Sente ==> (set r | 1 <= r <= 9 && IsInEnemyTerritory(r, player)) == {7, 8, 9}
    ensures player == Gote ==> (set r | 1 <= r <= 9 && IsInEnemyTerritory(r, player)) == {1, 2, 3}
  {
    var zone := set r | 1 <= r <= 9 && IsInEnemyTerritory(r, player);
    if player == Sente {
      assert forall r :: r in zone <==> r in {7, 8, 9};
    } else {
      assert forall r :: r in zone <==> r in {1, 2, 3};
    }
  }

  /** A player's zone and the opponent's zone on the board never meet. */
  lemma EnemyZonesDisjoint(rank: int)
    ensures !(IsInEnemyTerritory(rank, Sente) && IsInEnemyTerritory(rank, Gote))
  {
  }

  /** `isPromotablePieceType`: every type outside the non-promotable set. */
  function IsPromotablePieceType(t: PieceType): (r: bool)
    ensures r <==> t != Gold && t != King && t != Jewel
  {
    t !in NON_PROMOTABLE_TYPES
  }

  /** The promotable types are exactly rook, bishop, silver, knight, lance and pawn. */
  lemma PromotableTypes()
    ensures (set t: PieceType | IsPromotablePieceType(t)) == {Rook, Bishop, Silver, Knight, Lance, Pawn}
  {
    var s := set t: PieceType | IsPromotablePieceType(t);
    assert forall t :: t in s <==> t in {Rook, Bishop, Silver, Knight, Lance, Pawn};
  }

  /**
   * `canPromoteMove`: an unpromoted piece of a promotable type may promote when
   * the move starts or ends in its enemy zone (entering, leaving or inside).
   */
  function CanPromoteMove(piece: Piece, from: Position, to: Position): (r: bool)
    ensures !IsPromotablePieceType(piece.kind) || piece.promoted ==> !r
    ensures IsPromotablePieceType(piece.kind) && !piece.promoted ==>
      (r <==> IsInEnemyTerritory(from.rank, piece.player) || IsInEnemyTerritory(to.rank, piece.player))
  {
    if !IsPromotablePieceType(piece.kind) then false
    else if piece.promoted then false
    else
      var fromInEnemy := IsInEnemyTerritory(from.rank, piece.player);
      var toInEnemy := IsInEnemyTerritory(to.rank, piece.player);
      fromInEnemy || toInEnemy
  }

  /** The same piece of the other player, moving along the mirrored squares. */
  function Opposite(piece: Piece): Piece {
    piece.(player := if piece.player == Sente then Gote else Sente, file := 10 - piece.file, rank := 10 - piece.rank)
  }

  function MirrorSquare(p: Position): Position {
    Position(10 - p.file, 10 - p.rank)
  }

  /** The may-promote rule treats both players alike: mirroring the move and the owner keeps the answer. */
  lemma CanPromoteMoveMirrors(piece: Piece, from: Position, to: Position)
    ensures CanPromoteMove(Opposite(piece), MirrorSquare(from), MirrorSquare(to)) == CanPromoteMove(piece, from, to)
  {
    EnemyZonesMirror(from.rank);
    EnemyZonesMirror(to.rank);
    EnemyZonesMirror(10 - from.rank);
    EnemyZonesMirror(10 - to.rank);
  }

  /**
   * `mustPromote`: an unpromoted pawn or lance reaching the last rank (9 for
   * sente, 1 for gote), or an unpromoted knight reaching one of the last two,
   * must promote; nothing else ever must.
   */
  function MustPromote(piece: Piece, toRank: int): (r: bool)
    ensures r ==> !piece.promoted && (piece.kind == Pawn || piece.kind == Lance || piece.kind == Knight)
    ensures !piece.promoted && (piece.kind == Pawn || piece.kind == Lance) ==>
      (r <==> toRank == (if piece.player == Sente then 9 else 1))
    ensures !piece.promoted && piece.kind == Knight ==>
      (r <==> if piece.player == Sente then toRank >= 8 else toRank <= 2)
  {
    if piece.promoted then false
    else
      var isSente := piece.player == Sente;
      var lastRank := if isSente then 9 else 1;
      var secondLastRank := if isSente then 8 else 2;
      if piece.kind == Pawn || piece.kind == Lance then toRank == lastRank
      else if piece.kind == Knight then (if isSente then toRank >= secondLastRank else toRank <= secondLastRank)
      else false
  }

  /** A forced promotion happens only on a rank of the enemy zone. */
  lemma MustPromoteInEnemyZone(piece: Piece, toRank: int)
    requires 1 <= toRank <= 9
    requires MustPromote(piece, toRank)
    ensures IsInEnemyTerritory(toRank, piece.player)
  {
  }

  /** Whenever a move must promote, it may promote. */
  lemma MustPromoteAllowsPromotion(piece: Piece, from: Position, to: Position)
    requires 1 <= to.rank <= 9
    requires MustPromote(piece, to.rank)
    ensures CanPromoteMove(piece, from, to)
  {
    MustPromoteInEnemyZone(piece, to.rank);
  }

  /**
   * The reason for the rule: an unpromoted piece that would have to promote on
   * its square has no move at all from there, whatever the board.
   */
  lemma ForcedPromotionLeavesNoMove(piece: Piece, board: seq<Piece>)
    requires IsValidPosition(Position(piece.file, piece.rank))
    requires MustPromote(piece, piece.rank)
    ensures ValidMoves(piece, Position(piece.file, piece.rank), board) == []
  {
    var pos := Position(piece.file, piece.rank);
    var vs := PieceVectors(piece);
    var range := MovePatterns(piece.kind).range;
    FirstStepsLeaveBoard(piece);
    forall i | 0 <= i < |vs| ensures RayFrom(pos, range, board)(vs[i]) == [] {
      RayStops(pos, vs[i], range, board, 1);
    }
    ConcatMapEmpty(vs, RayFrom(pos, range, board));
  }

  /** For a piece that must promote where it stands, the first step along every vector leaves the board. */
  lemma FirstStepsLeaveBoard(piece: Piece)
    requires IsValidPosition(Position(piece.file, piece.rank))
    requires MustPromote(piece, piece.rank)
    ensures forall i :: 0 <= i < |PieceVectors(piece)| ==>
      !IsValidPosition(Target(Position(piece.file, piece.rank), PieceVectors(piece)[i], 1))
  {
    var pos := Position(piece.file, piece.rank);
    var vs := PieceVectors(piece);
    if piece.player == Sente {
      assert forall i :: 0 <= i < |vs| ==> vs[i].dRank >= 1;
      assert piece.kind == Knight ==> forall i :: 0 <= i < |vs| ==> vs[i].dRank == 2;
    } else {
      assert forall i :: 0 <= i < |vs| ==> vs[i].dRank <= -1;
      assert piece.kind == Knight ==> forall i :: 0 <= i < |vs| ==> vs[i].dRank == -2;
    }
    forall i | 0 <= i < |vs| ensures !IsValidPosition(Target(pos, vs[i], 1)) {
      ScaleOne(vs[i].dRank);
    }
  }
}
