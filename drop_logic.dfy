/** Dropping a piece from the hand onto the board. */
module DropLogic {
  import opened Wrappers
  import opened Types
  import opened BoardState
  import opened DoublePawnValidation

  /** `isWithinBoard`: the drop-side copy of the board-bounds test. */
  predicate IsWithinBoard(position: Position) {
    position.file >= 1 && position.file <= 9 && position.rank >= 1 && position.rank <= 9
  }

  /** Both bounds tests accept the same squares. */
  lemma WithinBoardIsValidPosition(position: Position)
    ensures IsWithinBoard(position) <==> IsValidPosition(position)
  {
  }

  /**
   * `canDropPiece`: a drop is allowed exactly on an empty square of the board.
   * The piece type plays no part, so the double-pawn rule is not applied here.
   */
  function CanDropPiece(pieces: seq<Piece>, position: Position): (r: bool)
    ensures r <==> IsValidPosition(position) && forall i :: 0 <= i < |pieces| ==> !IsAt(pieces[i], position.file, position.rank)
  {
    if !IsWithinBoard(position) then false
    else
      var isOccupied := Occupied(pieces, position.file, position.rank);
      !isOccupied
  }

  /**
   * `dropPiece`: the board with one more piece at its end, unpromoted, on
   * `position`, of the given type and player; the earlier pieces are untouched.
   */
  function DropPiece(pieces: seq<Piece>, position: Position, pieceType: PieceType, player: Player): (r: seq<Piece>)
    ensures |r| == |pieces| + 1
    ensures r[..|pieces|] == pieces
    ensures r[|pieces|] == Piece(pieceType, player, position.file, position.rank, false)
    ensures multiset(r) == multiset(pieces) + multiset{Piece(pieceType, player, position.file, position.rank, false)}
  {
    var newPiece := Piece(pieceType, player, position.file, position.rank, false);
    pieces + [newPiece]
  }

  /** After a drop the square is occupied, by the dropped piece if it was empty before. */
  lemma DropOccupiesSquare(pieces: seq<Piece>, position: Position, pieceType: PieceType, player: Player)
    requires CanDropPiece(pieces, position)
    ensures PieceAt(DropPiece(pieces, position, pieceType, player), position.file, position.rank) ==
      Some(Piece(pieceType, player, position.file, position.rank, false))
  {
    var r := DropPiece(pieces, position, pieceType, player);
    var found := PieceAt(r, position.file, position.rank);
    assert IsAt(r[|pieces|], position.file, position.rank);
    var k :| 0 <= k < |r| && r[k] == found.value && IsAt(r[k], position.file, position.rank);
    assert k == |pieces|;
  }

  /** An allowed drop keeps every piece on the board and no two on one square. */
  lemma {:induction false} AllowedDropKeepsBoardInvariant(pieces: seq<Piece>, position: Position, pieceType: PieceType, player: Player)
    requires NoOverlap(pieces)
    requires forall i :: 0 <= i < |pieces| ==> IsValidPosition(Position(pieces[i].file, pieces[i].rank))
    requires CanDropPiece(pieces, position)
    ensures NoOverlap(DropPiece(pieces, position, pieceType, player))
    ensures forall i :: 0 <= i < |pieces| + 1 ==>
      IsValidPosition(Position(DropPiece(pieces, position, pieceType, player)[i].file, DropPiece(pieces, position, pieceType, player)[i].rank))
  {
    var r := DropPiece(pieces, position, pieceType, player);
    forall i, j | 0 <= i < j < |r| ensures !IsAt(r[j], r[i].file, r[i].rank) {
      if j < |pieces| {
        assert r[i] == pieces[i] && r[j] == pieces[j];
      } else {
        assert r[i] == pieces[i];
      }
    }
  }

  /**
   * An allowed drop that the double-pawn check also accepts keeps the board free
   * of double pawns; without that check, a drop can create one.
   */
  lemma CheckedDropKeepsNifuFree(pieces: seq<Piece>, position: Position, pieceType: PieceType, player: Player)
    requires NifuFree(pieces)
    requires CanDropPiece(pieces, position)
    requires ValidateDoublePawn(pieces, position, Glyph(pieceType), player).isValid
    ensures NifuFree(DropPiece(pieces, position, pieceType, player))
  {
    ValidDropKeepsNifuFree(pieces, position, Glyph(pieceType), player, Piece(pieceType, player, position.file, position.rank, false));
  }

  /** A second pawn in file 5: the square is free, so `canDropPiece` allows it, but the double-pawn check refuses. */
  lemma CanDropIgnoresDoublePawn()
    ensures CanDropPiece([Piece(Pawn, Sente, 5, 3, false)], Position(5, 5))
    ensures !ValidateDoublePawn([Piece(Pawn, Sente, 5, 3, false)], Position(5, 5), Glyph(Pawn), Sente).isValid
    ensures !NifuFree(DropPiece([Piece(Pawn, Sente, 5, 3, false)], Position(5, 5), Pawn, Sente))
  {
    var pieces := [Piece(Pawn, Sente, 5, 3, false)];
    assert IsUnpromotedPawnOf(pieces[0], 5, Sente);
    var r := DropPiece(pieces, Position(5, 5), Pawn, Sente);
    assert IsUnpromotedPawnOf(r[0], 5, Sente) && IsUnpromotedPawnOf(r[1], 5, Sente);
  }
}
