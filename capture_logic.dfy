/** Capture bookkeeping: finding the piece to take, adding it to a hand, lifting it off the board. */
module CaptureLogic {
  import opened Wrappers
  import opened SeqOps
  import opened Types
  import opened Inventory
  import opened BoardState

  /**
   * `getTargetPiece`: the first piece found on `position`, provided the square is
   * on the board and that piece belongs to the opponent of `currentPlayer`.
   */
  function GetTargetPiece(pieces: seq<Piece>, position: Position, currentPlayer: Player): (r: Option<Piece>)
    ensures !IsValidPosition(position) ==> r == None
    ensures !Occupied(pieces, position.file, position.rank) ==> r == None
    ensures r.Some? <==> IsValidPosition(position) && Occupied(pieces, position.file, position.rank) &&
                         PieceAt(pieces, position.file, position.rank).value.player != currentPlayer
    ensures r.Some? ==> r == PieceAt(pieces, position.file, position.rank) && r.value in pieces &&
                        IsAt(r.value, position.file, position.rank) && r.value.player != currentPlayer
  {
    if position.file < 1 || position.file > 9 || position.rank < 1 || position.rank > 9 then
      None
    else
      var targetPiece := PieceAt(pieces, position.file, position.rank);
      if targetPiece.None? then None
      else if targetPiece.value.player == currentPlayer then None
      else targetPiece
  }

  /**
   * On a board where no two pieces share a square, there is a target exactly when
   * the square is on the board and holds a piece of the other player, and the
   * target is that piece.
   */
  lemma TargetOnDisjointBoard(pieces: seq<Piece>, position: Position, currentPlayer: Player, i: nat)
    requires NoOverlap(pieces)
    requires i < |pieces| && IsAt(pieces[i], position.file, position.rank)
    ensures GetTargetPiece(pieces, position, currentPlayer) ==
      if IsValidPosition(position) && pieces[i].player != currentPlayer then Some(pieces[i]) else None
  {
    var found := PieceAt(pieces, position.file, position.rank);
    var k :| 0 <= k < |pieces| && pieces[k] == found.value && IsAt(pieces[k], position.file, position.rank) &&
      forall j :: 0 <= j < k ==> !IsAt(pieces[j], position.file, position.rank);
    assert k == i;
  }

  /**
   * `addToCapturedPieces`: the capturing player's count of the captured type goes
   * up by one (a missing key counting as zero); every other count of that player
   * and the whole hand of the other player are unchanged.
   */
  function AddToCapturedPieces(c: CapturedPieces, capturedPiece: Piece, capturingPlayer: Player): (r: CapturedPieces)
    ensures Count(GetCapturedPiecesForPlayer(r, capturingPlayer), capturedPiece.kind) ==
            Count(GetCapturedPiecesForPlayer(c, capturingPlayer), capturedPiece.kind) + 1
    ensures capturedPiece.kind in GetCapturedPiecesForPlayer(r, capturingPlayer)
    ensures forall t :: t != capturedPiece.kind ==>
      (t in GetCapturedPiecesForPlayer(r, capturingPlayer) <==> t in GetCapturedPiecesForPlayer(c, capturingPlayer)) &&
      Count(GetCapturedPiecesForPlayer(r, capturingPlayer), t) == Count(GetCapturedPiecesForPlayer(c, capturingPlayer), t)
    ensures forall p :: p != capturingPlayer ==> GetCapturedPiecesForPlayer(r, p) == GetCapturedPiecesForPlayer(c, p)
  {
    var playerPieces := GetCapturedPiecesForPlayer(c, capturingPlayer);
    var currentCount := Count(playerPieces, capturedPiece.kind);
    var updatedPlayerPieces := playerPieces[capturedPiece.kind := currentCount + 1];
    match capturingPlayer
    case Sente => c.(sente := updatedPlayerPieces)
    case Gote => c.(gote := updatedPlayerPieces)
  }

  /** Adding a capture keeps every key held at least once, and the added type is then held at least once. */
  lemma AddKeepsHandsValid(c: CapturedPieces, capturedPiece: Piece, capturingPlayer: Player)
    requires ValidHands(c)
    ensures ValidHands(AddToCapturedPieces(c, capturedPiece, capturingPlayer))
    ensures Count(GetCapturedPiecesForPlayer(AddToCapturedPieces(c, capturedPiece, capturingPlayer), capturingPlayer), capturedPiece.kind) >= 1
  {
    var r := AddToCapturedPieces(c, capturedPiece, capturingPlayer);
    var m, m' := GetCapturedPiecesForPlayer(c, capturingPlayer), GetCapturedPiecesForPlayer(r, capturingPlayer);
    assert Count(m, capturedPiece.kind) >= 0;
    forall t | t in m' ensures m'[t] >= 1 {
      if t != capturedPiece.kind {
        assert Count(m', t) == Count(m, t);
      }
    }
  }

  /** The removal test: same square, type and player; the promoted flag is not compared. */
  predicate SamePiece(p: Piece, q: Piece) {
    p.file == q.file && p.rank == q.rank && p.kind == q.kind && p.player == q.player
  }

  function Keeps(pieceToRemove: Piece): Piece -> bool {
    (p: Piece) => !SamePiece(p, pieceToRemove)
  }

  /**
   * `removePieceFromBoard`: drops every piece that matches the target on square,
   * type and player, and keeps every other piece as often as it occurred; when
   * nothing matches the board comes back unchanged.
   */
  function RemovePieceFromBoard(pieces: seq<Piece>, pieceToRemove: Piece): (r: seq<Piece>)
    ensures forall i :: 0 <= i < |r| ==> !SamePiece(r[i], pieceToRemove)
    ensures (forall i :: 0 <= i < |pieces| ==> !SamePiece(pieces[i], pieceToRemove)) ==> r == pieces
  {
    var r := Filter(pieces, Keeps(pieceToRemove));
    assert (forall i :: 0 <= i < |pieces| ==> !SamePiece(pieces[i], pieceToRemove)) ==> r == pieces by {
      if (forall i :: 0 <= i < |pieces| ==> !SamePiece(pieces[i], pieceToRemove)) {
        FilterAll(pieces, Keeps(pieceToRemove));
      }
    }
    r
  }

  /** Every piece that does not match the target is kept as often as it occurred; a matching one is gone. */
  lemma RemoveKeepsOthers(pieces: seq<Piece>, pieceToRemove: Piece, p: Piece)
    ensures multiset(RemovePieceFromBoard(pieces, pieceToRemove))[p] ==
      if SamePiece(p, pieceToRemove) then 0 else multiset(pieces)[p]
  {
    FilterCounts(pieces, Keeps(pieceToRemove), p);
  }

  /** Removal keeps the relative order: it distributes over concatenation. */
  lemma RemoveKeepsOrder(a: seq<Piece>, b: seq<Piece>, pieceToRemove: Piece)
    ensures RemovePieceFromBoard(a + b, pieceToRemove) == RemovePieceFromBoard(a, pieceToRemove) + RemovePieceFromBoard(b, pieceToRemove)
  {
    FilterAppend(a, b, Keeps(pieceToRemove));
  }

  /** Removing pieces keeps the pieces on distinct squares. */
  lemma {:induction false} RemoveKeepsNoOverlap(pieces: seq<Piece>, pieceToRemove: Piece)
    requires NoOverlap(pieces)
    ensures NoOverlap(RemovePieceFromBoard(pieces, pieceToRemove))
  {
    FilterKeepsNoOverlap(pieces, Keeps(pieceToRemove));
  }

  lemma {:induction false} FilterKeepsNoOverlap(s: seq<Piece>, p: Piece -> bool)
    requires NoOverlap(s)
    ensures NoOverlap(Filter(s, p))
  {
    if s != [] {
      var rest := s[1..];
      assert NoOverlap(rest) by {
        forall i, j | 0 <= i < j < |rest| ensures !IsAt(rest[j], rest[i].file, rest[i].rank) {
          assert rest[i] == s[i + 1] && rest[j] == s[j + 1];
        }
      }
      FilterKeepsNoOverlap(rest, p);
      var tail := Filter(rest, p);
      if p(s[0]) {
        var r := [s[0]] + tail;
        assert Filter(s, p) == r;
        forall j | 0 < j < |r| ensures !IsAt(r[j], s[0].file, s[0].rank) {
          assert r[j] == tail[j - 1];
          FilterMembers(rest, p, r[j]);
          var m :| 0 <= m < |rest| && rest[m] == r[j];
          assert s[m + 1] == r[j];
        }
        forall i, j | 0 <= i < j < |r| ensures !IsAt(r[j], r[i].file, r[i].rank) {
          if i > 0 {
            assert r[i] == tail[i - 1] && r[j] == tail[j - 1];
          }
        }
      }
    }
  }

  /** On a board where no two pieces share a square, the piece at index `i` is alone on its square. */
  lemma AloneOnSquare(pieces: seq<Piece>, i: nat)
    requires NoOverlap(pieces) && i < |pieces|
    ensures forall k :: 0 <= k < |pieces| && k != i ==> !IsAt(pieces[k], pieces[i].file, pieces[i].rank)
  {
    forall k | 0 <= k < |pieces| && k != i ensures !IsAt(pieces[k], pieces[i].file, pieces[i].rank) {
      if k < i {
        assert !IsAt(pieces[i], pieces[k].file, pieces[k].rank);
      }
    }
  }

  /** Removing a piece that is alone on its square deletes exactly its entry. */
  lemma RemoveLoneDeletes(pieces: seq<Piece>, i: nat)
    requires i < |pieces|
    requires forall k :: 0 <= k < |pieces| && k != i ==> !IsAt(pieces[k], pieces[i].file, pieces[i].rank)
    ensures RemovePieceFromBoard(pieces, pieces[i]) == pieces[..i] + pieces[i + 1..]
  {
    forall k | 0 <= k < |pieces| && k != i ensures Keeps(pieces[i])(pieces[k]) {
    }
    FilterSkipsOne(pieces, i, Keeps(pieces[i]));
  }

  /**
   * On a board where no two pieces share a square, removing a piece that is on
   * the board shortens it by exactly one and leaves its square empty.
   */
  lemma RemoveCapturedFreesSquare(pieces: seq<Piece>, i: nat)
    requires NoOverlap(pieces) && i < |pieces|
    ensures |RemovePieceFromBoard(pieces, pieces[i])| == |pieces| - 1
    ensures !Occupied(RemovePieceFromBoard(pieces, pieces[i]), pieces[i].file, pieces[i].rank)
  {
    AloneOnSquare(pieces, i);
    RemoveLoneDeletes(pieces, i);
    var r := pieces[..i] + pieces[i + 1..];
    forall k | 0 <= k < |r| ensures !IsAt(r[k], pieces[i].file, pieces[i].rank) {
      if k < i {
        assert r[k] == pieces[k];
      } else {
        assert r[k] == pieces[k + 1];
      }
    }
  }
}
