/**
 * The double-pawn (nifu) rule: a player may not hold two unpromoted pawns in
 * one file. Reads the board only; it never changes it.
 */
module DoublePawnValidation {
  import opened Wrappers
  import opened SeqOps
  import opened Types

  predicate IsUnpromotedPawnOf(p: Piece, file: int, player: Player) {
    p.kind == Pawn && p.player == player && p.file == file && !p.promoted
  }

  /** `hasUnpromotedPawnInFile`: does `player` have an unpromoted pawn in `file`? */
  function HasUnpromotedPawnInFile(pieces: seq<Piece>, file: int, player: Player): (r: bool)
    ensures r <==> exists i :: 0 <= i < |pieces| && IsUnpromotedPawnOf(pieces[i], file, player)
  {
    Any(pieces, (p: Piece) => IsUnpromotedPawnOf(p, file, player))
  }

  /**
   * Adding pieces that are not unpromoted pawns of `player` in `file` (promoted
   * pawns, the opponent's pawns, other types, other files) never changes the answer.
   */
  lemma {:induction false} OnlyOwnUnpromotedPawnsCount(pieces: seq<Piece>, extra: seq<Piece>, file: int, player: Player)
    requires forall i :: 0 <= i < |extra| ==> !IsUnpromotedPawnOf(extra[i], file, player)
    ensures HasUnpromotedPawnInFile(pieces + extra, file, player) == HasUnpromotedPawnInFile(pieces, file, player)
  {
    var all := pieces + extra;
    if HasUnpromotedPawnInFile(all, file, player) {
      var i :| 0 <= i < |all| && IsUnpromotedPawnOf(all[i], file, player);
      if i < |pieces| {
        assert pieces[i] == all[i];
      }
    }
    if HasUnpromotedPawnInFile(pieces, file, player) {
      var i :| 0 <= i < |pieces| && IsUnpromotedPawnOf(pieces[i], file, player);
      assert all[i] == pieces[i];
    }
  }

  /** The board invariant the rule protects: no player has two unpromoted pawns in one file. */
  ghost predicate NifuFree(pieces: seq<Piece>) {
    forall i, j :: 0 <= i < j < |pieces| && pieces[i].kind == Pawn && !pieces[i].promoted ==>
      !IsUnpromotedPawnOf(pieces[j], pieces[i].file, pieces[i].player)
  }

  /** `getErrorMessage`: the Japanese message for each reason code. */
  function GetErrorMessage(code: ValidationErrorCode): (m: string)
    ensures |m| > 0
  {
    match code
    case DoublePawn => "二歩は反則です"
    case OutOfBoard => "盤面外には打てません"
    case SquareOccupied => "既に駒があるマスには打てません"
  }

  /** The three codes have three different messages. */
  lemma ErrorMessagesDistinct(a: ValidationErrorCode, b: ValidationErrorCode)
    ensures GetErrorMessage(a) == GetErrorMessage(b) ==> a == b
  {
  }

  /**
   * `validateDoublePawn`: only a pawn drop (piece-type string "歩") is checked;
   * it is refused, with code DOUBLE_PAWN, exactly when the target file already
   * holds an unpromoted pawn of `player`. Rank and occupancy are not consulted.
   */
  function ValidateDoublePawn(pieces: seq<Piece>, position: Position, pieceType: string, player: Player): (r: ValidationResult)
    ensures pieceType != Glyph(Pawn) ==> r == ValidationResult(true, None, None)
    ensures pieceType == Glyph(Pawn) ==> (r.isValid <==> !HasUnpromotedPawnInFile(pieces, position.file, player))
    ensures r.isValid ==> r.errorCode == None && r.errorMessage == None
    ensures !r.isValid ==> r.errorCode == Some(DoublePawn) && r.errorMessage == Some(GetErrorMessage(DoublePawn))
  {
    if pieceType != "歩" then
      ValidationResult(true, None, None)
    else
      var hasDoublePawn := HasUnpromotedPawnInFile(pieces, position.file, player);
      if hasDoublePawn then
        ValidationResult(false, Some(DoublePawn), Some(GetErrorMessage(DoublePawn)))
      else
        ValidationResult(true, None, None)
  }

  /** A drop of any type other than the pawn is always valid, whatever the board. */
  lemma NonPawnDropsAlwaysValid(pieces: seq<Piece>, position: Position, t: PieceType, player: Player)
    requires t != Pawn
    ensures ValidateDoublePawn(pieces, position, Glyph(t), player).isValid
  {
    assert Glyph(t) != Glyph(Pawn) by {
      assert Glyph(t)[0] != Glyph(Pawn)[0];
    }
  }

  /** A drop that passes the check keeps the board free of double pawns. */
  lemma {:induction false} ValidDropKeepsNifuFree(pieces: seq<Piece>, position: Position, pieceType: string, player: Player, dropped: Piece)
    requires NifuFree(pieces)
    requires ValidateDoublePawn(pieces, position, pieceType, player).isValid
    requires dropped.player == player && dropped.file == position.file
    requires dropped.kind == Pawn ==> pieceType == Glyph(Pawn)
    ensures NifuFree(pieces + [dropped])
  {
    var all := pieces + [dropped];
    forall i, j | 0 <= i < j < |all| && all[i].kind == Pawn && !all[i].promoted
      ensures !IsUnpromotedPawnOf(all[j], all[i].file, all[i].player)
    {
      if j < |pieces| {
        assert all[i] == pieces[i] && all[j] == pieces[j];
      } else {
        assert all[j] == dropped && all[i] == pieces[i];
      }
    }
  }

  /** The 81 squares in the order the source scans them: file 1..9, and rank 1..9 within a file. */
  function AllSquares(): (s: seq<Position>)
    ensures |s| == 81
  {
    seq(81, i requires 0 <= i < 81 => Position(i / 9 + 1, i % 9 + 1))
  }

  lemma AllSquaresAt(file: int, rank: int)
    requires 1 <= file <= 9 && 1 <= rank <= 9
    ensures AllSquares()[9 * (file - 1) + (rank - 1)] == Position(file, rank)
  {
    var i := 9 * (file - 1) + (rank - 1);
    assert i / 9 == file - 1 && i % 9 == rank - 1;
  }

  /** The scan visits exactly the squares of the board. */
  lemma AllSquaresMembers(p: Position)
    ensures p in AllSquares() <==> 1 <= p.file <= 9 && 1 <= p.rank <= 9
  {
    if 1 <= p.file <= 9 && 1 <= p.rank <= 9 {
      AllSquaresAt(p.file, p.rank);
    }
  }

  /** Strict file-then-rank order. */
  predicate Before(a: Position, b: Position) {
    a.file < b.file || (a.file == b.file && a.rank < b.rank)
  }

  ghost predicate StrictlyOrdered(s: seq<Position>) {
    forall i, j :: 0 <= i < j < |s| ==> Before(s[i], s[j])
  }

  lemma AllSquaresOrdered()
    ensures StrictlyOrdered(AllSquares())
  {
    var s := AllSquares();
    forall i, j | 0 <= i < j < 81 ensures Before(s[i], s[j]) {
      assert i / 9 <= j / 9;
      assert i / 9 == j / 9 ==> i % 9 < j % 9;
    }
  }

  lemma {:induction false} FilterKeepsOrder(s: seq<Position>, p: Position -> bool)
    requires StrictlyOrdered(s)
    ensures StrictlyOrdered(Filter(s, p))
  {
    if s != [] {
      FilterKeepsOrder(s[1..], p);
      var rest := Filter(s[1..], p);
      if p(s[0]) {
        forall k | 0 <= k < |rest| ensures Before(s[0], rest[k]) {
          FilterMembers(s[1..], p, rest[k]);
          var m :| 0 <= m < |s[1..]| && s[1..][m] == rest[k];
          assert s[m + 1] == rest[k];
        }
        var r := [s[0]] + rest;
        forall i, j | 0 <= i < j < |r| ensures Before(r[i], r[j]) {
          if i == 0 {
            assert r[j] == rest[j - 1];
          } else {
            assert r[i] == rest[i - 1] && r[j] == rest[j - 1];
          }
        }
      }
    }
  }

  /** One step of the scan extends the filtered prefix by the square it visits, if that square qualifies. */
  lemma ScanStep(ok: Position -> bool, file: int, rank: int)
    requires 1 <= file <= 9 && 1 <= rank <= 9
    ensures Filter(AllSquares()[..9 * (file - 1) + rank], ok)
      == Filter(AllSquares()[..9 * (file - 1) + (rank - 1)], ok) + (if ok(Position(file, rank)) then [Position(file, rank)] else [])
  {
    var n := 9 * (file - 1) + (rank - 1);
    AllSquaresAt(file, rank);
    assert AllSquares()[..n + 1] == AllSquares()[..n] + [Position(file, rank)];
    FilterAppend(AllSquares()[..n], [Position(file, rank)], ok);
  }

  /** The condition a square must meet to be offered for a pawn drop. */
  function DropCandidate(pieces: seq<Piece>, player: Player): Position -> bool {
    (s: Position) => !Occupied(pieces, s.file, s.rank) && !HasUnpromotedPawnInFile(pieces, s.file, player)
  }

  /** The specification of `getValidPawnDropSquares`: the scan order, filtered by the drop condition. */
  function PawnDropSquares(pieces: seq<Piece>, player: Player): seq<Position> {
    Filter(AllSquares(), DropCandidate(pieces, player))
  }

  /**
   * `getValidPawnDropSquares`: a file-by-rank scan of the board that skips
   * occupied squares and files that already hold the player's unpromoted pawn.
   */
  method GetValidPawnDropSquares(pieces: seq<Piece>, player: Player) returns (validSquares: seq<Position>)
    ensures validSquares == PawnDropSquares(pieces, player)
  {
    ghost var ok := DropCandidate(pieces, player);
    validSquares := [];
    for file := 1 to 10
      invariant validSquares == Filter(AllSquares()[..9 * (file - 1)], ok)
    {
      for rank := 1 to 10
        invariant validSquares == Filter(AllSquares()[..9 * (file - 1) + (rank - 1)], ok)
      {
        ScanStep(ok, file, rank);
        var position := Position(file, rank);
        var isOccupied := Occupied(pieces, position.file, position.rank);
        if isOccupied {
          continue;
        }
        var hasDoublePawn := HasUnpromotedPawnInFile(pieces, file, player);
        if hasDoublePawn {
          continue;
        }
        validSquares := validSquares + [position];
      }
    }
    assert AllSquares()[..81] == AllSquares();
  }

  /**
   * The offered squares are exactly the empty board squares in files without an
   * unpromoted pawn of the player, each once, ordered by file and then rank.
   */
  lemma PawnDropSquaresSpec(pieces: seq<Piece>, player: Player)
    ensures forall p :: p in PawnDropSquares(pieces, player) <==>
      1 <= p.file <= 9 && 1 <= p.rank <= 9 && !Occupied(pieces, p.file, p.rank) && !HasUnpromotedPawnInFile(pieces, p.file, player)
    ensures StrictlyOrdered(PawnDropSquares(pieces, player))
    ensures forall i, j :: 0 <= i < j < |PawnDropSquares(pieces, player)| ==> PawnDropSquares(pieces, player)[i] != PawnDropSquares(pieces, player)[j]
  {
    forall p ensures p in PawnDropSquares(pieces, player) <==>
      1 <= p.file <= 9 && 1 <= p.rank <= 9 && !Occupied(pieces, p.file, p.rank) && !HasUnpromotedPawnInFile(pieces, p.file, player)
    {
      FilterMembers(AllSquares(), DropCandidate(pieces, player), p);
      AllSquaresMembers(p);
    }
    AllSquaresOrdered();
    FilterKeepsOrder(AllSquares(), DropCandidate(pieces, player));
  }

  /** On an empty board every one of the 81 squares is offered. */
  lemma EmptyBoardOffersEverySquare(player: Player)
    ensures PawnDropSquares([], player) == AllSquares()
    ensures |PawnDropSquares([], player)| == 81
  {
    FilterAll(AllSquares(), DropCandidate([], player));
  }

  /** When the player has an unpromoted pawn in every file, nothing is offered. */
  lemma EveryFilePawnedOffersNothing(pieces: seq<Piece>, player: Player)
    requires forall f :: 1 <= f <= 9 ==> HasUnpromotedPawnInFile(pieces, f, player)
    ensures PawnDropSquares(pieces, player) == []
  {
    var s := AllSquares();
    forall i | 0 <= i < |s| ensures !DropCandidate(pieces, player)(s[i]) {
      assert 1 <= s[i].file <= 9;
    }
    FilterNone(s, DropCandidate(pieces, player));
  }
}
