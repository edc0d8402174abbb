/** The forty-piece starting position of a game. */
module InitialPosition {
  import opened Types
  import opened DoublePawnValidation

  /** Sente's pieces on ranks 1-3, then gote's on ranks 9-7: back rank, the two major pieces, the pawns. */
  const INITIAL_POSITION: seq<Piece> := [
    Piece(Lance, Sente, 1, 1, false),
    Piece(Knight, Sente, 2, 1, false),
    Piece(Silver, Sente, 3, 1, false),
    Piece(Gold, Sente, 4, 1, false),
    Piece(King, Sente, 5, 1, false),
    Piece(Gold, Sente, 6, 1, false),
    Piece(Silver, Sente, 7, 1, false),
    Piece(Knight, Sente, 8, 1, false),
    Piece(Lance, Sente, 9, 1, false),
    Piece(Bishop, Sente, 2, 2, false),
    Piece(Rook, Sente, 8, 2, false),
    Piece(Pawn, Sente, 1, 3, false),
    Piece(Pawn, Sente, 2, 3, false),
    Piece(Pawn, Sente, 3, 3, false),
    Piece(Pawn, Sente, 4, 3, false),
    Piece(Pawn, Sente, 5, 3, false),
    Piece(Pawn, Sente, 6, 3, false),
    Piece(Pawn, Sente, 7, 3, false),
    Piece(Pawn, Sente, 8, 3, false),
    Piece(Pawn, Sente, 9, 3, false),

    Piece(Lance, Gote, 1, 9, false),
    Piece(Knight, Gote, 2, 9, false),
    Piece(Silver, Gote, 3, 9, false),
    Piece(Gold, Gote, 4, 9, false),
    Piece(Jewel, Gote, 5, 9, false),
    Piece(Gold, Gote, 6, 9, false),
    Piece(Silver, Gote, 7, 9, false),
    Piece(Knight, Gote, 8, 9, false),
    Piece(Lance, Gote, 9, 9, false),
    Piece(Rook, Gote, 2, 8, false),
    Piece(Bishop, Gote, 8, 8, false),
    Piece(Pawn, Gote, 1, 7, false),
    Piece(Pawn, Gote, 2, 7, false),
    Piece(Pawn, Gote, 3, 7, false),
    Piece(Pawn, Gote, 4, 7, false),
    Piece(Pawn, Gote, 5, 7, false),
    Piece(Pawn, Gote, 6, 7, false),
    Piece(Pawn, Gote, 7, 7, false),
    Piece(Pawn, Gote, 8, 7, false),
    Piece(Pawn, Gote, 9, 7, false)
  ]

  /** Forty pieces: sente owns the first twenty entries and gote the last twenty. */
  lemma Owners()
    ensures |INITIAL_POSITION| == 40
    ensures forall i :: 0 <= i < 20 ==> INITIAL_POSITION[i].player == Sente
    ensures forall i :: 20 <= i < 40 ==> INITIAL_POSITION[i].player == Gote
  {
  }

  /** The file of entry `i`, read off the layout: back rank, bishop and rook, pawns, for each player. */
  function LayoutFile(i: int): int {
    if i < 9 then i + 1 else if i == 9 then 2 else if i == 10 then 8 else if i < 20 then i - 10
    else if i < 29 then i - 19 else if i == 29 then 2 else if i == 30 then 8 else i - 30
  }

  function LayoutRank(i: int): int {
    if i < 9 then 1 else if i < 11 then 2 else if i < 20 then 3
    else if i < 29 then 9 else if i < 31 then 8 else 7
  }

  lemma Layout()
    ensures forall i :: 0 <= i < 40 ==> INITIAL_POSITION[i].file == LayoutFile(i) && INITIAL_POSITION[i].rank == LayoutRank(i)
  {
  }

  /** The entry standing on (file, rank), read back from the layout. */
  function LayoutIndex(file: int, rank: int): int {
    if rank == 1 then file - 1 else if rank == 2 then (if file == 2 then 9 else 10) else if rank == 3 then file + 10
    else if rank == 9 then file + 19 else if rank == 8 then (if file == 2 then 29 else 30) else file + 30
  }

  lemma LayoutIndexInverts()
    ensures forall i :: 0 <= i < 40 ==> LayoutIndex(LayoutFile(i), LayoutRank(i)) == i
  {
  }

  /** Every piece stands on the board, unpromoted. */
  lemma OnBoard()
    ensures forall i :: 0 <= i < 40 ==>
      1 <= INITIAL_POSITION[i].file <= 9 && 1 <= INITIAL_POSITION[i].rank <= 9 && !INITIAL_POSITION[i].promoted
  {
  }

  /** No two pieces stand on one square. */
  lemma Disjoint()
    ensures NoOverlap(INITIAL_POSITION)
  {
    Layout();
    LayoutIndexInverts();
    forall i, j | 0 <= i < j < 40 ensures !IsAt(INITIAL_POSITION[j], INITIAL_POSITION[i].file, INITIAL_POSITION[i].rank) {
      assert LayoutIndex(LayoutFile(i), LayoutRank(i)) == i && LayoutIndex(LayoutFile(j), LayoutRank(j)) == j;
    }
  }

  /** There is exactly one 王, entry 4, sente's, and exactly one 玉, entry 24, gote's. */
  lemma KingEntries()
    ensures forall i :: 0 <= i < 40 && INITIAL_POSITION[i].kind == King ==> i == 4
    ensures forall i :: 0 <= i < 40 && INITIAL_POSITION[i].kind == Jewel ==> i == 24
    ensures INITIAL_POSITION[4].kind == King && INITIAL_POSITION[4].player == Sente
    ensures INITIAL_POSITION[24].kind == Jewel && INITIAL_POSITION[24].player == Gote
  {
  }

  /** The back rank in file order 1..9. */
  const BACK_RANK: seq<PieceType> := [Lance, Knight, Silver, Gold, King, Gold, Silver, Knight, Lance]

  /**
   * Sente's rank 1 holds 香 桂 銀 金 王 金 銀 桂 香 in file order 1..9 (entries 0-8);
   * gote's rank 9 holds the same with 玉 in place of 王 (entries 20-28).
   */
  lemma BackRanks()
    ensures forall i :: 0 <= i < 9 ==> INITIAL_POSITION[i] == Piece(BACK_RANK[i], Sente, i + 1, 1, false)
    ensures forall i :: 20 <= i < 29 ==>
      INITIAL_POSITION[i] == Piece(if i == 24 then Jewel else BACK_RANK[i - 20], Gote, i - 19, 9, false)
  {
  }

  /** Sente's unpromoted pawns fill rank 3 (entries 11-19) and gote's rank 7 (entries 31-39). */
  lemma PawnRows()
    ensures forall i :: 11 <= i < 20 ==> INITIAL_POSITION[i] == Piece(Pawn, Sente, i - 10, 3, false)
    ensures forall i :: 31 <= i < 40 ==> INITIAL_POSITION[i] == Piece(Pawn, Gote, i - 30, 7, false)
    ensures forall i :: 0 <= i < 40 && INITIAL_POSITION[i].kind == Pawn ==> 11 <= i < 20 || 31 <= i < 40
  {
  }

  /** Each player has an unpromoted pawn in every file, and never two in one file. */
  lemma PawnInEveryFile()
    ensures forall f, p :: 1 <= f <= 9 ==> HasUnpromotedPawnInFile(INITIAL_POSITION, f, p)
    ensures NifuFree(INITIAL_POSITION)
  {
    var s := INITIAL_POSITION;
    PawnRows();
    forall f, p | 1 <= f <= 9 ensures HasUnpromotedPawnInFile(s, f, p) {
      var i := if p == Sente then 10 + f else 30 + f;
      assert IsUnpromotedPawnOf(s[i], f, p);
    }
  }

  /**
   * The piece's image under the half turn about (5, 5): the other player's piece
   * of the same type, 王 and 玉 exchanged, on the square (10 - file, 10 - rank).
   */
  function MirrorPiece(p: Piece): Piece {
    var kind := if p.kind == King then Jewel else if p.kind == Jewel then King else p.kind;
    var player := if p.player == Sente then Gote else Sente;
    Piece(kind, player, 10 - p.file, 10 - p.rank, p.promoted)
  }

  /** The entry holding the mirror image of entry `i`; it is its own inverse. */
  function MirrorIndex(i: int): int {
    if i < 9 then 28 - i else if i == 9 then 30 else if i == 10 then 29 else if i < 20 then 50 - i
    else if i < 29 then 28 - i else if i == 29 then 10 else if i == 30 then 9 else 50 - i
  }

  /** `MirrorIndex` maps the 40 entries onto themselves and is its own inverse. */
  lemma MirrorIndexInvolution()
    ensures forall i :: 0 <= i < 40 ==> 0 <= MirrorIndex(i) < 40 && MirrorIndex(MirrorIndex(i)) == i
  {
  }

  /** Each of sente's 20 entries has its mirror image at the matching gote entry. */
  lemma SenteMirrored()
    ensures forall i :: 0 <= i < 20 ==> INITIAL_POSITION[MirrorIndex(i)] == MirrorPiece(INITIAL_POSITION[i])
  {
    BackRanks();
    PawnRows();
    forall i | 0 <= i < 20 ensures INITIAL_POSITION[MirrorIndex(i)] == MirrorPiece(INITIAL_POSITION[i]) {
      if i == 9 || i == 10 {
      } else if i < 9 {
        assert BACK_RANK[i] == BACK_RANK[8 - i];
      }
    }
  }

  /**
   * The position is point-symmetric: the piece at (f, r) has a counterpart of the
   * other player and the same type at (10 - f, 10 - r), with 王 and 玉 exchanged.
   */
  lemma PointSymmetric()
    ensures forall i :: 0 <= i < 40 ==> 0 <= MirrorIndex(i) < 40 && MirrorIndex(MirrorIndex(i)) == i
    ensures forall i :: 0 <= i < 40 ==> INITIAL_POSITION[MirrorIndex(i)] == MirrorPiece(INITIAL_POSITION[i])
  {
    MirrorIndexInvolution();
    SenteMirrored();
    forall i | 20 <= i < 40 ensures INITIAL_POSITION[MirrorIndex(i)] == MirrorPiece(INITIAL_POSITION[i]) {
      var j := MirrorIndex(i);
      assert INITIAL_POSITION[MirrorIndex(j)] == MirrorPiece(INITIAL_POSITION[j]);
      assert MirrorPiece(MirrorPiece(INITIAL_POSITION[i])) == INITIAL_POSITION[i];
    }
  }
}
