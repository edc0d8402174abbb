/**
 * Move generation for unpromoted pieces: the per-type pattern table, the
 * orientation flip for gote, ray scanning with blocking, move validation and
 * the path test between two squares.
 */
module MoveRules {
  import opened Wrappers
  import opened SeqOps
  import opened Types
  import opened BoardState

  /** A direction a step-1 piece or a slider uses: one square in each coordinate at most, not standing still. */
  predicate IsUnitVector(v: Vector) {
    -1 <= v.dFile <= 1 && -1 <= v.dRank <= 1 && v != Vector(0, 0)
  }

  /** The knight's jump: one file aside and two ranks forward or back. */
  predicate IsKnightVector(v: Vector) {
    (v.dFile == 1 || v.dFile == -1) && (v.dRank == 2 || v.dRank == -2)
  }

  predicate IsSlider(t: PieceType) {
    t == Lance || t == Rook || t == Bishop
  }

  /**
   * `MOVE_PATTERNS`, in sente's orientation (rank grows toward gote). Every
   * vector moves; only the knight's leave the unit square, and only the lance,
   * rook and bishop slide.
   */
  function MovePatterns(t: PieceType): (p: MovePattern)
    ensures p.range == Unbounded <==> IsSlider(t)
  {
    match t
    case Pawn => MovePattern([Vector(0, 1)], One)
    case Lance => MovePattern([Vector(0, 1)], Unbounded)
    case Knight => MovePattern([Vector(-1, 2), Vector(1, 2)], One)
    case Silver => MovePattern([Vector(-1, 1), Vector(0, 1), Vector(1, 1), Vector(-1, -1), Vector(1, -1)], One)
    case Gold => MovePattern([Vector(-1, 1), Vector(0, 1), Vector(1, 1), Vector(-1, 0), Vector(1, 0), Vector(0, -1)], One)
    case Rook => MovePattern([Vector(0, 1), Vector(0, -1), Vector(1, 0), Vector(-1, 0)], Unbounded)
    case Bishop => MovePattern([Vector(1, 1), Vector(1, -1), Vector(-1, 1), Vector(-1, -1)], Unbounded)
    case King => KingPattern()
    case Jewel => KingPattern()
  }

  function KingPattern(): MovePattern {
    MovePattern([Vector(-1, 1), Vector(0, 1), Vector(1, 1), Vector(-1, 0), Vector(1, 0), Vector(-1, -1), Vector(0, -1), Vector(1, -1)], One)
  }

  /** Every pattern has a vector; the knight's are its two forward jumps, all others unit vectors. */
  lemma PatternShapes(t: PieceType)
    ensures |MovePatterns(t).vectors| > 0
    ensures forall i :: 0 <= i < |MovePatterns(t).vectors| ==>
      if t == Knight then IsKnightVector(MovePatterns(t).vectors[i]) && MovePatterns(t).vectors[i].dRank == 2
      else IsUnitVector(MovePatterns(t).vectors[i])
  {
  }

  /** 王 and 玉 move alike: one step in each of the eight directions. */
  lemma KingsMoveAlike()
    ensures MovePatterns(King) == MovePatterns(Jewel)
    ensures |MovePatterns(King).vectors| == 8 && MovePatterns(King).range == One
    ensures forall v :: IsUnitVector(v) ==> v in MovePatterns(King).vectors
  {
  }

  /** The vector pointing the other way. */
  function Negate(v: Vector): Vector {
    Vector(-v.dFile, -v.dRank)
  }

  /**
   * `getAdjustedVectors`: sente uses the table as it is; gote uses every vector
   * reversed (a zero component staying zero), in the same order.
   */
  function AdjustedVectors(piece: Piece, pattern: MovePattern): (r: seq<Vector>)
    ensures |r| == |pattern.vectors|
    ensures piece.player == Sente ==> r == pattern.vectors
    ensures piece.player == Gote ==> forall i :: 0 <= i < |r| ==> r[i] == Negate(pattern.vectors[i])
  {
    if piece.player == Sente then pattern.vectors
    else
      var vs := pattern.vectors;
      seq(|vs|, i requires 0 <= i < |vs| =>
        Vector(if vs[i].dFile == 0 then 0 else -vs[i].dFile, if vs[i].dRank == 0 then 0 else -vs[i].dRank))
  }

  /** Reversing twice gives back the table: gote's reversal is an involution. */
  lemma AdjustTwiceRestores(piece: Piece, pattern: MovePattern)
    requires piece.player == Gote
    ensures AdjustedVectors(piece, MovePattern(AdjustedVectors(piece, pattern), pattern.range)) == pattern.vectors
  {
  }

  /** The vectors a piece actually moves along: nonzero, unit or knight-shaped, knight jumps never sliding. */
  lemma AdjustedVectorShapes(piece: Piece)
    ensures forall i :: 0 <= i < |AdjustedVectors(piece, MovePatterns(piece.kind))| ==>
      var v := AdjustedVectors(piece, MovePatterns(piece.kind))[i];
      v != Vector(0, 0) && (IsUnitVector(v) || (IsKnightVector(v) && MovePatterns(piece.kind).range == One))
  {
    PatternShapes(piece.kind);
  }

  /** `d * k` for a step count `k`, written as repeated addition. */
  function Scale(d: int, k: nat): int {
    if k == 0 then 0 else Scale(d, k - 1) + d
  }

  lemma {:induction false} ScaleIsProduct(d: int, k: nat)
    ensures Scale(d, k) == d * k
  {
    if k > 0 {
      ScaleIsProduct(d, k - 1);
    }
  }

  /** A nonzero component moves at least one square per step. */
  lemma {:induction false} ScaleGrows(d: int, k: nat)
    requires d != 0
    ensures d > 0 ==> Scale(d, k) >= k
    ensures d < 0 ==> Scale(d, k) + k <= 0
  {
    if k > 0 {
      ScaleGrows(d, k - 1);
    }
  }

  lemma ScaleOne(d: int)
    ensures Scale(d, 1) == d
  {
    assert Scale(d, 0) == 0;
  }

  /** A unit component moves exactly one square per step. */
  lemma {:induction false} ScaleUnit(d: int, k: nat)
    requires -1 <= d <= 1
    ensures d == 0 ==> Scale(d, k) == 0
    ensures d == 1 ==> Scale(d, k) == k
    ensures d == -1 ==> Scale(d, k) + k == 0
  {
    if k > 0 {
      ScaleUnit(d, k - 1);
    }
  }

  /** The square `step` times `v` away from `position`. */
  function Target(position: Position, v: Vector, step: nat): Position {
    Position(position.file + Scale(v.dFile, step), position.rank + Scale(v.dRank, step))
  }

  /** Two squares of one ray that are both on the board are at most eight steps apart. */
  lemma StepBound(position: Position, v: Vector, k: nat)
    requires v != Vector(0, 0) && k >= 1
    requires IsValidPosition(Target(position, v, 1)) && IsValidPosition(Target(position, v, k))
    ensures k <= 9
  {
    ScaleOne(v.dFile);
    ScaleOne(v.dRank);
    if v.dFile != 0 {
      ScaleGrows(v.dFile, k - 1);
    } else {
      ScaleGrows(v.dRank, k - 1);
    }
  }

  /** The loop bound `step <= range`: one step at most, or no bound. */
  predicate WithinRange(step: int, range: Range) {
    range == Unbounded || step <= 1
  }

  /**
   * The squares a piece on `position` reaches along `v` from step `step` on:
   * they stop before the first square off the board or holding any piece,
   * and after the first square when the range is one.
   */
  function Ray(position: Position, v: Vector, range: Range, board: seq<Piece>, step: nat): (r: seq<Position>)
    requires step >= 1 && v != Vector(0, 0)
    requires step == 1 || IsValidPosition(Target(position, v, 1))
    requires WithinRange(step, range)
    ensures range == One ==> |r| <= 1
    ensures forall i :: 0 <= i < |r| ==> IsValidPosition(r[i]) && !Occupied(board, r[i].file, r[i].rank)
    decreases 10 - step
  {
    var target := Target(position, v, step);
    if !IsValidPosition(target) then []
    else if Occupied(board, target.file, target.rank) then []
    else if range == One then [target]
    else
      StepBound(position, v, step);
      [target] + Ray(position, v, range, board, step + 1)
  }

  /** The squares along `v` up to and including step `k` are on the board and empty. */
  predicate FreeUpTo(position: Position, v: Vector, board: seq<Piece>, from: nat, k: nat) {
    forall j: nat :: from <= j <= k ==>
      IsValidPosition(Target(position, v, j)) && !Occupied(board, Target(position, v, j).file, Target(position, v, j).rank)
  }

  /** A square is on the ray exactly when it is a reachable step with every step before it free. */
  lemma {:induction false} RayMembership(position: Position, v: Vector, range: Range, board: seq<Piece>, step: nat, p: Position)
    requires step >= 1 && v != Vector(0, 0)
    requires step == 1 || IsValidPosition(Target(position, v, 1))
    requires WithinRange(step, range)
    ensures p in Ray(position, v, range, board, step) <==>
      exists k: nat :: step <= k && (range == One ==> k == step) && p == Target(position, v, k) && FreeUpTo(position, v, board, step, k)
    decreases 10 - step
  {
    var target := Target(position, v, step);
    var free := !Occupied(board, target.file, target.rank) && IsValidPosition(target);
    if !free {
    } else if range == One {
      assert FreeUpTo(position, v, board, step, step);
    } else {
      StepBound(position, v, step);
      RayMembership(position, v, range, board, step + 1, p);
      if p in Ray(position, v, range, board, step) {
        if p != target {
          var k: nat :| step + 1 <= k && p == Target(position, v, k) && FreeUpTo(position, v, board, step + 1, k);
          assert FreeUpTo(position, v, board, step, k);
        } else {
          assert FreeUpTo(position, v, board, step, step);
        }
      }
      if exists k: nat :: step <= k && p == Target(position, v, k) && FreeUpTo(position, v, board, step, k) {
        var k: nat :| step <= k && p == Target(position, v, k) && FreeUpTo(position, v, board, step, k);
        if k > step {
          assert FreeUpTo(position, v, board, step + 1, k);
        }
      }
    }
  }

  /** The ray of a vector, from the first step; the zero vector, which no pattern holds, gives none. */
  function RayFrom(position: Position, range: Range, board: seq<Piece>): Vector -> seq<Position> {
    (v: Vector) => if v == Vector(0, 0) then [] else Ray(position, v, range, board, 1)
  }

  /** The vectors a piece moves along, all nonzero. */
  function PieceVectors(piece: Piece): (vs: seq<Vector>)
    ensures forall i :: 0 <= i < |vs| ==> vs[i] != Vector(0, 0)
  {
    AdjustedVectorShapes(piece);
    AdjustedVectors(piece, MovePatterns(piece.kind))
  }

  /** The destinations `calculateValidMoves` returns, in the order it finds them. */
  function ValidMoves(piece: Piece, position: Position, board: seq<Piece>): seq<Position> {
    ConcatMap(PieceVectors(piece), RayFrom(position, MovePatterns(piece.kind).range, board))
  }

  /**
   * The independent description of a move: along one of the piece's vectors,
   * some number of steps (exactly one for a non-slider), with every square up
   * to the destination on the board and empty.
   */
  ghost predicate Reachable(piece: Piece, position: Position, board: seq<Piece>, to: Position) {
    var vs := PieceVectors(piece);
    var range := MovePatterns(piece.kind).range;
    exists i: int, k: nat :: 0 <= i < |vs| && 1 <= k && (range == One ==> k == 1) &&
      to == Target(position, vs[i], k) && FreeUpTo(position, vs[i], board, 1, k)
  }

  /** The generated moves are exactly the reachable squares. */
  lemma ValidMovesAreReachable(piece: Piece, position: Position, board: seq<Piece>, to: Position)
    ensures to in ValidMoves(piece, position, board) <==> Reachable(piece, position, board, to)
  {
    var vs := PieceVectors(piece);
    var range := MovePatterns(piece.kind).range;
    ConcatMapMembers(vs, RayFrom(position, range, board), to);
    forall i | 0 <= i < |vs| {
      RayMembership(position, vs[i], range, board, 1, to);
    }
  }

  /** Every generated destination is a square of the board that holds no piece. */
  lemma ValidMovesOnEmptySquares(piece: Piece, position: Position, board: seq<Piece>, to: Position)
    requires to in ValidMoves(piece, position, board)
    ensures IsValidPosition(to) && !Occupied(board, to.file, to.rank)
  {
    ValidMovesAreReachable(piece, position, board, to);
    var vs := PieceVectors(piece);
    var i: int, k: nat :| 0 <= i < |vs| && 1 <= k && to == Target(position, vs[i], k) && FreeUpTo(position, vs[i], board, 1, k);
    assert k <= k;
  }

  /** A piece that does not slide has at most one destination per vector. */
  lemma NonSliderMoveCount(piece: Piece, position: Position, board: seq<Piece>)
    requires !IsSlider(piece.kind)
    ensures |ValidMoves(piece, position, board)| <= |PieceVectors(piece)|
  {
    var vs := PieceVectors(piece);
    forall i | 0 <= i < |vs| ensures |RayFrom(position, One, board)(vs[i])| <= 1 {
    }
    ConcatMapShort(vs, RayFrom(position, One, board));
  }

  /**
   * `calculateValidMoves`: for each adjusted vector in turn, step outward from
   * `position` and collect each empty square on the board, stopping at the edge,
   * at the first piece of either player, or after one step for a non-slider.
   */
  method CalculateValidMoves(piece: Piece, position: Position, board: seq<Piece>) returns (validMoves: seq<Position>)
    ensures validMoves == ValidMoves(piece, position, board)
  {
    var pattern := MovePatterns(piece.kind);
    var adjustedVectors := PieceVectors(piece);
    validMoves := [];
    for i := 0 to |adjustedVectors|
      invariant validMoves == ConcatMap(adjustedVectors[..i], RayFrom(position, pattern.range, board))
    {
      var squares := CollectRay(position, adjustedVectors[i], pattern.range, board);
      validMoves := validMoves + squares;
      ConcatMapSnoc(adjustedVectors, RayFrom(position, pattern.range, board), i);
    }
    assert adjustedVectors[..|adjustedVectors|] == adjustedVectors;
  }

  /**
   * The inner loop of `calculateValidMoves` for one vector: step 1, 2, ...
   * while the range allows, stopping before a square off the board or taken,
   * and appending each free square.
   */
  method CollectRay(position: Position, vector: Vector, range: Range, board: seq<Piece>) returns (squares: seq<Position>)
    requires vector != Vector(0, 0)
    ensures squares == Ray(position, vector, range, board, 1)
  {
    squares := [];
    var step := 1;
    while WithinRange(step, range)
      invariant 1 <= step <= 10
      invariant step == 1 || IsValidPosition(Target(position, vector, 1))
      invariant range == One ==> step == 1
      invariant Ray(position, vector, range, board, 1) == squares + Ray(position, vector, range, board, step)
      decreases 10 - step
    {
      var target := Target(position, vector, step);
      if !IsValidPosition(target) {
        RayStops(position, vector, range, board, step);
        break;
      }
      var pieceAtTarget := PieceAt(board, target.file, target.rank);
      if pieceAtTarget.Some? {
        RayStops(position, vector, range, board, step);
        break;
      }
      RayUnfold(position, vector, range, board, step);
      squares := squares + [target];
      if range == One {
        break;
      }
      step := step + 1;
    }
  }

  /** The ray ends at a square off the board or taken. */
  lemma RayStops(position: Position, v: Vector, range: Range, board: seq<Piece>, step: nat)
    requires step >= 1 && v != Vector(0, 0)
    requires step == 1 || IsValidPosition(Target(position, v, 1))
    requires WithinRange(step, range)
    requires !IsValidPosition(Target(position, v, step)) || Occupied(board, Target(position, v, step).file, Target(position, v, step).rank)
    ensures Ray(position, v, range, board, step) == []
  {
  }

  /** One step of the ray past a free square: it is that square, then the rest of the ray when the range allows. */
  lemma RayUnfold(position: Position, v: Vector, range: Range, board: seq<Piece>, step: nat)
    requires step >= 1 && v != Vector(0, 0)
    requires step == 1 || IsValidPosition(Target(position, v, 1))
    requires WithinRange(step, range)
    requires IsValidPosition(Target(position, v, step)) && !Occupied(board, Target(position, v, step).file, Target(position, v, step).rank)
    ensures range == One ==> Ray(position, v, range, board, step) == [Target(position, v, step)]
    ensures range == Unbounded ==> (step <= 9 && IsValidPosition(Target(position, v, 1)) &&
      Ray(position, v, range, board, step) == [Target(position, v, step)] + Ray(position, v, range, board, step + 1))
  {
    if range == Unbounded {
      StepBound(position, v, step);
    }
  }

  /**
   * `isValidMove`: the destination is on the board and among the squares
   * `calculateValidMoves` offers from `from`; equivalently, it is reachable.
   */
  function IsValidMove(from: Position, to: Position, piece: Piece, board: seq<Piece>): (r: bool)
    ensures r <==> to in ValidMoves(piece, from, board)
    ensures r <==> Reachable(piece, from, board, to)
    ensures r ==> IsValidPosition(to) && !Occupied(board, to.file, to.rank)
  {
    if !IsValidPosition(to) then
      assert to !in ValidMoves(piece, from, board) by {
        if to in ValidMoves(piece, from, board) {
          ValidMovesOnEmptySquares(piece, from, board, to);
        }
      }
      ValidMovesAreReachable(piece, from, board, to);
      false
    else
      var validMoves := ValidMoves(piece, from, board);
      ValidMovesAreReachable(piece, from, board, to);
      var r := Any(validMoves, (move: Position) => move.file == to.file && move.rank == to.rank);
      assert r <==> to in validMoves by {
        if to in validMoves {
          var i :| 0 <= i < |validMoves| && validMoves[i] == to;
        }
      }
      if r then
        ValidMovesOnEmptySquares(piece, from, board, to);
        r
      else r
  }

  // ---- The path test ----

  function Abs(x: int): int {
    if x < 0 then -x else x
  }

  function Sign(x: int): int {
    if x == 0 then 0 else if x > 0 then 1 else -1
  }

  /** `to` lies on a file, a rank or a diagonal through `from`. */
  predicate IsStraight(from: Position, to: Position) {
    var dFile, dRank := to.file - from.file, to.rank - from.rank;
    dFile == 0 || dRank == 0 || Abs(dFile) == Abs(dRank)
  }

  predicate IsKnightJump(from: Position, to: Position) {
    Abs(to.file - from.file) == 1 && Abs(to.rank - from.rank) == 2
  }

  /** The number of unit steps from `from` to `to` along a straight line. */
  function Distance(from: Position, to: Position): nat {
    var dFile, dRank := Abs(to.file - from.file), Abs(to.rank - from.rank);
    if dFile >= dRank then dFile else dRank
  }

  /** The square `k` unit steps from `from` toward `to`. */
  function StepToward(from: Position, to: Position, k: nat): Position {
    Position(from.file + Scale(Sign(to.file - from.file), k), from.rank + Scale(Sign(to.rank - from.rank), k))
  }

  /** No piece on any square strictly between `from` and `to`. */
  predicate ClearBetween(from: Position, to: Position, board: seq<Piece>) {
    forall k: nat :: 1 <= k < Distance(from, to) ==>
      !Occupied(board, StepToward(from, to, k).file, StepToward(from, to, k).rank)
  }

  /** On a straight line the unit steps reach `to` after exactly `Distance` steps and not before. */
  lemma StepsReach(from: Position, to: Position, k: nat)
    requires IsStraight(from, to) && k <= Distance(from, to)
    ensures StepToward(from, to, k) == to <==> k == Distance(from, to)
  {
    ScaleUnit(Sign(to.file - from.file), k);
    ScaleUnit(Sign(to.rank - from.rank), k);
  }

  /** Unit steps toward `to` can land on `to` only when `to` lies on a line through `from`. */
  lemma StepsLandOnlyOnLines(from: Position, to: Position, k: nat)
    ensures StepToward(from, to, k) == to ==> IsStraight(from, to)
  {
    ScaleUnit(Sign(to.file - from.file), k);
    ScaleUnit(Sign(to.rank - from.rank), k);
  }

  /** Some square of the unit-step walk from `from` toward `to` holds a piece. */
  ghost predicate WalkBlocked(from: Position, to: Position, board: seq<Piece>) {
    exists k: nat :: 1 <= k && Occupied(board, StepToward(from, to, k).file, StepToward(from, to, k).rank)
  }

  /**
   * An unaligned destination that the path test still answers: from (5,5) the
   * walk toward (7,6) steps by (1,1) and meets the piece on (6,6) first.
   */
  lemma UnalignedWalkMeetsBlocker()
    ensures !IsStraight(Position(5, 5), Position(7, 6)) && !IsKnightJump(Position(5, 5), Position(7, 6))
    ensures StepToward(Position(5, 5), Position(7, 6), 1) == Position(6, 6)
    ensures WalkBlocked(Position(5, 5), Position(7, 6), [Piece(Pawn, Gote, 6, 6, false)])
  {
    ScaleOne(1);
    assert Occupied([Piece(Pawn, Gote, 6, 6, false)], 6, 6);
  }

  /**
   * `isPathClear`: a move of at most one square each way, or a knight jump,
   * needs no path; otherwise the squares strictly between `from` and `to`
   * along the line must all be empty. For a destination on no line through
   * `from` the walk never meets `to`: it ends with false at the first piece on
   * it, and runs forever when there is none, so that last case is excluded.
   */
  method IsPathClear(from: Position, to: Position, board: seq<Piece>) returns (r: bool)
    requires IsStraight(from, to) || IsKnightJump(from, to) || WalkBlocked(from, to, board)
    ensures Abs(to.file - from.file) <= 1 && Abs(to.rank - from.rank) <= 1 ==> r
    ensures IsKnightJump(from, to) ==> r
    ensures IsStraight(from, to) ==> (r <==> ClearBetween(from, to, board))
    ensures !IsStraight(from, to) && !IsKnightJump(from, to) ==> !r
  {
    var dFile := to.file - from.file;
    var dRank := to.rank - from.rank;
    if Abs(dFile) <= 1 && Abs(dRank) <= 1 {
      return true;
    }
    if Abs(dFile) == 1 && Abs(dRank) == 2 {
      return true;
    }
    var stepFile := if dFile == 0 then 0 else if dFile > 0 then 1 else -1;
    var stepRank := if dRank == 0 then 0 else if dRank > 0 then 1 else -1;
    var currentFile := from.file + stepFile;
    var currentRank := from.rank + stepRank;
    ghost var k: nat := 1;
    ghost var blocker: nat := 1;
    if !IsStraight(from, to) {
      blocker :| 1 <= blocker && Occupied(board, StepToward(from, to, blocker).file, StepToward(from, to, blocker).rank);
    }
    ScaleOne(stepFile);
    ScaleOne(stepRank);
    if IsStraight(from, to) {
      StepsReach(from, to, 1);
    }
    while currentFile != to.file || currentRank != to.rank
      invariant 1 <= k
      invariant IsStraight(from, to) ==> k <= Distance(from, to)
      invariant !IsStraight(from, to) ==> k <= blocker
      invariant Position(currentFile, currentRank) == StepToward(from, to, k)
      invariant forall j: nat :: 1 <= j < k ==> !Occupied(board, StepToward(from, to, j).file, StepToward(from, to, j).rank)
      decreases if IsStraight(from, to) then Distance(from, to) - k else blocker - k
    {
      if IsStraight(from, to) {
        StepsReach(from, to, k);
      }
      var pieceAtPosition := PieceAt(board, currentFile, currentRank);
      if pieceAtPosition.Some? {
        return false;
      }
      currentFile := currentFile + stepFile;
      currentRank := currentRank + stepRank;
      k := k + 1;
      assert Scale(stepFile, k) == Scale(stepFile, k - 1) + stepFile;
    }
    StepsLandOnlyOnLines(from, to, k);
    StepsReach(from, to, k);
    return true;
  }

  /**
   * Every destination `calculateValidMoves` offers is a knight jump or lies on
   * a line through the start, and in the latter case the path to it is clear.
   */
  lemma OfferedMovesHaveClearPath(piece: Piece, position: Position, board: seq<Piece>, to: Position)
    requires to in ValidMoves(piece, position, board)
    ensures IsStraight(position, to) || IsKnightJump(position, to)
    ensures IsStraight(position, to) ==> ClearBetween(position, to, board)
  {
    ValidMovesAreReachable(piece, position, board, to);
    AdjustedVectorShapes(piece);
    var vs := PieceVectors(piece);
    var range := MovePatterns(piece.kind).range;
    var i: int, k: nat :| 0 <= i < |vs| && 1 <= k && (range == One ==> k == 1) &&
      to == Target(position, vs[i], k) && FreeUpTo(position, vs[i], board, 1, k);
    if IsUnitVector(vs[i]) {
      UnitRayClear(position, vs[i], board, k);
    } else {
      KnightTarget(position, vs[i]);
    }
  }

  /** The end of k free unit steps is on a line through the start, with a clear path to it. */
  lemma UnitRayClear(position: Position, v: Vector, board: seq<Piece>, k: nat)
    requires IsUnitVector(v) && k >= 1 && FreeUpTo(position, v, board, 1, k)
    ensures IsStraight(position, Target(position, v, k))
    ensures ClearBetween(position, Target(position, v, k), board)
  {
    var to := Target(position, v, k);
    UnitRayIsStraight(position, v, k);
    forall j: nat | 1 <= j < Distance(position, to)
      ensures !Occupied(board, StepToward(position, to, j).file, StepToward(position, to, j).rank)
    {
      assert StepToward(position, to, j) == Target(position, v, j);
    }
  }

  /** One knight vector from a square is a knight jump. */
  lemma KnightTarget(position: Position, v: Vector)
    requires IsKnightVector(v)
    ensures IsKnightJump(position, Target(position, v, 1))
  {
    ScaleOne(v.dFile);
    ScaleOne(v.dRank);
  }

  /** k unit steps along `v` travel distance k, and each step toward the end is a step along `v`. */
  lemma UnitRayIsStraight(position: Position, v: Vector, k: nat)
    requires IsUnitVector(v) && k >= 1
    ensures IsStraight(position, Target(position, v, k))
    ensures Distance(position, Target(position, v, k)) == k
    ensures forall j: nat :: StepToward(position, Target(position, v, k), j) == Target(position, v, j)
  {
    ScaleUnit(v.dFile, k);
    ScaleUnit(v.dRank, k);
    var to := Target(position, v, k);
    assert Sign(to.file - position.file) == v.dFile;
    assert Sign(to.rank - position.rank) == v.dRank;
  }

  // ---- Worked positions ----

  /** The moves of a piece with a single vector are the ray along it. */
  lemma SingleVector(piece: Piece, position: Position, board: seq<Piece>, v: Vector)
    requires v != Vector(0, 0) && PieceVectors(piece) == [v]
    ensures ValidMoves(piece, position, board) == Ray(position, v, MovePatterns(piece.kind).range, board, 1)
  {
    var f := RayFrom(position, MovePatterns(piece.kind).range, board);
    ConcatMapCons(v, [], f);
    assert [v] + [] == [v];
  }

  /** A one-step ray to a free square on the board is that square. */
  lemma OneStep(position: Position, v: Vector, board: seq<Piece>, to: Position)
    requires v != Vector(0, 0) && to == Position(position.file + v.dFile, position.rank + v.dRank)
    ensures IsValidPosition(to) && !Occupied(board, to.file, to.rank) ==> Ray(position, v, One, board, 1) == [to]
    ensures !IsValidPosition(to) ==> Ray(position, v, One, board, 1) == []
  {
    ScaleOne(v.dFile);
    ScaleOne(v.dRank);
    assert Target(position, v, 1) == to;
    if IsValidPosition(to) && !Occupied(board, to.file, to.rank) {
      RayUnfold(position, v, One, board, 1);
    } else {
      RayStops(position, v, One, board, 1);
    }
  }

  /** A sente pawn steps one rank forward; a gote pawn one rank toward rank 1. */
  lemma PawnsStepForward()
    ensures ValidMoves(Piece(Pawn, Sente, 5, 7, false), Position(5, 7), []) == [Position(5, 8)]
    ensures ValidMoves(Piece(Pawn, Gote, 5, 3, false), Position(5, 3), []) == [Position(5, 2)]
  {
    SingleVector(Piece(Pawn, Sente, 5, 7, false), Position(5, 7), [], Vector(0, 1));
    OneStep(Position(5, 7), Vector(0, 1), [], Position(5, 8));
    SingleVector(Piece(Pawn, Gote, 5, 3, false), Position(5, 3), [], Vector(0, -1));
    OneStep(Position(5, 3), Vector(0, -1), [], Position(5, 2));
  }

  /** A pawn on the far rank has nowhere to go. */
  lemma PawnOnLastRankIsStuck()
    ensures ValidMoves(Piece(Pawn, Sente, 5, 9, false), Position(5, 9), []) == []
    ensures ValidMoves(Piece(Pawn, Gote, 5, 1, false), Position(5, 1), []) == []
  {
    SingleVector(Piece(Pawn, Sente, 5, 9, false), Position(5, 9), [], Vector(0, 1));
    OneStep(Position(5, 9), Vector(0, 1), [], Position(5, 10));
    SingleVector(Piece(Pawn, Gote, 5, 1, false), Position(5, 1), [], Vector(0, -1));
    OneStep(Position(5, 1), Vector(0, -1), [], Position(5, 0));
  }

  /** On an empty board the forward ray from rank 1 of a file covers ranks step + 1 to 9. */
  lemma {:induction false} FileRay(file: int, step: nat)
    requires 1 <= file <= 9 && 1 <= step <= 9
    ensures var r := Ray(Position(file, 1), Vector(0, 1), Unbounded, [], step);
      |r| == 9 - step && forall j :: 0 <= j < |r| ==> r[j] == Position(file, step + 1 + j)
    decreases 9 - step
  {
    var p, v := Position(file, 1), Vector(0, 1);
    ScaleUnit(0, step);
    ScaleUnit(1, step);
    ScaleOne(1);
    ScaleOne(0);
    if step < 9 {
      RayUnfold(p, v, Unbounded, [], step);
      FileRay(file, step + 1);
    } else {
      RayStops(p, v, Unbounded, [], step);
    }
  }

  /** On an empty board a lance in the corner runs the whole file: eight squares. */
  lemma LanceRunsTheFile()
    ensures var r := ValidMoves(Piece(Lance, Sente, 1, 1, false), Position(1, 1), []);
      |r| == 8 && forall j :: 0 <= j < 8 ==> r[j] == Position(1, j + 2)
  {
    SingleVector(Piece(Lance, Sente, 1, 1, false), Position(1, 1), [], Vector(0, 1));
    FileRay(1, 1);
  }

  /** On an empty board each unit ray from the centre (5, 5) holds four squares. */
  lemma {:induction false} CentreRayLength(v: Vector, step: nat)
    requires IsUnitVector(v) && 1 <= step <= 5
    ensures |Ray(Position(5, 5), v, Unbounded, [], step)| == 5 - step
    decreases 5 - step
  {
    var c := Position(5, 5);
    ScaleUnit(v.dFile, step);
    ScaleUnit(v.dRank, step);
    if step < 5 {
      assert IsValidPosition(Target(c, v, step)) && IsValidPosition(Target(c, v, 1));
      RayUnfold(c, v, Unbounded, [], step);
      CentreRayLength(v, step + 1);
    } else {
      assert !IsValidPosition(Target(c, v, 5));
    }
  }

  /** On an empty board a rook and a bishop in the centre each reach sixteen squares. */
  lemma CentreRook()
    ensures |ValidMoves(Piece(Rook, Sente, 5, 5, false), Position(5, 5), [])| == 16
  {
    var c := Position(5, 5);
    assert PieceVectors(Piece(Rook, Sente, 5, 5, false)) == [Vector(0, 1), Vector(0, -1), Vector(1, 0), Vector(-1, 0)];
    Offers4(Vector(0, 1), Vector(0, -1), Vector(1, 0), Vector(-1, 0), RayFrom(c, Unbounded, []));
    CentreRayLength(Vector(0, 1), 1);
    CentreRayLength(Vector(0, -1), 1);
    CentreRayLength(Vector(1, 0), 1);
    CentreRayLength(Vector(-1, 0), 1);
  }

  lemma CentreBishop()
    ensures |ValidMoves(Piece(Bishop, Sente, 5, 5, false), Position(5, 5), [])| == 16
  {
    var c := Position(5, 5);
    assert PieceVectors(Piece(Bishop, Sente, 5, 5, false)) == [Vector(1, 1), Vector(1, -1), Vector(-1, 1), Vector(-1, -1)];
    Offers4(Vector(1, 1), Vector(1, -1), Vector(-1, 1), Vector(-1, -1), RayFrom(c, Unbounded, []));
    CentreRayLength(Vector(1, 1), 1);
    CentreRayLength(Vector(1, -1), 1);
    CentreRayLength(Vector(-1, 1), 1);
    CentreRayLength(Vector(-1, -1), 1);
  }

  /** A piece two squares ahead stops the rook's forward ray after one square; its own square is not offered. */
  lemma BlockerStopsRay()
    ensures Ray(Position(5, 5), Vector(0, 1), Unbounded, [Piece(Pawn, Gote, 5, 7, false)], 1) == [Position(5, 6)]
    ensures !IsValidMove(Position(5, 5), Position(5, 7), Piece(Rook, Sente, 5, 5, false), [Piece(Pawn, Gote, 5, 7, false)])
    ensures !IsValidMove(Position(5, 5), Position(5, 8), Piece(Rook, Sente, 5, 5, false), [Piece(Pawn, Gote, 5, 7, false)])
  {
    var board := [Piece(Pawn, Gote, 5, 7, false)];
    assert !Occupied(board, 5, 6) && Occupied(board, 5, 7);
    var rook := Piece(Rook, Sente, 5, 5, false);
    var vs := PieceVectors(rook);
    assert vs == [Vector(0, 1), Vector(0, -1), Vector(1, 0), Vector(-1, 0)];
    forall to | to == Position(5, 7) || to == Position(5, 8) ensures !Reachable(rook, Position(5, 5), board, to) {
      forall i: int, k: nat | 0 <= i < |vs| && 1 <= k && to == Target(Position(5, 5), vs[i], k)
        ensures !FreeUpTo(Position(5, 5), vs[i], board, 1, k)
      {
        ScaleUnit(vs[i].dFile, k);
        ScaleUnit(vs[i].dRank, k);
        assert vs[i] == Vector(0, 1) && k >= 2;
        assert Target(Position(5, 5), vs[i], 2) == Position(5, 7);
      }
    }
  }

  /** A knight jumps over pieces: from (2, 1) it reaches (1, 3) and (3, 3) with (2, 2) occupied. */
  lemma KnightJumps()
    ensures ValidMoves(Piece(Knight, Sente, 2, 1, false), Position(2, 1), [Piece(Bishop, Sente, 2, 2, false)]) ==
      [Position(1, 3), Position(3, 3)]
  {
    var board := [Piece(Bishop, Sente, 2, 2, false)];
    var p := Position(2, 1);
    assert !Occupied(board, 1, 3) && !Occupied(board, 3, 3);
    assert PieceVectors(Piece(Knight, Sente, 2, 1, false)) == [Vector(-1, 2), Vector(1, 2)];
    ConcatMapCons(Vector(-1, 2), [Vector(1, 2)], RayFrom(p, One, board));
    ConcatMapCons(Vector(1, 2), [], RayFrom(p, One, board));
  }

  /** The moves along four vectors are their four rays in order. */
  lemma Offers4(a: Vector, b: Vector, d: Vector, e: Vector, f: Vector -> seq<Position>)
    ensures ConcatMap([a, b, d, e], f) == f(a) + f(b) + f(d) + f(e)
  {
    ConcatMapCons(a, [b, d, e], f);
    ConcatMapCons(b, [d, e], f);
    ConcatMapCons(d, [e], f);
    ConcatMapCons(e, [], f);
    assert [a] + [b, d, e] == [a, b, d, e];
    assert [b] + [d, e] == [b, d, e];
    assert [d] + [e] == [d, e];
    assert [e] + [] == [e];
  }
}
