/** Option type standing for the source's `null` / `undefined` results. */
module Wrappers {
  datatype Option<+T> = None | Some(value: T)
}

/**
 * The order-preserving sequence combinators the logic uses on piece lists:
 * `some`, `find` and `filter` of JavaScript arrays.
 */
module SeqOps {
  import opened Wrappers

  /** `s.some(p)`: true iff some element satisfies `p`. */
  function Any<T>(s: seq<T>, p: T -> bool): (r: bool)
    ensures r <==> exists i :: 0 <= i < |s| && p(s[i])
  {
    if s == [] then false
    else if p(s[0]) then true
    else
      var r := Any(s[1..], p);
      assert forall i :: 0 < i < |s| ==> s[i] == s[1..][i - 1];
      r
  }

  /** `s.find(p)`: the first element satisfying `p`, if any. */
  function FindFirst<T>(s: seq<T>, p: T -> bool): (r: Option<T>)
    ensures r.Some? <==> Any(s, p)
    ensures r.Some? ==> exists i :: 0 <= i < |s| && s[i] == r.value && p(s[i]) && forall j :: 0 <= j < i ==> !p(s[j])
  {
    if s == [] then None
    else if p(s[0]) then Some(s[0])
    else
      var r := FindFirst(s[1..], p);
      assert forall i :: 0 < i < |s| ==> s[i] == s[1..][i - 1];
      assert r.Some? ==> exists i :: 0 < i < |s| && s[i] == r.value && p(s[i]) && forall j :: 0 <= j < i ==> !p(s[j]) by {
        if r.Some? {
          var k :| 0 <= k < |s[1..]| && s[1..][k] == r.value && p(s[1..][k]) && forall j :: 0 <= j < k ==> !p(s[1..][j]);
          assert s[k + 1] == r.value && forall j :: 0 <= j < k + 1 ==> !p(s[j]);
        }
      }
      r
  }

  /** `s.filter(p)`: the elements satisfying `p`, in their original order. */
  function Filter<T(!new)>(s: seq<T>, p: T -> bool): (r: seq<T>)
    ensures |r| <= |s|
    ensures forall i :: 0 <= i < |r| ==> p(r[i])
  {
    if s == [] then []
    else if p(s[0]) then [s[0]] + Filter(s[1..], p) else Filter(s[1..], p)
  }

  /** A filter keeps every element satisfying `p` as often as it occurs, and no other. */
  lemma {:induction false} FilterCounts<T(!new)>(s: seq<T>, p: T -> bool, x: T)
    ensures multiset(Filter(s, p))[x] == if p(x) then multiset(s)[x] else 0
  {
    if s != [] {
      assert s == [s[0]] + s[1..];
      FilterCounts(s[1..], p, x);
    }
  }

  /** Filtering distributes over concatenation, which pins down the order it keeps. */
  lemma {:induction false} FilterAppend<T(!new)>(a: seq<T>, b: seq<T>, p: T -> bool)
    ensures Filter(a + b, p) == Filter(a, p) + Filter(b, p)
  {
    if a == [] {
      assert a + b == b;
    } else {
      assert (a + b)[1..] == a[1..] + b;
      FilterAppend(a[1..], b, p);
    }
  }

  /** A filter keeps exactly the elements of `s` that satisfy `p`. */
  lemma {:induction false} FilterMembers<T(!new)>(s: seq<T>, p: T -> bool, x: T)
    ensures x in Filter(s, p) <==> x in s && p(x)
  {
    var r := Filter(s, p);
    FilterCounts(s, p, x);
    assert x in r <==> multiset(r)[x] > 0;
    assert x in s <==> multiset(s)[x] > 0;
  }

  /** When every element satisfies `p`, the filter returns its input unchanged. */
  lemma {:induction false} FilterAll<T(!new)>(s: seq<T>, p: T -> bool)
    requires forall i :: 0 <= i < |s| ==> p(s[i])
    ensures Filter(s, p) == s
  {
    if s != [] {
      FilterAll(s[1..], p);
    }
  }

  /** When no element satisfies `p`, the filter is empty. */
  lemma {:induction false} FilterNone<T(!new)>(s: seq<T>, p: T -> bool)
    requires forall i :: 0 <= i < |s| ==> !p(s[i])
    ensures Filter(s, p) == []
  {
    if s != [] {
      FilterNone(s[1..], p);
    }
  }

  /** When exactly the element at `i` fails `p`, the filter deletes that one entry. */
  lemma {:induction false} FilterSkipsOne<T(!new)>(s: seq<T>, i: nat, p: T -> bool)
    requires i < |s| && !p(s[i])
    requires forall k :: 0 <= k < |s| && k != i ==> p(s[k])
    ensures Filter(s, p) == s[..i] + s[i + 1..]
  {
    var tail := s[1..];
    if i == 0 {
      assert forall k :: 0 <= k < |tail| ==> tail[k] == s[k + 1];
      FilterAll(tail, p);
    } else {
      assert forall k :: 0 <= k < |tail| ==> tail[k] == s[k + 1];
      FilterSkipsOne(tail, i - 1, p);
      assert s[..i] == [s[0]] + tail[..i - 1];
      assert s[i + 1..] == tail[i..];
    }
  }

  /** `s.flatMap(f)`: the results of `f` on each element, concatenated in order. */
  function ConcatMap<A, B>(s: seq<A>, f: A -> seq<B>): (r: seq<B>)
    ensures s == [] ==> r == []
  {
    if s == [] then [] else ConcatMap(s[..|s| - 1], f) + f(s[|s| - 1])
  }

  /** One more element appends its results at the end. */
  lemma ConcatMapSnoc<A, B>(s: seq<A>, f: A -> seq<B>, i: nat)
    requires i < |s|
    ensures ConcatMap(s[..i + 1], f) == ConcatMap(s[..i], f) + f(s[i])
  {
    assert s[..i + 1][..i] == s[..i];
  }

  /** The first element's results come first. */
  lemma {:induction false} ConcatMapCons<A, B>(x: A, s: seq<A>, f: A -> seq<B>)
    ensures ConcatMap([x] + s, f) == f(x) + ConcatMap(s, f)
    decreases |s|
  {
    var w := [x] + s;
    if s == [] {
      assert w[..0] == [];
    } else {
      var init := s[..|s| - 1];
      assert w[..|w| - 1] == [x] + init;
      ConcatMapCons(x, init, f);
    }
  }

  /** An element of the result comes from the results of one of the elements. */
  lemma {:induction false} ConcatMapMembers<A, B>(s: seq<A>, f: A -> seq<B>, y: B)
    ensures y in ConcatMap(s, f) <==> exists i :: 0 <= i < |s| && y in f(s[i])
  {
    if s != [] {
      var init := s[..|s| - 1];
      ConcatMapMembers(init, f, y);
      assert forall i :: 0 <= i < |init| ==> init[i] == s[i];
    }
  }

  /** When `f` gives nothing on every element, so does the whole map. */
  lemma {:induction false} ConcatMapEmpty<A, B>(s: seq<A>, f: A -> seq<B>)
    requires forall i :: 0 <= i < |s| ==> f(s[i]) == []
    ensures ConcatMap(s, f) == []
  {
    if s != [] {
      var init := s[..|s| - 1];
      assert forall i :: 0 <= i < |init| ==> init[i] == s[i];
      ConcatMapEmpty(init, f);
    }
  }

  /** When `f` yields at most one result per element, there are at most as many results as elements. */
  lemma {:induction false} ConcatMapShort<A, B>(s: seq<A>, f: A -> seq<B>)
    requires forall i :: 0 <= i < |s| ==> |f(s[i])| <= 1
    ensures |ConcatMap(s, f)| <= |s|
  {
    if s != [] {
      ConcatMapShort(s[..|s| - 1], f);
    }
  }
}

/**
 * The shared data shapes: pieces, players, squares, move vectors and
 * drop-validation verdicts.
 */
module Types {
  import opened Wrappers
  import opened SeqOps

  /** The two players: sente moves first and starts on ranks 1-3, gote on ranks 7-9. */
  datatype Player = Sente | Gote

  /**
   * The nine piece types. `King` is sente's king (王) and `Jewel` gote's (玉);
   * the others are rook 飛, bishop 角, gold 金, silver 銀, knight 桂, lance 香, pawn 歩.
   */
  datatype PieceType = King | Jewel | Rook | Bishop | Gold | Silver | Knight | Lance | Pawn

  /** The glyph the source uses as the piece-type string. */
  function Glyph(t: PieceType): (g: string)
    ensures |g| == 1
  {
    match t
    case King => "王"
    case Jewel => "玉"
    case Rook => "飛"
    case Bishop => "角"
    case Gold => "金"
    case Silver => "銀"
    case Knight => "桂"
    case Lance => "香"
    case Pawn => "歩"
  }

  /** Distinct types have distinct glyphs, so the glyph string identifies the type. */
  lemma GlyphsDistinct(a: PieceType, b: PieceType)
    ensures Glyph(a) == Glyph(b) <==> a == b
  {
  }

  /** A piece on the board. File and rank are plain integers; a square exists only for 1..9. */
  datatype Piece = Piece(kind: PieceType, player: Player, file: int, rank: int, promoted: bool)

  /** A board square, (file, rank). */
  datatype Position = Position(file: int, rank: int)

  /** A move direction in file and rank deltas, in sente's orientation in the pattern table. */
  datatype Vector = Vector(dFile: int, dRank: int)

  /** How far a pattern may slide: a single step, or until the edge or a blocker. */
  datatype Range = One | Unbounded

  datatype MovePattern = MovePattern(vectors: seq<Vector>, range: Range)

  datatype ValidationErrorCode = DoublePawn | OutOfBoard | SquareOccupied

  /** A verdict with an optional reason code and message, both absent when valid. */
  datatype ValidationResult = ValidationResult(isValid: bool, errorCode: Option<ValidationErrorCode>, errorMessage: Option<string>)

  predicate IsAt(p: Piece, file: int, rank: int) {
    p.file == file && p.rank == rank
  }

  /** Whether any piece, of either player, stands on (file, rank). */
  function Occupied(pieces: seq<Piece>, file: int, rank: int): (r: bool)
    ensures r <==> exists i :: 0 <= i < |pieces| && IsAt(pieces[i], file, rank)
  {
    Any(pieces, (p: Piece) => IsAt(p, file, rank))
  }

  /** The first piece found on (file, rank), as `pieces.find` returns it. */
  function PieceAt(pieces: seq<Piece>, file: int, rank: int): (r: Option<Piece>)
    ensures r.Some? <==> Occupied(pieces, file, rank)
    ensures r.Some? ==> r.value in pieces && IsAt(r.value, file, rank)
  {
    FindFirst(pieces, (p: Piece) => IsAt(p, file, rank))
  }

  /** No two pieces share a square. */
  ghost predicate NoOverlap(pieces: seq<Piece>) {
    forall i, j :: 0 <= i < j < |pieces| ==> !IsAt(pieces[j], pieces[i].file, pieces[i].rank)
  }
}
