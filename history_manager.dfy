/** Move history: a cursor over board snapshots, with append-and-truncate and clamped stepping. */
module HistoryManager {
  import opened Wrappers
  import opened Types
  import opened Inventory

  /** One snapshot: board, hands, side to move and move number (0 is the initial position). */
  datatype HistoryEntry = HistoryEntry(pieces: seq<Piece>, capturedPieces: CapturedPieces, currentTurn: Player, moveNumber: int)

  datatype GameHistory = GameHistory(entries: seq<HistoryEntry>, currentIndex: int)

  /** What the navigation buttons show. */
  datatype NavigationState = NavigationState(canGoBack: bool, canGoForward: bool, currentMoveNumber: int, totalMoves: int)

  /** A history whose cursor points at one of its entries. */
  predicate Valid(h: GameHistory) {
    0 <= h.currentIndex < |h.entries|
  }

  /**
   * The end that `Array.prototype.slice(0, end)` uses on a sequence of length
   * `len`: a negative end counts back from the length, and the result is
   * clamped to 0..len.
   */
  function SliceEnd(len: nat, end: int): (n: nat)
    ensures n <= len
    ensures 0 <= end <= len ==> n == end
    ensures end > len ==> n == len
    ensures end < 0 ==> n == if len + end < 0 then 0 else len + end
  {
    if end < 0 then (if len + end < 0 then 0 else len + end)
    else if end > len then len
    else end
  }

  /**
   * `addMove`: keep the entries up to and including the cursor, append the
   * new entry, and put the cursor on it.
   */
  function AddMove(h: GameHistory, newEntry: HistoryEntry): (r: GameHistory)
    ensures |r.entries| >= 1 && r.entries[|r.entries| - 1] == newEntry
    ensures r.currentIndex == |r.entries| - 1
    ensures r.entries[..|r.entries| - 1] == h.entries[..SliceEnd(|h.entries|, h.currentIndex + 1)]
    ensures Valid(h) ==> r.entries == h.entries[..h.currentIndex + 1] + [newEntry] && r.currentIndex == h.currentIndex + 1
  {
    var newEntries := h.entries[..SliceEnd(|h.entries|, h.currentIndex + 1)] + [newEntry];
    GameHistory(newEntries, |newEntries| - 1)
  }

  /** `goToPrevious`: one step back, never before the first entry; the entries are untouched. */
  function GoToPrevious(h: GameHistory): (r: GameHistory)
    ensures r.entries == h.entries
    ensures h.currentIndex >= 1 ==> r.currentIndex == h.currentIndex - 1
    ensures h.currentIndex < 1 ==> r.currentIndex == 0
  {
    var newIndex := if 0 > h.currentIndex - 1 then 0 else h.currentIndex - 1;
    h.(currentIndex := newIndex)
  }

  /** `goToNext`: one step forward, never past the last entry; the entries are untouched. */
  function GoToNext(h: GameHistory): (r: GameHistory)
    ensures r.entries == h.entries
    ensures h.currentIndex + 1 <= |h.entries| - 1 ==> r.currentIndex == h.currentIndex + 1
    ensures h.currentIndex + 1 > |h.entries| - 1 ==> r.currentIndex == |h.entries| - 1
  {
    var maxIndex := |h.entries| - 1;
    var newIndex := if maxIndex < h.currentIndex + 1 then maxIndex else h.currentIndex + 1;
    h.(currentIndex := newIndex)
  }

  /** `goToFirst`: the cursor on the initial position. */
  function GoToFirst(h: GameHistory): (r: GameHistory)
    ensures r.entries == h.entries && r.currentIndex == 0
  {
    h.(currentIndex := 0)
  }

  /** `goToLast`: the cursor on the latest entry (on -1 when there is none). */
  function GoToLast(h: GameHistory): (r: GameHistory)
    ensures r.entries == h.entries && r.currentIndex == |h.entries| - 1
  {
    h.(currentIndex := |h.entries| - 1)
  }

  /** `getCurrentEntry`: the entry under the cursor; `undefined` (None) when the cursor is off the list. */
  function GetCurrentEntry(h: GameHistory): (r: Option<HistoryEntry>)
    ensures r.Some? <==> 0 <= h.currentIndex < |h.entries|
    ensures r.Some? ==> r.value == h.entries[h.currentIndex]
  {
    if 0 <= h.currentIndex < |h.entries| then Some(h.entries[h.currentIndex]) else None
  }

  /** `getNavigationState`: back and forward are offered when a step would move the cursor. */
  function GetNavigationState(h: GameHistory): (s: NavigationState)
    ensures s.canGoBack <==> h.currentIndex > 0
    ensures s.canGoForward <==> h.currentIndex < |h.entries| - 1
    ensures s.currentMoveNumber == h.currentIndex && s.totalMoves == |h.entries| - 1
  {
    NavigationState(h.currentIndex > 0, h.currentIndex < |h.entries| - 1, h.currentIndex, |h.entries| - 1)
  }

  /** Every operation keeps a non-empty history's cursor on one of its entries. */
  lemma OperationsKeepValid(h: GameHistory, e: HistoryEntry)
    requires Valid(h)
    ensures Valid(AddMove(h, e)) && Valid(GoToPrevious(h)) && Valid(GoToNext(h))
    ensures Valid(GoToFirst(h)) && Valid(GoToLast(h))
  {
  }

  /** `addMove` always leaves a valid history, even from a cursor off the list. */
  lemma AddMoveValid(h: GameHistory, e: HistoryEntry)
    ensures Valid(AddMove(h, e))
    ensures GetCurrentEntry(AddMove(h, e)) == Some(e)
  {
  }

  /** Appending from the middle drops the redo tail: what followed the cursor is gone. */
  lemma AddMoveDropsRedo(h: GameHistory, e: HistoryEntry)
    requires Valid(h)
    ensures |AddMove(h, e).entries| == h.currentIndex + 2
    ensures !GetNavigationState(AddMove(h, e)).canGoForward
  {
  }

  /** After appending, one step back shows again the entry that was current before. */
  lemma AddThenBackRestores(h: GameHistory, e: HistoryEntry)
    requires Valid(h)
    ensures GetCurrentEntry(GoToPrevious(AddMove(h, e))) == GetCurrentEntry(h)
  {
  }

  /** A step back is undone by a step forward, and the reverse; the buttons say exactly when a step moves the cursor. */
  lemma StepsAreInverse(h: GameHistory)
    requires Valid(h)
    ensures GetNavigationState(h).canGoBack ==> GoToNext(GoToPrevious(h)) == h
    ensures GetNavigationState(h).canGoForward ==> GoToPrevious(GoToNext(h)) == h
    ensures GetNavigationState(h).canGoBack <==> GoToPrevious(h) != h
    ensures GetNavigationState(h).canGoForward <==> GoToNext(h) != h
  {
  }

  /** The ends of the list disable the button of their own direction. */
  lemma EndsDisableButtons(h: GameHistory)
    requires |h.entries| > 0
    ensures !GetNavigationState(GoToFirst(h)).canGoBack
    ensures !GetNavigationState(GoToLast(h)).canGoForward
    ensures GetCurrentEntry(GoToLast(h)) == Some(h.entries[|h.entries| - 1])
  {
  }

  /** A cursor equal to the number of entries, which a saved state may hold, shows no entry. */
  lemma CursorAtLengthShowsNothing(entries: seq<HistoryEntry>)
    ensures GetCurrentEntry(GameHistory(entries, |entries|)) == None
    ensures !Valid(GameHistory(entries, |entries|))
  {
  }

  /** Without the validity requirement the slice semantics shows: with the cursor far below zero, `addMove` keeps a tail-relative prefix. */
  lemma NegativeCursorKeepsFromTheBack(e0: HistoryEntry, e1: HistoryEntry, e2: HistoryEntry, e: HistoryEntry)
    ensures AddMove(GameHistory([e0, e1, e2], -2), e).entries == [e0, e1, e]
    ensures AddMove(GameHistory([e0, e1, e2], -9), e).entries == [e]
  {
    assert [e0, e1, e2][..2] == [e0, e1];
  }
}
