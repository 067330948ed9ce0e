/**
 * The bounded linear undo history. Snapshots are immutable values, so the
 * source's deep clone on every push and every read is the identity here.
 */
module UndoManager {
  import opened Wrappers

  const MAX_HISTORY_LENGTH: nat := 50

  datatype History<T> = History(entries: seq<T>, currentIndex: int)

  /** A fresh manager: no entries, index -1. */
  function Empty<T>(): History<T> {
    History([], -1)
  }

  /** The states a manager can reach: empty with index -1, or a valid index into at most 50 entries. */
  ghost predicate Valid<T>(h: History<T>) {
    || (|h.entries| == 0 && h.currentIndex == -1)
    || (0 <= h.currentIndex < |h.entries| <= MAX_HISTORY_LENGTH)
  }

  /** Some snapshot lies before the current one. */
  function CanUndo<T>(h: History<T>): (b: bool)
    ensures Valid(h) ==> (b <==> |h.entries| > 0 && |h.entries[..h.currentIndex]| > 0)
  {
    h.currentIndex > 0
  }

  /** Some snapshot lies after the current one. */
  function CanRedo<T>(h: History<T>): (b: bool)
    ensures Valid(h) ==> (b <==> |h.entries[h.currentIndex + 1..]| > 0)
  {
    h.currentIndex < |h.entries| - 1
  }

  /**
   * Drops every entry after the current one, appends `s`, and when that
   * makes 51 entries evicts the oldest instead of advancing the index.
   */
  function PushState<T>(h: History<T>, s: T): (r: History<T>)
    requires Valid(h)
    ensures Valid(r)
    ensures |r.entries| > 0 && r.currentIndex == |r.entries| - 1 && r.entries[r.currentIndex] == s
    ensures !CanRedo(r)
    ensures h.currentIndex < MAX_HISTORY_LENGTH - 1 ==>
              r.entries == h.entries[..h.currentIndex + 1] + [s] && r.currentIndex == h.currentIndex + 1
    ensures h.currentIndex == MAX_HISTORY_LENGTH - 1 ==>
              r.entries == h.entries[1..] + [s] && r.currentIndex == h.currentIndex
  {
    var kept := h.entries[..h.currentIndex + 1] + [s];
    if |kept| > MAX_HISTORY_LENGTH then History(kept[1..], h.currentIndex)
    else History(kept, h.currentIndex + 1)
  }

  /** Steps back one entry and returns it, or reports `None` and changes nothing. */
  function Undo<T>(h: History<T>): (r: (History<T>, Option<T>))
    requires Valid(h)
    ensures Valid(r.0) && r.0.entries == h.entries
    ensures r.1.Some? <==> CanUndo(h)
    ensures r.1.None? ==> r.0 == h
    ensures r.1.Some? ==> r.0.currentIndex == h.currentIndex - 1 && r.1.value == h.entries[h.currentIndex - 1]
  {
    if !CanUndo(h) then (h, None)
    else (h.(currentIndex := h.currentIndex - 1), Some(h.entries[h.currentIndex - 1]))
  }

  /** Steps forward one entry and returns it, or reports `None` and changes nothing. */
  function Redo<T>(h: History<T>): (r: (History<T>, Option<T>))
    requires Valid(h)
    ensures Valid(r.0) && r.0.entries == h.entries
    ensures r.1.Some? <==> CanRedo(h)
    ensures r.1.None? ==> r.0 == h
    ensures r.1.Some? ==> r.0.currentIndex == h.currentIndex + 1 && r.1.value == h.entries[h.currentIndex + 1]
  {
    if !CanRedo(h) then (h, None)
    else (h.(currentIndex := h.currentIndex + 1), Some(h.entries[h.currentIndex + 1]))
  }

  function Clear<T>(h: History<T>): (r: History<T>)
    ensures Valid(r) && |r.entries| == 0
    ensures GetCurrentState(r).None?
  {
    Empty()
  }

  function GetCurrentState<T>(h: History<T>): (r: Option<T>)
    ensures r.Some? <==> 0 <= h.currentIndex < |h.entries|
    ensures r.Some? ==> r.value == h.entries[h.currentIndex]
  {
    if 0 <= h.currentIndex < |h.entries| then Some(h.entries[h.currentIndex]) else None
  }

  /** The number of snapshots before the current one; an empty history reports -1. */
  function GetUndoCount<T>(h: History<T>): (n: int)
    ensures Valid(h) && |h.entries| > 0 ==> n == |h.entries[..h.currentIndex]|
    ensures Valid(h) && |h.entries| == 0 ==> n == -1
  {
    h.currentIndex
  }

  /** The number of snapshots after the current one. */
  function GetRedoCount<T>(h: History<T>): (n: int)
    ensures Valid(h) ==> n == |h.entries[h.currentIndex + 1..]|
  {
    var n := |h.entries| - h.currentIndex - 1;
    assert Valid(h) ==> 0 <= h.currentIndex + 1 <= |h.entries|;
    n
  }

  /** The queries agree with the moves: `CanUndo` iff `Undo` succeeds, `CanRedo` iff `Redo` does. */
  lemma QueriesMatchMoves<T>(h: History<T>)
    requires Valid(h)
    ensures CanUndo(h) <==> Undo(h).1.Some?
    ensures CanRedo(h) <==> Redo(h).1.Some?
    ensures CanUndo(h) <==> GetUndoCount(h) > 0
    ensures CanRedo(h) <==> GetRedoCount(h) > 0
  {
  }

  /** The undo and redo counts account for every entry but the current one, even when empty. */
  lemma CountsPartitionHistory<T>(h: History<T>)
    requires Valid(h)
    ensures GetUndoCount(h) + GetRedoCount(h) + 1 == |h.entries|
    ensures GetRedoCount(h) >= 0 && GetUndoCount(h) >= -1
    ensures |h.entries| > 0 ==> GetUndoCount(h) >= 0
  {
    if |h.entries| > 0 {
      assert h.entries == h.entries[..h.currentIndex] + [h.entries[h.currentIndex]] + h.entries[h.currentIndex + 1..];
    }
  }

  /** A successful undo is reversed by redo: same index, same snapshot as before the undo. */
  lemma UndoThenRedo<T>(h: History<T>)
    requires Valid(h) && CanUndo(h)
    ensures Redo(Undo(h).0).0 == h
    ensures Redo(Undo(h).0).1 == GetCurrentState(h)
  {
  }

  /** A successful redo is reversed by undo. */
  lemma RedoThenUndo<T>(h: History<T>)
    requires Valid(h) && CanRedo(h) && h.currentIndex >= 0
    ensures Undo(Redo(h).0).0 == h
    ensures Undo(Redo(h).0).1 == GetCurrentState(h)
  {
  }

  /** After undoing and then pushing, the discarded branch cannot be redone. */
  lemma PushAfterUndoDropsRedo<T>(h: History<T>, s: T)
    requires Valid(h) && CanUndo(h)
    ensures var u := Undo(h).0;
            && |PushState(u, s).entries| == h.currentIndex + 1
            && PushState(u, s).entries[..h.currentIndex] == h.entries[..h.currentIndex]
            && Redo(PushState(u, s)).1.None?
  {
  }

  /** Pushes every snapshot of `ss` in order. */
  function PushAll<T>(h: History<T>, ss: seq<T>): (r: History<T>)
    requires Valid(h)
    ensures Valid(r)
    ensures |ss| > 0 ==> |r.entries| > 0 && r.currentIndex == |r.entries| - 1 && r.entries[r.currentIndex] == ss[|ss| - 1]
    decreases |ss|
  {
    if |ss| == 0 then h else PushAll(PushState(h, ss[0]), ss[1..])
  }

  /** Undoes `n` times, ignoring the returned snapshots. */
  function UndoTimes<T>(h: History<T>, n: nat): (r: History<T>)
    requires Valid(h)
    ensures Valid(r) && r.entries == h.entries
    ensures r.currentIndex == if h.currentIndex - n >= 0 then h.currentIndex - n else (if h.currentIndex < 0 then h.currentIndex else 0)
    decreases n
  {
    if n == 0 then h else UndoTimes(Undo(h).0, n - 1)
  }

  /**
   * Pushes that stay within capacity keep the earlier entries in place: the
   * entry at the starting index is still there, at the same position.
   */
  lemma {:induction false} PushAllKeepsPrefix<T>(h: History<T>, ss: seq<T>)
    requires Valid(h) && h.currentIndex >= 0
    requires h.currentIndex + |ss| < MAX_HISTORY_LENGTH
    ensures PushAll(h, ss).currentIndex == h.currentIndex + |ss|
    ensures PushAll(h, ss).entries[..h.currentIndex + 1] == h.entries[..h.currentIndex + 1]
    decreases |ss|
  {
    if |ss| > 0 {
      var h1 := PushState(h, ss[0]);
      PushAllKeepsPrefix(h1, ss[1..]);
      assert h1.entries[..h.currentIndex + 1] == h.entries[..h.currentIndex + 1];
      assert PushAll(h, ss) == PushAll(h1, ss[1..]);
      assert PushAll(h1, ss[1..]).entries[..h1.currentIndex + 1][..h.currentIndex + 1]
          == PushAll(h1, ss[1..]).entries[..h.currentIndex + 1];
    }
  }

  /**
   * Undo is the inverse of a run of edits: after `k` pushes within capacity,
   * `k` undos return to the snapshot that was current before them.
   */
  lemma UndoInversePushes<T>(h: History<T>, ss: seq<T>)
    requires Valid(h) && h.currentIndex >= 0
    requires h.currentIndex + |ss| < MAX_HISTORY_LENGTH
    ensures GetCurrentState(UndoTimes(PushAll(h, ss), |ss|)) == GetCurrentState(h)
  {
    PushAllKeepsPrefix(h, ss);
    var p := PushAll(h, ss);
    assert p.entries[h.currentIndex] == p.entries[..h.currentIndex + 1][h.currentIndex];
  }
}
