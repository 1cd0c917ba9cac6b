/** The whiteboard's linear undo/redo history, as values: a list of raster
    snapshots and a cursor. The `Whiteboard` class keeps these two fields and
    its methods are specified by the functions here. */
module WhiteboardHistory {

  /** The pixels `getImageData` returns for the whole canvas: its size and its
      RGBA bytes. The model never looks inside; the bytes come from the canvas. */
  datatype Snapshot = ImageData(width: nat, height: nat, data: seq<bv8>)

  /** The list of snapshots and the index of the current one. Before the canvas
      context exists the list is empty and the index is -1. */
  datatype HistoryState = HistoryState(entries: seq<Snapshot>, index: int)

  const Empty := HistoryState([], -1)

  /** Once initialised, the cursor points into the list. */
  predicate Valid(h: HistoryState) {
    0 <= h.index < |h.entries|
  }

  /** A history the component can hold once its context exists: a valid one,
      or the empty one left behind when the first capture threw. */
  predicate ValidOrEmpty(h: HistoryState) {
    Valid(h) || h == Empty
  }

  /** The history a fresh canvas context starts with: its blank snapshot. */
  function Initial(blank: Snapshot): (h: HistoryState)
    ensures Valid(h) && h.entries == [blank] && h.index == 0
  {
    HistoryState([blank], 0)
  }

  /** Saving a snapshot: the redo branch (everything after the cursor) is cut
      off when there is one, the snapshot is appended and the cursor moves on.
      On the empty history the snapshot becomes the only entry. */
  function Pushed(h: HistoryState, s: Snapshot): (r: HistoryState)
    requires ValidOrEmpty(h)
    ensures Valid(r)
    ensures r.entries == h.entries[..h.index + 1] + [s]
    ensures r.index == h.index + 1 == |r.entries| - 1
  {
    var kept := if h.index < |h.entries| - 1 then h.entries[..h.index + 1] else h.entries;
    HistoryState(kept + [s], h.index + 1)
  }

  /** When the first capture threw, the next save seeds the history as a
      successful first capture would have. */
  lemma PushedOnEmpty(s: Snapshot)
    ensures Pushed(Empty, s) == Initial(s)
  {
  }

  predicate CanUndo(h: HistoryState) {
    h.index > 0
  }

  predicate CanRedo(h: HistoryState) {
    h.index < |h.entries| - 1
  }

  /** Undo moves the cursor one step back, and does nothing at the first entry. */
  function Undone(h: HistoryState): (r: HistoryState)
    ensures r.entries == h.entries
    ensures r.index == if CanUndo(h) then h.index - 1 else h.index
    ensures Valid(h) ==> Valid(r)
  {
    if h.index <= 0 then h else HistoryState(h.entries, h.index - 1)
  }

  /** Redo moves the cursor one step forward, and does nothing at the last entry. */
  function Redone(h: HistoryState): (r: HistoryState)
    ensures r.entries == h.entries
    ensures r.index == if CanRedo(h) then h.index + 1 else h.index
    ensures Valid(h) ==> Valid(r)
  {
    if h.index >= |h.entries| - 1 then h else HistoryState(h.entries, h.index + 1)
  }

  /** The snapshot the cursor points at: what undo and redo paint back. */
  function Current(h: HistoryState): Snapshot
    requires Valid(h)
  {
    h.entries[h.index]
  }

  /** Redo after an undo that moved the cursor restores the history. */
  lemma UndoThenRedo(h: HistoryState)
    requires Valid(h) && CanUndo(h)
    ensures Redone(Undone(h)) == h
  {
  }

  /** Undo after a redo that moved the cursor restores the history. */
  lemma RedoThenUndo(h: HistoryState)
    requires Valid(h) && CanRedo(h)
    ensures Undone(Redone(h)) == h
  {
  }

  /** A save always leaves the cursor at the end: the discarded future cannot
      be redone, and the previous entry can be undone to. */
  lemma PushedPrunesRedo(h: HistoryState, s: Snapshot)
    requires Valid(h)
    ensures !CanRedo(Pushed(h, s)) && Redone(Pushed(h, s)) == Pushed(h, s)
    ensures CanUndo(Pushed(h, s)) && Current(Undone(Pushed(h, s))) == Current(h)
  {
  }

  /** Undo applied `n` times. */
  function UndoTimes(h: HistoryState, n: nat): HistoryState
    decreases n
  {
    if n == 0 then h else UndoTimes(Undone(h), n - 1)
  }

  /** Redo applied `n` times. */
  function RedoTimes(h: HistoryState, n: nat): HistoryState
    decreases n
  {
    if n == 0 then h else RedoTimes(Redone(h), n - 1)
  }

  /** Undoing `n` times moves the cursor `n` steps back, stopping at the first
      entry, and never changes the list. */
  lemma {:induction false} UndoTimesIndex(h: HistoryState, n: nat)
    requires Valid(h)
    ensures Valid(UndoTimes(h, n)) && UndoTimes(h, n).entries == h.entries
    ensures UndoTimes(h, n).index == if n <= h.index then h.index - n else 0
    decreases n
  {
    if n > 0 {
      UndoTimesIndex(Undone(h), n - 1);
    }
  }

  /** Redoing `n` times moves the cursor `n` steps forward, stopping at the
      last entry, and never changes the list. */
  lemma {:induction false} RedoTimesIndex(h: HistoryState, n: nat)
    requires Valid(h)
    ensures Valid(RedoTimes(h, n)) && RedoTimes(h, n).entries == h.entries
    ensures RedoTimes(h, n).index == if h.index + n < |h.entries| then h.index + n else |h.entries| - 1
    decreases n
  {
    if n > 0 {
      RedoTimesIndex(Redone(h), n - 1);
    }
  }

  /** `n` undos that all move the cursor are undone by `n` redos. */
  lemma {:induction false} UndoRedoTimes(h: HistoryState, n: nat)
    requires Valid(h) && n <= h.index
    ensures RedoTimes(UndoTimes(h, n), n) == h
  {
    UndoTimesIndex(h, n);
    RedoTimesIndex(UndoTimes(h, n), n);
  }

  // ---------------------------------------------------------------------------
  // The history in use: the raster on screen together with the history.
  // An action (a stroke or a clear) replaces the raster with a new one; undo
  // and redo paint the snapshot under the moved cursor.

  datatype Session = Session(history: HistoryState, raster: Snapshot)

  predicate ValidSession(s: Session) {
    Valid(s.history)
  }

  function Start(blank: Snapshot): (s: Session)
    ensures ValidSession(s)
  {
    Session(Initial(blank), blank)
  }

  function UndoSession(s: Session): (r: Session)
    requires ValidSession(s)
    ensures ValidSession(r)
  {
    if CanUndo(s.history) then Session(Undone(s.history), Current(Undone(s.history))) else s
  }

  function RedoSession(s: Session): (r: Session)
    requires ValidSession(s)
    ensures ValidSession(r)
  {
    if CanRedo(s.history) then Session(Redone(s.history), Current(Redone(s.history))) else s
  }

  /** An action as the component performs it: the raster is saved at the
      start of the action (mouse-down, touch-start, clear), before it changes,
      and nothing is saved when the action ends. */
  function ActAsWritten(s: Session, after: Snapshot): (r: Session)
    requires ValidSession(s)
    ensures ValidSession(r)
  {
    Session(Pushed(s.history, s.raster), after)
  }

  function RunAsWritten(s: Session, rasters: seq<Snapshot>): (r: Session)
    requires ValidSession(s)
    ensures ValidSession(r)
    decreases rasters
  {
    if rasters == [] then s else RunAsWritten(ActAsWritten(s, rasters[0]), rasters[1..])
  }

  /** With saves taken before each action, one undo after two strokes paints
      the blank canvas back instead of the canvas with the first stroke, and
      redo after one stroke and one undo does not bring the stroke back. */
  lemma AsWrittenUndoSkipsAStroke(blank: Snapshot, r1: Snapshot, r2: Snapshot)
    requires blank != r1
    ensures UndoSession(RunAsWritten(Start(blank), [r1, r2])).raster == blank
    ensures UndoSession(RunAsWritten(Start(blank), [r1, r2])).raster != r1
    ensures RedoSession(UndoSession(RunAsWritten(Start(blank), [r1]))).raster == blank
  {
    var s1 := ActAsWritten(Start(blank), r1);
    assert RunAsWritten(Start(blank), [r1, r2]) == RunAsWritten(s1, [r2]);
    assert RunAsWritten(Start(blank), [r1]) == RunAsWritten(s1, []);
  }

  /** An action with the save taken when it is done: the new raster is saved. */
  function ActCorrected(s: Session, after: Snapshot): (r: Session)
    requires ValidSession(s)
    ensures ValidSession(r)
  {
    Session(Pushed(s.history, after), after)
  }

  function RunCorrected(s: Session, rasters: seq<Snapshot>): (r: Session)
    requires ValidSession(s)
    ensures ValidSession(r)
    decreases rasters
  {
    if rasters == [] then s else RunCorrected(ActCorrected(s, rasters[0]), rasters[1..])
  }

  function UndoSessionTimes(s: Session, n: nat): (r: Session)
    requires ValidSession(s)
    ensures ValidSession(r)
    decreases n
  {
    if n == 0 then s else UndoSessionTimes(UndoSession(s), n - 1)
  }

  function RedoSessionTimes(s: Session, n: nat): (r: Session)
    requires ValidSession(s)
    ensures ValidSession(r)
    decreases n
  {
    if n == 0 then s else RedoSessionTimes(RedoSession(s), n - 1)
  }

  /** After actions from a fresh start the history holds the blank snapshot
      followed by the raster after each action, the cursor on the last one,
      which is on screen. */
  lemma {:induction false} RunCorrectedState(blank: Snapshot, done: seq<Snapshot>, rasters: seq<Snapshot>, s: Session)
    requires ValidSession(s)
    requires s.history == HistoryState([blank] + done, |done|) && s.raster == Current(s.history)
    ensures RunCorrected(s, rasters).history == HistoryState([blank] + done + rasters, |done| + |rasters|)
    ensures RunCorrected(s, rasters).raster == Current(RunCorrected(s, rasters).history)
    decreases rasters
  {
    if rasters != [] {
      var s' := ActCorrected(s, rasters[0]);
      assert s'.history.entries == [blank] + (done + [rasters[0]]);
      RunCorrectedState(blank, done + [rasters[0]], rasters[1..], s');
      assert done + [rasters[0]] + rasters[1..] == done + rasters;
    }
  }

  /** Undo on a session whose raster is the current snapshot moves both back. */
  lemma {:induction false} UndoSessionTimesState(s: Session, n: nat)
    requires ValidSession(s) && s.raster == Current(s.history) && n <= s.history.index
    ensures UndoSessionTimes(s, n).history == UndoTimes(s.history, n)
    ensures UndoSessionTimes(s, n).raster == Current(UndoTimes(s.history, n))
    decreases n
  {
    if n > 0 {
      UndoSessionTimesState(UndoSession(s), n - 1);
    }
  }

  lemma {:induction false} RedoSessionTimesState(s: Session, n: nat)
    requires ValidSession(s) && s.raster == Current(s.history) && s.history.index + n < |s.history.entries|
    ensures RedoSessionTimes(s, n).history == RedoTimes(s.history, n)
    ensures RedoSessionTimes(s, n).raster == Current(RedoTimes(s.history, n))
    decreases n
  {
    if n > 0 {
      RedoSessionTimesState(RedoSession(s), n - 1);
    }
  }

  /** With saves taken after each action, `k` undos after `n` actions show the
      raster after action `n - k` (the blank canvas when `k == n`), and `k`
      redos then bring back the raster after the last action. */
  lemma CorrectedUndoRedo(blank: Snapshot, rasters: seq<Snapshot>, k: nat)
    requires k <= |rasters|
    ensures UndoSessionTimes(RunCorrected(Start(blank), rasters), k).raster == ([blank] + rasters)[|rasters| - k]
    ensures RedoSessionTimes(UndoSessionTimes(RunCorrected(Start(blank), rasters), k), k) == RunCorrected(Start(blank), rasters)
  {
    var s := RunCorrected(Start(blank), rasters);
    RunCorrectedState(blank, [], rasters, Start(blank));
    assert [blank] + [] + rasters == [blank] + rasters;
    UndoSessionTimesState(s, k);
    UndoTimesIndex(s.history, k);
    var u := UndoSessionTimes(s, k);
    RedoSessionTimesState(u, k);
    UndoRedoTimes(s.history, k);
  }
}
