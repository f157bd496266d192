/** The session store: saving, editing, undo and redo over bounded histories. */
module DawSessionStore {
  import opened Options
  import opened DawDocument
  import opened DawEdits
  import opened DawMeaning
  import DawCommit

  const HISTORY := 100

  // What is on disk: the document and its two history lists, newest last.
  datatype State = State(document: Session, undo: seq<Session>, redo: seq<Session>)

  /** The newest entries, as far as a history is read or kept. */
  function Newest(entries: seq<Session>): (r: seq<Session>)
    ensures |r| <= HISTORY && (|entries| <= HISTORY ==> r == entries)
  {
    if |entries| <= HISTORY then entries else entries[|entries| - HISTORY..]
  }

  ghost predicate IsNormal(s: Session) { Normalize(s) == Some(s) }

  /** Every stored document is in normal form, and both histories together are bounded. */
  ghost predicate Stored(st: State) {
    && IsNormal(st.document)
    && (forall i :: 0 <= i < |st.undo| ==> IsNormal(st.undo[i]))
    && (forall i :: 0 <= i < |st.redo| ==> IsNormal(st.redo[i]))
    && |st.undo| + |st.redo| <= HISTORY
  }

  /** Saving an edited document: the old one becomes the newest undo entry, and nothing can be redone. */
  ghost function Committed(st: State, after: Session): Option<State> {
    match Normalize(after.(revision := st.document.revision + 1))
    case None => None
    case Some(saved) => Some(State(saved, Newest(Newest(st.undo) + [st.document]), []))
  }

  /** Taking the newest entry of one list as the document, the document going to the other list. */
  ghost function Restored(st: State, undoing: bool): Option<State> {
    var source := Newest(if undoing then st.undo else st.redo);
    var target := Newest(if undoing then st.redo else st.undo) + [st.document];
    if source == [] then None
    else
      var n := |source| - 1;
      match Normalize(source[n].(revision := st.document.revision + 1))
      case None => None
      case Some(saved) => Some(if undoing then State(saved, source[..n], target) else State(saved, target, source[..n]))
  }

  class DawSessionStore {
    var document: Session
    var undo: seq<Session>
    var redo: seq<Session>

    ghost function OnDisk(): State reads this { State(document, undo, redo) }

    ghost predicate Valid() reads this { Stored(OnDisk()) }

    constructor (id: Id)
      ensures Valid() && OnDisk() == State(Session(id, 0, []), [], [])
    {
      document, undo, redo := Session(id, 0, []), [], [];
      new;
      EmptyIsNormal(id);
    }

    /** Writes a document whose revision advances; histories are left alone. */
    method Save(value: Session) returns (saved: Option<Session>)
      requires Valid()
      modifies this`document
      ensures Valid()
      ensures var n := Normalize(value);
        saved == if n.Some? && n.value.revision > old(document.revision) then n else None
      ensures document == if saved.Some? then saved.value else old(document)
    {
      saved := NormalizeSession(value);
      if saved.None? { return; }
      if saved.value.revision <= document.revision { return None; }
      NormalizeIdempotent(value);
      document := saved.value;
    }

    /** Records the document before the edit, and saves the edited one; a document that cannot be saved changes nothing. */
    method CommitEdit(after: Session) returns (saved: Option<Session>)
      requires Valid()
      modifies this
      ensures Valid()
      ensures Committed(old(OnDisk()), after) == if saved.Some? then Some(OnDisk()) else None
      ensures saved.Some? ==> saved.value == document
      ensures saved.None? ==> OnDisk() == old(OnDisk())
    {
      hide Normalize;
      ghost var before := OnDisk();
      var history := Newest(undo) + [document];
      history := Newest(history);
      NextRevision(document, after);
      saved := Save(after.(revision := document.revision + 1));
      if saved.None? { return; }
      undo, redo := history, [];
      CommittedStored(before, after);
    }

    /** An edit against the current revision; anything refused changes neither document nor history. */
    method EditClips(op: Operation, expected: int) returns (saved: Option<Session>, ghost edited: Option<Session>)
      requires Valid()
      modifies this
      ensures Valid()
      ensures expected == old(document.revision) ==> Edits(old(document), op, edited)
      ensures saved.Some? <==> expected == old(document.revision) && edited.Some? && Committed(old(OnDisk()), edited.value).Some?
      ensures saved.Some? ==> saved.value == document && Committed(old(OnDisk()), edited.value) == Some(OnDisk())
      ensures saved.None? ==> OnDisk() == old(OnDisk())
    {
      hide Edits, Committed;
      if expected != document.revision { return None, None; }
      var after := Edit(document, op);
      edited := after;
      if after.None? { return None, edited; }
      saved := CommitEdit(after.value);
    }

    /** Undo, or redo: refused exactly when there is nothing to restore. */
    method Restore(undoing: bool) returns (saved: Option<Session>)
      requires Valid()
      modifies this
      ensures Valid()
      ensures Restored(old(OnDisk()), undoing) == if saved.Some? then Some(OnDisk()) else None
      ensures saved.Some? <==> (if undoing then old(undo) else old(redo)) != []
      ensures saved.Some? ==> saved.value == document
      ensures saved.None? ==> OnDisk() == old(OnDisk())
    {
      hide Normalize;
      ghost var before := OnDisk();
      var source := Newest(if undoing then undo else redo);
      var target := Newest(if undoing then redo else undo);
      if source == [] { return None; }
      var n := |source| - 1;
      var restored := source[n];
      source, target := source[..n], target + [document];
      RestoredStored(before, undoing);
      saved := Save(restored.(revision := document.revision + 1));
      if undoing { undo, redo := source, target; } else { redo, undo := source, target; }
    }
  }

  lemma EmptyIsNormal(id: Id)
    ensures IsNormal(Session(id, 0, []))
  {
  }

  lemma NextRevision(before: Session, after: Session)
    requires IsNormal(before)
    ensures before.revision >= 0
    ensures var n := Normalize(after.(revision := before.revision + 1)); n.Some? ==> n.value.revision == before.revision + 1
  {
  }

  lemma RevisionDoesNotMatter(s: Session, revision: nat)
    requires IsNormal(s)
    ensures IsNormal(s.(revision := revision))
  {
    hide TracksOk;
    NormalOnlyMovesUnclamped(s);
    NormalOnlyMovesUnclamped(s.(revision := revision));
  }

  lemma CommittedStored(st: State, after: Session)
    requires Stored(st)
    ensures var r := Committed(st, after); r.Some? ==> Stored(r.value) && r.value.document.revision == st.document.revision + 1
  {
    hide Acceptable, Normal;
    NextRevision(st.document, after);
    NormalizeIdempotent(after.(revision := st.document.revision + 1));
  }

  /** A restore never fails to save: what was stored once can be stored again. */
  lemma RestoredStored(st: State, undoing: bool)
    requires Stored(st)
    ensures var r, source := Restored(st, undoing), if undoing then st.undo else st.redo;
      && (r.Some? <==> source != [])
      && (source != [] ==>
            && Stored(r.value)
            && r.value.document == source[|source| - 1].(revision := st.document.revision + 1)
            && Normalize(source[|source| - 1].(revision := st.document.revision + 1)) == Some(r.value.document)
            && r.value == if undoing then State(r.value.document, source[..|source| - 1], st.redo + [st.document])
                          else State(r.value.document, st.undo + [st.document], source[..|source| - 1]))
  {
    hide Normalize;
    var source := if undoing then st.undo else st.redo;
    NextRevision(st.document, st.document);
    if source != [] {
      assert IsNormal(source[|source| - 1]);
      RevisionDoesNotMatter(source[|source| - 1], st.document.revision + 1);
    }
  }

  // ---- the version list ----

  /** A document apart from its revision. */
  function Content(s: Session): Session { s.(revision := 0) }

  function Contents(entries: seq<Session>): (r: seq<Session>)
    ensures |r| == |entries| && forall i :: 0 <= i < |r| ==> r[i] == Content(entries[i])
  {
    seq(|entries|, i requires 0 <= i < |entries| => Content(entries[i]))
  }

  function Backwards(entries: seq<Session>): (r: seq<Session>)
    ensures |r| == |entries| && forall i :: 0 <= i < |r| ==> r[i] == entries[|entries| - 1 - i]
  {
    seq(|entries|, i requires 0 <= i < |entries| => entries[|entries| - 1 - i])
  }

  /** All versions that can be reached, oldest first; the document is the one at `Cursor`. */
  function Versions(st: State): seq<Session> {
    Contents(st.undo) + [Content(st.document)] + Contents(Backwards(st.redo))
  }

  function Cursor(st: State): nat { |st.undo| }

  lemma CursorIsDocument(st: State)
    ensures Cursor(st) < |Versions(st)| && Versions(st)[Cursor(st)] == Content(st.document)
  {
  }

  lemma UndoVersions(st: State, saved: Session)
    requires st.undo != [] && Content(saved) == Content(st.undo[|st.undo| - 1])
    ensures Versions(State(saved, st.undo[..|st.undo| - 1], st.redo + [st.document])) == Versions(st)
  {
    var n := |st.undo| - 1;
    assert Contents(st.undo) == Contents(st.undo[..n]) + [Content(saved)];
    assert Contents(Backwards(st.redo + [st.document])) == [Content(st.document)] + Contents(Backwards(st.redo));
  }

  lemma RedoVersions(st: State, saved: Session)
    requires st.redo != [] && Content(saved) == Content(st.redo[|st.redo| - 1])
    ensures Versions(State(saved, st.undo + [st.document], st.redo[..|st.redo| - 1])) == Versions(st)
  {
    var n := |st.redo| - 1;
    assert Contents(st.undo + [st.document]) == Contents(st.undo) + [Content(st.document)];
    assert Contents(Backwards(st.redo)) == [Content(saved)] + Contents(Backwards(st.redo[..n]));
  }

  /** Undo and redo step a cursor over the same versions; neither list is ever cut. */
  lemma RestoreMovesCursor(st: State, undoing: bool)
    requires Stored(st) && Restored(st, undoing).Some?
    ensures var r := Restored(st, undoing).value;
      && Stored(r) && Versions(r) == Versions(st)
      && Cursor(r) == (if undoing then Cursor(st) - 1 else Cursor(st) + 1)
      && r.document.revision == st.document.revision + 1
  {
    hide Restored, Stored, Versions;
    RestoredStored(st, undoing);
    var saved := Restored(st, undoing).value.document;
    if undoing { UndoVersions(st, saved); } else { RedoVersions(st, saved); }
  }

  /** An edit drops the versions ahead of the cursor, adds its own, and keeps the newest hundred behind it. */
  lemma CommitAppendsVersion(st: State, after: Session)
    requires Stored(st) && Committed(st, after).Some?
    ensures var r := Committed(st, after).value; var kept := Versions(st)[..Cursor(st) + 1];
      && Stored(r) && r.redo == []
      && Versions(r) == kept[|kept| - Cursor(r)..] + [Content(r.document)]
      && Cursor(r) == (if Cursor(st) < HISTORY then Cursor(st) + 1 else HISTORY)
      && r.document.revision == st.document.revision + 1
  {
    hide Normalize, IsNormal;
    CommittedStored(st, after);
    var r := Committed(st, after).value;
    assert Contents(Backwards([])) == [];
    assert Versions(r) == Contents(r.undo) + [Content(r.document)];
    var kept := Versions(st)[..Cursor(st) + 1];
    assert kept == Contents(st.undo + [st.document]);
    assert Contents(r.undo) == kept[|kept| - |r.undo|..];
  }

  /** A run of `k` undos, or redos. */
  ghost function Repeated(st: State, undoing: bool, k: nat): Option<State> {
    if k == 0 then Some(st)
    else
      match Repeated(st, undoing, k - 1)
      case None => None
      case Some(before) => Restored(before, undoing)
  }

  lemma {:induction false} RepeatMovesCursor(st: State, undoing: bool, k: nat)
    requires Stored(st) && k <= (if undoing then |st.undo| else |st.redo|)
    ensures Repeated(st, undoing, k).Some?
    ensures var r := Repeated(st, undoing, k).value;
      && Stored(r) && Versions(r) == Versions(st)
      && Cursor(r) == (if undoing then Cursor(st) - k else Cursor(st) + k)
      && |r.undo| + |r.redo| == |st.undo| + |st.redo|
      && r.document.revision == st.document.revision + k
  {
    hide Restored, Stored, Versions;
    if k > 0 {
      RepeatMovesCursor(st, undoing, k - 1);
      var before := Repeated(st, undoing, k - 1).value;
      RestoreDefined(before, undoing);
      RestoreMovesCursor(before, undoing);
      SameTotal(before, Restored(before, undoing).value);
    }
  }

  lemma RestoreDefined(st: State, undoing: bool)
    requires Stored(st)
    ensures Restored(st, undoing).Some? <==> (if undoing then st.undo else st.redo) != []
  {
    hide Restored;
    RestoredStored(st, undoing);
  }

  lemma SameTotal(a: State, b: State)
    requires Versions(a) == Versions(b)
    ensures |a.undo| + |a.redo| == |b.undo| + |b.redo|
  {
    assert |Versions(a)| == |a.undo| + 1 + |a.redo| && |Versions(b)| == |b.undo| + 1 + |b.redo|;
  }

  /** Undoing any number of steps and redoing as many brings back the document, all but its revision, and both histories. */
  lemma UndoRedoRestores(st: State, k: nat)
    requires Stored(st) && k <= |st.undo|
    ensures Repeated(st, true, k).Some? && Repeated(Repeated(st, true, k).value, false, k).Some?
    ensures var back := Repeated(Repeated(st, true, k).value, false, k);
      && back.value.document == st.document.(revision := st.document.revision + 2 * k)
      && Contents(back.value.undo) == Contents(st.undo) && Contents(back.value.redo) == Contents(st.redo)
  {
    hide Stored, Repeated, Versions;
    RepeatMovesCursor(st, true, k);
    var undone := Repeated(st, true, k).value;
    RepeatMovesCursor(undone, false, k);
    SameVersions(st, Repeated(undone, false, k).value);
  }

  lemma SameVersions(a: State, b: State)
    requires Versions(a) == Versions(b) && |a.undo| == |b.undo|
    ensures Content(a.document) == Content(b.document)
    ensures Contents(a.undo) == Contents(b.undo) && Contents(a.redo) == Contents(b.redo)
  {
    var va, vb, n := Versions(a), Versions(b), |a.undo|;
    assert va[n] == Content(a.document) && vb[n] == Content(b.document);
    assert va[..n] == Contents(a.undo) && vb[..n] == Contents(b.undo);
    assert |va| == |vb|;
    forall i | 0 <= i < |a.redo| ensures Content(a.redo[i]) == Content(b.redo[i]) {
      var at := n + 1 + (|a.redo| - 1 - i);
      assert va[at] == Content(a.redo[i]) && vb[at] == Content(b.redo[i]);
    }
  }

  // ---- runs ----

  datatype Action = Commit(after: Session) | Undo | Redo

  /** What an action leaves; one that is refused leaves everything. */
  ghost function Act(st: State, a: Action): Option<State> {
    match a
    case Commit(after) => Committed(st, after)
    case Undo => Restored(st, true)
    case Redo => Restored(st, false)
  }

  ghost function Run(st: State, actions: seq<Action>): (State, nat) {
    if actions == [] then (st, 0)
    else
      var (before, done) := Run(st, actions[..|actions| - 1]);
      match Act(before, actions[|actions| - 1])
      case None => (before, done)
      case Some(after) => (after, done + 1)
  }

  /** Over every run the histories stay bounded, documents normal, and each success advances the revision by one. */
  lemma {:induction false} RunsStayStored(st: State, actions: seq<Action>)
    requires Stored(st)
    ensures var (after, done) := Run(st, actions);
      Stored(after) && after.document.revision == st.document.revision + done
  {
    hide Stored, Committed, Restored;
    if actions != [] {
      RunsStayStored(st, actions[..|actions| - 1]);
      var (before, done) := Run(st, actions[..|actions| - 1]);
      match actions[|actions| - 1] {
        case Commit(after) => CommittedStored(before, after);
        case Undo =>
          if Restored(before, true).Some? { RestoreMovesCursor(before, true); }
        case Redo =>
          if Restored(before, false).Some? { RestoreMovesCursor(before, false); }
      }
    }
  }

  /** Reading a stored history never cuts it. */
  lemma ReadingCutsNothing(st: State)
    requires Stored(st)
    ensures Newest(st.undo) == st.undo && Newest(st.redo) == st.redo
  {
  }

  /** A saved split is not heard, and undoing it brings the unsplit clip back. */
  lemma SavedSplitKeepsMeaning(st: State, clipId: Id, splitFrame: int, newClipId: Id, edited: Session, found: Option<Place>, frame: int)
    requires Stored(st) && Finds(st.document.tracks, clipId, found)
    requires Edits(st.document, Split(clipId, splitFrame, newClipId), Some(edited)) && Committed(st, edited).Some?
    ensures var after := Committed(st, edited).value;
      && Heard(after.document, frame) == Heard(st.document, frame)
      && Restored(after, true).Some? && Content(Restored(after, true).value.document) == Content(st.document)
  {
    hide Edits, Finds, Stored, Heard, Restored, Clamped;
    StoredIsClamped(st);
    var op := Split(clipId, splitFrame, newClipId);
    DawCommit.SavedIsEdited(st.document, op, edited, found, st.document.revision + 1);
    SplitKeepsMeaning(st.document, clipId, splitFrame, newClipId, edited, found, frame);
    SameTracksHeard(edited, Committed(st, edited).value.document, frame);
    UndoOfCommit(st, edited);
  }

  lemma StoredIsClamped(st: State)
    requires Stored(st)
    ensures Clamped(st.document) && st.document.revision >= 0
  {
    NormalOnlyMovesUnclamped(st.document);
  }

  lemma SameTracksHeard(a: Session, b: Session, frame: int)
    requires a.tracks == b.tracks
    ensures Heard(a, frame) == Heard(b, frame)
  {
  }

  /** Undoing an edit at once restores what was edited. */
  lemma UndoOfCommit(st: State, edited: Session)
    requires Stored(st) && Committed(st, edited).Some?
    ensures var after := Committed(st, edited).value;
      Restored(after, true).Some? && Content(Restored(after, true).value.document) == Content(st.document)
  {
    hide Normalize, IsNormal;
    CommittedStored(st, edited);
    RestoredStored(Committed(st, edited).value, true);
  }
}
