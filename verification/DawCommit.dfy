/** Which clip edits a session can be saved with, and that saving keeps what the edit made. */
module DawCommit {
  import opened Numbers
  import opened Options
  import opened Sequences
  import opened StableSort
  import opened Automation
  import opened DawDocument
  import opened DawEdits

  // ---- an edit keeps the normal form ----

  ghost predicate SameTracks(a: seq<Track>, b: seq<Track>) {
    |a| == |b| && forall i :: 0 <= i < |a| ==> a[i].(clips := []) == b[i].(clips := [])
  }

  lemma PiecesClamped(c: Clip, op: Operation)
    requires InPlace(op) && ClampedClip(c) && Pieces(c, op).Some?
    ensures ClampedClips(Pieces(c, op).value)
  {
    hide SnapTo;
  }

  lemma SortedClamped(clips: seq<Clip>)
    requires ClampedClips(clips)
    ensures ClampedClips(SortBy(clips, ClipKey))
  {
    hide SortBy;
    var sorted := SortBy(clips, ClipKey);
    SortByIsStableSort(clips, ClipKey);
    forall k | 0 <= k < |sorted| ensures ClampedClip(sorted[k]) {
      assert sorted[k] in multiset(sorted);
    }
  }

  lemma SnapNotNegative(frame: int, snap: int)
    requires frame >= 0 && snap >= 1
    ensures SnapTo(frame, snap) >= 0
  {
    assert (frame + snap / 2) / snap >= 0;
  }

  lemma RehomedClamped(tracks: seq<Track>, p: Place, c: Clip, to: nat)
    requires At(tracks, p) && to < |tracks| && ClampedTracks(tracks) && ClampedClip(c)
    ensures ClampedTracks(Rehomed(tracks, p, c, to)) && SameTracks(Rehomed(tracks, p, c, to), tracks)
  {
    hide SortBy, ClampedStrip, ClampedClip;
    assert ClampedClips(tracks[p.track].clips) && ClampedClips(tracks[to].clips);
    SortedClamped(tracks[p.track].clips[p.clip := c]);
    if to != p.track { SortedClamped(tracks[to].clips + [c]); }
  }

  lemma MovedClamped(s: Session, p: Place, start: int, snap: int, target: Option<Id>)
    requires At(s.tracks, p) && Clamped(s) && Moved(s, p, start, snap, target).Some?
    ensures var after := Moved(s, p, start, snap, target).value; Clamped(after) && SameTracks(after.tracks, s.tracks)
  {
    hide Rehomed, SnapTo, ClampedTracks;
    SnapNotNegative(start, snap);
    var c := ClipAtPlace(s.tracks, p);
    assert ClampedClip(c) by { ClampedAt(s.tracks, p); }
    var to := TrackIndex(s.tracks, if target.Some? then target.value else s.tracks[p.track].id).value;
    RehomedClamped(s.tracks, p, c.(start := SnapTo(start, snap)), to);
  }

  lemma ClampedAt(tracks: seq<Track>, p: Place)
    requires At(tracks, p) && ClampedTracks(tracks)
    ensures ClampedClip(ClipAtPlace(tracks, p))
  {
    assert ClampedClips(tracks[p.track].clips);
  }

  lemma {:induction false} TrackClipsInAll(tracks: seq<Track>, i: nat, k: nat)
    requires i < |tracks| && k < |tracks[i].clips|
    ensures tracks[i].clips[k] in AllClips(tracks)
  {
    var n := |tracks| - 1;
    if i < n { TrackClipsInAll(tracks[..n], i, k); }
  }

  lemma GroupClamped(s: Session, op: Operation, after: Session)
    requires op.MoveMany? && Clamped(s) && Edits(s, op, Some(after))
    ensures Clamped(after) && SameTracks(after.tracks, s.tracks)
  {
    hide SortBy, AllClips, Group, SnapTo, ClampedStrip;
    var group := Group(AllClips(s.tracks), op.clipIds);
    GroupMembers(AllClips(s.tracks), op.clipIds);
    GroupNotEmpty(AllClips(s.tracks), op.clipIds);
    var start := EarliestIn(group);
    var applied := SnapTo(start + op.delta, op.snap) - start;
    forall i | 0 <= i < |s.tracks| ensures ClampedClips(after.tracks[i].clips) {
      var shifted := ShiftedClips(s.tracks[i].clips, op.clipIds, applied);
      assert ClampedClips(s.tracks[i].clips);
      forall k | 0 <= k < |shifted| ensures ClampedClip(shifted[k]) {
        TrackClipsInAll(s.tracks, i, k);
        if s.tracks[i].clips[k].id in op.clipIds { assert s.tracks[i].clips[k] in group; }
      }
      SortedClamped(shifted);
    }
  }

  lemma SplicedClamped(s: Session, p: Place, pieces: seq<Clip>)
    requires At(s.tracks, p) && Clamped(s) && ClampedClips(pieces)
    ensures Clamped(Spliced(s, p, pieces)) && SameTracks(Spliced(s, p, pieces).tracks, s.tracks)
  {
    hide ClampedClip, ClampedStrip;
    assert ClampedClips(s.tracks[p.track].clips);
  }

  /** Every edit of a document in normal form is again in normal form, and changes nothing but clips. */
  lemma EditKeepsClamped(s: Session, op: Operation, after: Session, found: Option<Place>)
    requires Clamped(s) && Edits(s, op, Some(after)) && (!op.MoveMany? ==> Finds(s.tracks, op.clipId, found))
    ensures Clamped(after) && SameTracks(after.tracks, s.tracks) && after.revision == s.revision && after.id == s.id
  {
    hide Clamped, ClampedClip, Moved, Spliced, Pieces, GroupMoves, Rehomed;
    if op.MoveMany? {
      GroupClamped(s, op, after);
      GroupKeepsIdentity(s, op, after);
    } else {
      var p := found.value;
      EditedClamped(s, op, after, p);
    }
  }

  lemma GroupKeepsIdentity(s: Session, op: Operation, after: Session)
    requires op.MoveMany? && Edits(s, op, Some(after))
    ensures after.revision == s.revision && after.id == s.id
  {
    hide AllClips, Group, SnapTo, SortBy;
    GroupNotEmpty(AllClips(s.tracks), op.clipIds);
    var start := EarliestIn(Group(AllClips(s.tracks), op.clipIds));
  }

  lemma EditedClamped(s: Session, op: Operation, after: Session, p: Place)
    requires !op.MoveMany? && Clamped(s) && At(s.tracks, p)
    requires op.Move? ==> Moved(s, p, op.start, op.snap, op.target) == Some(after)
    requires InPlace(op) ==>
      Pieces(ClipAtPlace(s.tracks, p), op).Some? && after == Spliced(s, p, Pieces(ClipAtPlace(s.tracks, p), op).value)
    ensures Clamped(after) && SameTracks(after.tracks, s.tracks) && after.revision == s.revision && after.id == s.id
  {
    hide Pieces, Rehomed, ClampedClip;
    if op.Move? {
      MovedClamped(s, p, op.start, op.snap, op.target);
    } else {
      ClampedAt(s.tracks, p);
      PiecesClamped(ClipAtPlace(s.tracks, p), op);
      SplicedClamped(s, p, Pieces(ClipAtPlace(s.tracks, p), op).value);
    }
  }

  /** What is saved is what the edit made, with the next revision; only the bounds and the identifiers can refuse it. */
  lemma SavedIsEdited(s: Session, op: Operation, after: Session, found: Option<Place>, revision: nat)
    requires Clamped(s) && Edits(s, op, Some(after)) && (!op.MoveMany? ==> Finds(s.tracks, op.clipId, found))
    ensures Normalize(after.(revision := revision)) ==
            if Acceptable(after) then Some(after.(revision := revision)) else None
  {
    hide Edits, Finds, Acceptable, ClampedTracks;
    EditKeepsClamped(s, op, after, found);
    NormalOnlyMovesUnclamped(after.(revision := revision));
    AcceptableAnyRevision(after, revision);
  }

  lemma AcceptableAnyRevision(s: Session, revision: int)
    ensures Acceptable(s.(revision := revision)) == Acceptable(s)
  {
  }

  // ---- which edits fit ----

  ghost function ClipsBefore(tracks: seq<Track>, p: Place): seq<Clip>
    requires At(tracks, p)
  {
    AllClips(tracks[..p.track]) + tracks[p.track].clips[..p.clip]
  }

  ghost function ClipsAfter(tracks: seq<Track>, p: Place): seq<Clip>
    requires At(tracks, p)
  {
    tracks[p.track].clips[p.clip + 1..] + AllClips(tracks[p.track + 1..])
  }

  lemma {:induction false} AllClipsConcat(a: seq<Track>, b: seq<Track>)
    ensures AllClips(a + b) == AllClips(a) + AllClips(b)
  {
    if b == [] {
      assert a + b == a;
    } else {
      var n := |b| - 1;
      AllClipsConcat(a, b[..n]);
      assert (a + b)[..|a + b| - 1] == a + b[..n];
      Associative(AllClips(a), AllClips(b[..n]), b[n].clips);
    }
  }

  lemma AllClipsAround(tracks: seq<Track>, p: Place, pieces: seq<Clip>)
    requires At(tracks, p)
    ensures var clips := tracks[p.track].clips;
      AllClips(tracks[p.track := tracks[p.track].(clips := clips[..p.clip] + pieces + clips[p.clip + 1..])]) ==
      ClipsBefore(tracks, p) + pieces + ClipsAfter(tracks, p)
  {
    hide AllClips;
    var clips := tracks[p.track].clips;
    var t := tracks[p.track].(clips := clips[..p.clip] + pieces + clips[p.clip + 1..]);
    assert tracks[p.track := t] == tracks[..p.track] + [t] + tracks[p.track + 1..];
    OneTrack(t);
    AllClipsConcat(tracks[..p.track] + [t], tracks[p.track + 1..]);
    AllClipsConcat(tracks[..p.track], [t]);
    Nested(AllClips(tracks[..p.track]), clips[..p.clip], pieces, clips[p.clip + 1..], AllClips(tracks[p.track + 1..]));
  }

  lemma Nested(a: seq<Clip>, b: seq<Clip>, c: seq<Clip>, d: seq<Clip>, e: seq<Clip>)
    ensures (a + (b + c + d)) + e == (a + b) + c + (d + e)
  {
    Associative(a, b + c, d);
    Associative(a, b, c);
    Associative(a + b + c, d, e);
  }

  lemma OneTrack(t: Track)
    ensures AllClips([t]) == t.clips
  {
    assert [t][..0] == [];
  }

  lemma WholeAround(tracks: seq<Track>, p: Place)
    requires At(tracks, p)
    ensures AllClips(tracks) == ClipsBefore(tracks, p) + [ClipAtPlace(tracks, p)] + ClipsAfter(tracks, p)
  {
    hide AllClips;
    var clips := tracks[p.track].clips;
    AllClipsAround(tracks, p, [clips[p.clip]]);
    assert clips[..p.clip] + [clips[p.clip]] + clips[p.clip + 1..] == clips;
    assert tracks[p.track := tracks[p.track].(clips := clips)] == tracks;
  }

  /** Replacing one clip keeps a document acceptable just when the pieces are in order, new to it, and not too many. */
  lemma SplicedAcceptable(s: Session, p: Place, pieces: seq<Clip>)
    requires Acceptable(s) && At(s.tracks, p)
    ensures Acceptable(Spliced(s, p, pieces)) <==>
            && ClipsOk(pieces) && DistinctClips(ClipsBefore(s.tracks, p) + pieces + ClipsAfter(s.tracks, p))
            && |AllClips(s.tracks)| - 1 + |pieces| <= MAX_CLIPS
  {
    hide AllClips, ClipOk, LaneOk;
    var before, rest, c := ClipsBefore(s.tracks, p), ClipsAfter(s.tracks, p), ClipAtPlace(s.tracks, p);
    AllClipsAround(s.tracks, p, pieces);
    WholeAround(s.tracks, p);
    var after := Spliced(s, p, pieces);
    forall i | 0 <= i < |s.tracks| ensures TrackOk(after.tracks[i]) {
      assert TrackOk(s.tracks[i]);
    }
    AllOk(before, [c], rest);
    AllOk(before, pieces, rest);
  }

  lemma AllOk(a: seq<Clip>, b: seq<Clip>, c: seq<Clip>)
    ensures ClipsOk(a + b + c) <==> ClipsOk(a) && ClipsOk(b) && ClipsOk(c)
  {
    hide ClipOk;
    var all := a + b + c;
    if ClipsOk(all) {
      forall k | 0 <= k < |a| ensures ClipOk(a[k]) { assert all[k] == a[k]; }
      forall k | 0 <= k < |b| ensures ClipOk(b[k]) { assert all[|a| + k] == b[k]; }
      forall k | 0 <= k < |c| ensures ClipOk(c[k]) { assert all[|a| + |b| + k] == c[k]; }
    }
  }

  lemma DistinctReplaced(a: seq<Clip>, was: Clip, now: Clip, b: seq<Clip>)
    requires DistinctClips(a + [was] + b) && now.id == was.id
    ensures DistinctClips(a + [now] + b)
  {
    var before, after := a + [was] + b, a + [now] + b;
    forall i, j | 0 <= i < j < |after| ensures after[i].id != after[j].id {
      assert after[i].id == before[i].id && after[j].id == before[j].id;
    }
  }

  /** A trim is saved exactly when it leaves something of the clip and an unanchored fade still fits what is left. */
  lemma TrimAccepted(s: Session, clipId: Id, trimStart: int, trimEnd: int, found: Option<Place>, r: Option<Session>)
    requires Acceptable(s) && Clamped(s)
    requires Finds(s.tracks, clipId, found) && Edits(s, Trim(clipId, trimStart, trimEnd), r)
    ensures r.Some? && Acceptable(r.value) <==>
            found.Some? &&
            var c, cut := ClipAtPlace(s.tracks, found.value), Max(0, trimStart) + Max(0, trimEnd);
            cut < c.length && (c.fades.span.Some? || c.fades.inFrames + c.fades.outFrames <= c.length - cut)
  {
    hide Spliced, AllClips, Acceptable;
    if found.Some? {
      var p := found.value;
      var c, ts, te := ClipAtPlace(s.tracks, p), Max(0, trimStart), Max(0, trimEnd);
      ClampedAt(s.tracks, p);
      ClipIsOk(s, p);
      if ts + te < c.length {
        SplicedAcceptable(s, p, [Trimmed(c, ts, te)]);
        TrimmedOk(c, ts, te);
        WholeDistinct(s, p);
        DistinctReplaced(ClipsBefore(s.tracks, p), c, Trimmed(c, ts, te), ClipsAfter(s.tracks, p));
        AtMost(s);
      }
    }
  }

  lemma TrimmedOk(c: Clip, trimStart: int, trimEnd: int)
    requires ClampedClip(c) && ClipOk(c) && 0 <= trimStart && 0 <= trimEnd && trimStart + trimEnd < c.length
    ensures ClipsOk([Trimmed(c, trimStart, trimEnd)]) <==>
            c.fades.span.Some? || c.fades.inFrames + c.fades.outFrames <= c.length - trimStart - trimEnd
  {
    var pieces := [Trimmed(c, trimStart, trimEnd)];
    assert ClipsOk(pieces) <==> ClipOk(pieces[0]);
  }

  lemma AtMost(s: Session)
    requires Acceptable(s)
    ensures |AllClips(s.tracks)| <= MAX_CLIPS
  {
  }

  lemma ClipIsOk(s: Session, p: Place)
    requires Acceptable(s) && At(s.tracks, p)
    ensures ClipOk(ClipAtPlace(s.tracks, p))
  {
    hide AllClips, ClipOk;
    TrackClipsInAll(s.tracks, p.track, p.clip);
  }

  lemma WholeDistinct(s: Session, p: Place)
    requires Acceptable(s) && At(s.tracks, p)
    ensures DistinctClips(ClipsBefore(s.tracks, p) + [ClipAtPlace(s.tracks, p)] + ClipsAfter(s.tracks, p))
  {
    hide AllClips, ClipsBefore, ClipsAfter;
    WholeAround(s.tracks, p);
  }

  lemma DistinctInserted(a: seq<Clip>, c: Clip, left: Clip, right: Clip, b: seq<Clip>)
    requires DistinctClips(a + [c] + b) && left.id == c.id
    ensures DistinctClips(a + [left, right] + b) <==> !HasClip(a + [c] + b, right.id)
  {
    var before, after := a + [c] + b, a + [left, right] + b;
    assert after[|a|] == left && after[|a| + 1] == right;
    forall k | 0 <= k < |before| ensures before[k].id == after[if k <= |a| then k else k + 1].id {
    }
    if !HasClip(before, right.id) {
      forall i, j | 0 <= i < j < |after| ensures after[i].id != after[j].id {
        assert i != |a| + 1 ==> after[i].id == before[if i <= |a| then i else i - 1].id;
        assert j != |a| + 1 ==> after[j].id == before[if j <= |a| then j else j - 1].id;
      }
    } else {
      var k :| 0 <= k < |before| && before[k].id == right.id;
      assert after[if k <= |a| then k else k + 1].id == after[|a| + 1].id;
    }
  }

  /** A split is saved exactly when it falls inside the clip, its new id is a fresh token, and there is room for one clip more. */
  lemma SplitAccepted(s: Session, clipId: Id, splitFrame: int, newClipId: Id, found: Option<Place>, r: Option<Session>)
    requires Acceptable(s) && Clamped(s)
    requires Finds(s.tracks, clipId, found) && Edits(s, Split(clipId, splitFrame, newClipId), r)
    ensures r.Some? && Acceptable(r.value) <==>
            && found.Some?
            && ClipAtPlace(s.tracks, found.value).start < splitFrame
            && splitFrame < ClipAtPlace(s.tracks, found.value).start + ClipAtPlace(s.tracks, found.value).length
            && newClipId != 0 && !HasClip(AllClips(s.tracks), newClipId) && |AllClips(s.tracks)| < MAX_CLIPS
  {
    hide Spliced, AllClips, Acceptable;
    if found.Some? {
      var p := found.value;
      var c := ClipAtPlace(s.tracks, p);
      ClampedAt(s.tracks, p);
      ClipIsOk(s, p);
      if c.start < splitFrame < c.start + c.length {
        var halves := Halves(c, splitFrame - c.start, newClipId);
        SplicedAcceptable(s, p, halves);
        HalvesOk(c, splitFrame - c.start, newClipId);
        WholeDistinct(s, p);
        DistinctInserted(ClipsBefore(s.tracks, p), c, halves[0], halves[1], ClipsAfter(s.tracks, p));
        WholeAround(s.tracks, p);
      }
    }
  }

  lemma HalvesOk(c: Clip, relative: int, newId: Id)
    requires ClampedClip(c) && ClipOk(c) && 0 < relative < c.length
    ensures ClipsOk(Halves(c, relative, newId)) <==> newId != 0
  {
    var halves := Halves(c, relative, newId);
    assert ClipOk(halves[0]);
    assert ClipOk(halves[1]) <==> newId != 0;
  }
}
