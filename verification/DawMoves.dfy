/** What moving clips does to what is heard: nothing is lost, and a group keeps its shape. */
module DawMoves {
  import opened Options
  import opened StableSort
  import opened Automation
  import opened DawDocument
  import opened DawEdits
  import opened DawMeaning

  // ---- order does not matter ----

  lemma {:induction false} InsertClipAt(strip: Strip, c: Clip, clips: seq<Clip>, frame: int)
    ensures multiset(ClipsAt(strip, Insert(c, clips, ClipKey), frame)) ==
            multiset(ClipAt(strip, c, frame)) + multiset(ClipsAt(strip, clips, frame))
  {
    hide ClipAt;
    if clips == [] || ClipKey(c).LessEq(ClipKey(clips[0])) {
      assert ([c] + clips)[1..] == clips;
    } else {
      InsertClipAt(strip, c, clips[1..], frame);
      assert ([clips[0]] + Insert(c, clips[1..], ClipKey))[1..] == Insert(c, clips[1..], ClipKey);
    }
  }

  /** Sorting the clips of a track changes only the order in which they are heard. */
  lemma {:induction false} SortedClipsAt(strip: Strip, clips: seq<Clip>, frame: int)
    ensures multiset(ClipsAt(strip, SortBy(clips, ClipKey), frame)) == multiset(ClipsAt(strip, clips, frame))
  {
    hide ClipAt, Insert;
    if clips != [] {
      SortedClipsAt(strip, clips[1..], frame);
      InsertClipAt(strip, clips[0], SortBy(clips[1..], ClipKey), frame);
    }
  }

  lemma SortedThrough(t: Track, solo: bool, clips: seq<Clip>, frame: int)
    ensures multiset(Through(t, solo, SortBy(clips, ClipKey), frame)) == multiset(Through(t, solo, clips, frame))
  {
    hide ClipsAt, SortBy;
    SortedClipsAt(t.strip, clips, frame);
  }

  lemma ReplaceTrack(tracks: seq<Track>, i: nat, t: Track, solo: bool, frame: int)
    requires i < |tracks|
    ensures multiset(TracksAt(tracks[i := t], solo, frame)) + multiset(Through(tracks[i], solo, tracks[i].clips, frame)) ==
            multiset(TracksAt(tracks, solo, frame)) + multiset(Through(t, solo, t.clips, frame))
  {
    hide TracksAt, Through;
    TracksAround(tracks, i, solo, frame);
    TracksAround(tracks[i := t], i, solo, frame);
    assert tracks[i := t][..i] == tracks[..i] && tracks[i := t][i + 1..] == tracks[i + 1..];
  }

  // ---- one clip ----

  lemma ThroughWithout(t: Track, solo: bool, clip: nat, frame: int)
    requires clip < |t.clips|
    ensures multiset(Through(t, solo, t.clips, frame)) ==
            multiset(Through(t, solo, t.clips[..clip] + t.clips[clip + 1..], frame)) + multiset(Through(t, solo, [t.clips[clip]], frame))
  {
    hide Through;
    var before, c, rest := t.clips[..clip], [t.clips[clip]], t.clips[clip + 1..];
    assert t.clips == before + c + rest;
    ThroughConcat(t, solo, before + c, rest, frame);
    ThroughConcat(t, solo, before, c, frame);
    ThroughConcat(t, solo, before, rest, frame);
  }

  lemma ThroughUpdated(t: Track, solo: bool, clip: nat, c: Clip, frame: int)
    requires clip < |t.clips|
    ensures multiset(Through(t, solo, t.clips[clip := c], frame)) + multiset(Through(t, solo, [t.clips[clip]], frame)) ==
            multiset(Through(t, solo, t.clips, frame)) + multiset(Through(t, solo, [c], frame))
  {
    hide Through;
    ThroughWithout(t, solo, clip, frame);
    var u := t.(clips := t.clips[clip := c]);
    ThroughWithout(u, solo, clip, frame);
    assert u.clips[..clip] + u.clips[clip + 1..] == t.clips[..clip] + t.clips[clip + 1..];
    SameThrough(t, u, solo, t.clips[..clip] + t.clips[clip + 1..], frame);
    SameThrough(t, u, solo, [c], frame);
    SameThrough(t, u, solo, u.clips, frame);
  }

  lemma SameThrough(t: Track, u: Track, solo: bool, clips: seq<Clip>, frame: int)
    requires t.muted == u.muted && t.solo == u.solo && t.strip == u.strip
    ensures Through(t, solo, clips, frame) == Through(u, solo, clips, frame)
  {
  }

  /** Swapping `was` for `now` in one part of a whole swaps it in the whole. */
  lemma SwapInWhole<T>(whole: multiset<T>, swapped: multiset<T>, part: multiset<T>, partSwapped: multiset<T>,
                       was: multiset<T>, now: multiset<T>)
    requires swapped + part == whole + partSwapped && partSwapped + was == part + now
    ensures swapped + was == whole + now
  {
    forall x ensures (swapped + was)[x] == (whole + now)[x] {
      assert (swapped + part)[x] == (whole + partSwapped)[x];
      assert (partSwapped + was)[x] == (part + now)[x];
    }
  }

  lemma RehomedWithin(tracks: seq<Track>, p: Place, c: Clip, solo: bool, frame: int)
    requires At(tracks, p)
    ensures multiset(TracksAt(Rehomed(tracks, p, c, p.track), solo, frame)) +
            multiset(Through(tracks[p.track], solo, [ClipAtPlace(tracks, p)], frame)) ==
            multiset(TracksAt(tracks, solo, frame)) + multiset(Through(tracks[p.track], solo, [c], frame))
  {
    hide Through, TracksAt, SortBy;
    var t := tracks[p.track];
    var clips := t.clips[p.clip := c];
    var u := t.(clips := SortBy(clips, ClipKey));
    ReplaceTrack(tracks, p.track, u, solo, frame);
    SameThrough(t, u, solo, u.clips, frame);
    SortedThrough(t, solo, clips, frame);
    ThroughUpdated(t, solo, p.clip, c, frame);
    SwapInWhole(multiset(TracksAt(tracks, solo, frame)), multiset(TracksAt(tracks[p.track := u], solo, frame)),
                multiset(Through(t, solo, t.clips, frame)), multiset(Through(t, solo, clips, frame)),
                multiset(Through(t, solo, [ClipAtPlace(tracks, p)], frame)), multiset(Through(t, solo, [c], frame)));
  }

  lemma RehomedAcross(tracks: seq<Track>, p: Place, c: Clip, to: nat, solo: bool, frame: int)
    requires At(tracks, p) && to < |tracks| && to != p.track
    ensures multiset(TracksAt(Rehomed(tracks, p, c, to), solo, frame)) +
            multiset(Through(tracks[p.track], solo, [ClipAtPlace(tracks, p)], frame)) ==
            multiset(TracksAt(tracks, solo, frame)) + multiset(Through(tracks[to], solo, [c], frame))
  {
    hide Through, TracksAt, SortBy;
    var t, home := tracks[p.track], tracks[to];
    var left := t.(clips := t.clips[..p.clip] + t.clips[p.clip + 1..]);
    var joined := home.clips + [c];
    var u := home.(clips := SortBy(joined, ClipKey));
    ReplaceTrack(tracks, p.track, left, solo, frame);
    ReplaceTrack(tracks[p.track := left], to, u, solo, frame);
    SameThrough(t, left, solo, left.clips, frame);
    ThroughWithout(t, solo, p.clip, frame);
    SameThrough(home, u, solo, u.clips, frame);
    SortedThrough(home, solo, joined, frame);
    ThroughConcat(home, solo, home.clips, [c], frame);
    var was, now := multiset(Through(t, solo, [ClipAtPlace(tracks, p)], frame)), multiset(Through(home, solo, [c], frame));
    var middle := multiset(TracksAt(tracks[p.track := left], solo, frame));
    assert tracks[p.track := left][to] == home;
    SwapInWhole(middle, multiset(TracksAt(Rehomed(tracks, p, c, to), solo, frame)),
                multiset(Through(home, solo, home.clips, frame)), multiset(Through(home, solo, joined, frame)), multiset{}, now);
    SwapInWhole(multiset(TracksAt(tracks, solo, frame)), middle,
                multiset(Through(t, solo, t.clips, frame)), multiset(Through(t, solo, left.clips, frame)),
                was, multiset{});
    assert middle + was == multiset(TracksAt(tracks, solo, frame));
    assert multiset(TracksAt(Rehomed(tracks, p, c, to), solo, frame)) == middle + now;
    assert middle + now + was == middle + was + now;
  }

  lemma RehomedSolo(tracks: seq<Track>, p: Place, c: Clip, to: nat)
    requires At(tracks, p) && to < |tracks|
    ensures AnySolo(Rehomed(tracks, p, c, to)) == AnySolo(tracks)
  {
    SameSolo(Rehomed(tracks, p, c, to), tracks);
  }

  /** A move takes what the clip played off its old track and puts the moved clip on the new one; all else is heard as before. */
  lemma MoveConserves(s: Session, op: Operation, after: Session, found: Option<Place>, frame: int)
    requires op.Move? && Finds(s.tracks, op.clipId, found) && Edits(s, op, Some(after))
    ensures
      var p := found.value;
      var to := TrackIndex(s.tracks, if op.target.Some? then op.target.value else s.tracks[p.track].id).value;
      var c := ClipAtPlace(s.tracks, p);
      multiset(Heard(after, frame)) + multiset(HeardThere(s, p, [c], frame)) ==
      multiset(Heard(s, frame)) + multiset(Through(s.tracks[to], AnySolo(s.tracks), [c.(start := SnapTo(op.start, op.snap))], frame))
  {
    hide Through, TracksAt, Rehomed, AnySolo, SnapTo;
    var p := found.value;
    var to := TrackIndex(s.tracks, if op.target.Some? then op.target.value else s.tracks[p.track].id).value;
    var c := ClipAtPlace(s.tracks, p).(start := SnapTo(op.start, op.snap));
    RehomedSolo(s.tracks, p, c, to);
    if to == p.track {
      RehomedWithin(s.tracks, p, c, AnySolo(s.tracks), frame);
    } else {
      RehomedAcross(s.tracks, p, c, to, AnySolo(s.tracks), frame);
    }
  }

  /** A clip moved by some frames plays what it did, that much later, under the automation of its new time. */
  lemma ShiftedClipAt(strip: Strip, c: Clip, delay: int, frame: int)
    ensures var was, now := ClipAt(strip, c, frame - delay), ClipAt(strip, c.(start := c.start + delay), frame);
      && |now| == |was|
      && (was != [] ==> now[0] == was[0].(volume := AutomationValue(strip.automation, frame, 1.0)))
  {
    hide AutomationValue;
  }

  /** Snapping finds the nearest grid line, a later one when two are as near. */
  lemma SnapNearest(frame: int, snap: int)
    requires snap >= 1
    ensures SnapTo(frame, snap) % snap == 0
    ensures -snap <= 2 * (frame - SnapTo(frame, snap)) < snap
  {
    var lifted := frame + snap / 2;
    var q := lifted / snap;
    assert lifted == q * snap + lifted % snap;
    MultipleOf(q, snap);
  }

  lemma MultipleOf(q: int, k: int)
    requires k >= 1
    ensures q * k % k == 0
  {
    var d := q * k / k - q;
    assert d * k + q * k % k == 0;
  }

  // ---- a group ----

  lemma {:induction false} SortedTracksAt(tracks: seq<Track>, sorted: seq<Track>, solo: bool, frame: int)
    requires |sorted| == |tracks|
    requires forall i :: 0 <= i < |tracks| ==> sorted[i] == tracks[i].(clips := SortBy(tracks[i].clips, ClipKey))
    ensures multiset(TracksAt(sorted, solo, frame)) == multiset(TracksAt(tracks, solo, frame))
  {
    hide Through, SortBy;
    if tracks != [] {
      SortedTracksAt(tracks[1..], sorted[1..], solo, frame);
      SortedThrough(tracks[0], solo, tracks[0].clips, frame);
      SameThrough(tracks[0], sorted[0], solo, sorted[0].clips, frame);
    }
  }

  /** The tracks with a group shifted, each still in its old order. */
  ghost function Regrouped(tracks: seq<Track>, ids: seq<Id>, applied: int): (r: seq<Track>)
    ensures |r| == |tracks|
    ensures forall i :: 0 <= i < |r| ==> r[i] == tracks[i].(clips := ShiftedClips(tracks[i].clips, ids, applied))
  {
    seq(|tracks|, i requires 0 <= i < |tracks| => tracks[i].(clips := ShiftedClips(tracks[i].clips, ids, applied)))
  }

  /**
   * A group move shifts every clip of the group by one distance and no other clip at all. The distance puts
   * the earliest of them on the grid line nearest to where it was asked to go, and takes none below zero.
   */
  lemma GroupKeepsShape(s: Session, op: Operation, after: Session) returns (start: int, applied: int)
    requires op.MoveMany? && Edits(s, op, Some(after))
    ensures -op.snap <= 2 * (op.delta - applied) < op.snap
    ensures forall c :: c in Group(AllClips(s.tracks), op.clipIds) ==> c.start + applied >= 0
    ensures EarliestOf(Group(AllClips(s.tracks), op.clipIds), start) && (start + applied) % op.snap == 0
    ensures forall frame :: multiset(Heard(after, frame)) ==
                            multiset(Heard(s.(tracks := Regrouped(s.tracks, op.clipIds, applied)), frame))
  {
    hide TracksAt, AnySolo, AllClips, Group, SortBy, SnapTo;
    var group := Group(AllClips(s.tracks), op.clipIds);
    GroupNotEmpty(AllClips(s.tracks), op.clipIds);
    start := EarliestIn(group);
    var snapped := SnapTo(start + op.delta, op.snap);
    applied := snapped - start;
    SnapNearest(start + op.delta, op.snap);
    var shifted := Regrouped(s.tracks, op.clipIds, applied);
    SameSolo(shifted, after.tracks);
    forall frame ensures multiset(Heard(after, frame)) == multiset(Heard(s.(tracks := shifted), frame)) {
      SortedTracksAt(shifted, after.tracks, AnySolo(after.tracks), frame);
    }
  }

  // ---- when a move is made, and the order it leaves ----

  /** The first track with the id. */
  ghost predicate Named(tracks: seq<Track>, i: nat, id: Id) {
    i < |tracks| && tracks[i].id == id && forall k :: 0 <= k < i ==> tracks[k].id != id
  }

  /** Audio goes on audio and aux tracks, MIDI on MIDI tracks, and a generator on any. */
  ghost predicate Hosts(kind: TrackKind, source: SourceKind) {
    match source
    case AudioFile => kind == AudioTrack || kind == AuxTrack
    case MidiSequence => kind == MidiTrack
    case Generator => true
  }

  /** Clips in the order they start, and those that start together in the order of their ids. */
  ghost predicate InOrder(clips: seq<Clip>) {
    forall i, j :: 0 <= i < j < |clips| ==>
      clips[i].start < clips[j].start || (clips[i].start == clips[j].start && clips[i].id <= clips[j].id)
  }

  /** Where a move asks its clip to go: the track it names, or the clip's own. */
  function Wanted(s: Session, op: Operation, p: Place): Id
    requires op.Move? && p.track < |s.tracks|
  {
    if op.target.Some? then op.target.value else s.tracks[p.track].id
  }

  lemma NamedIs(tracks: seq<Track>, i: nat, id: Id)
    requires Named(tracks, i, id)
    ensures TrackIndex(tracks, id) == Some(i)
  {
  }

  /**
   * A move is made exactly for a clip that is there, a start not before zero, a grid of at most a minute, and a track
   * that is there and takes the kind of source.
   */
  lemma MoveMadeExactly(s: Session, op: Operation, found: Option<Place>, r: Option<Session>)
    requires op.Move? && Finds(s.tracks, op.clipId, found) && Edits(s, op, r)
    ensures r.Some? <==>
      && found.Some? && op.start >= 0 && 1 <= op.snap <= LONGEST_SNAP
      && exists i: nat :: Named(s.tracks, i, Wanted(s, op, found.value))
                          && Hosts(s.tracks[i].kind, ClipAtPlace(s.tracks, found.value).source.kind)
  {
    hide SnapTo, Rehomed, Named;
    if found.Some? {
      var want := Wanted(s, op, found.value);
      var to := TrackIndex(s.tracks, want);
      if to.Some? { IndexNames(s.tracks, to.value, want); }
      forall i: nat | Named(s.tracks, i, want) ensures to == Some(i) {
        NamedIs(s.tracks, i, want);
      }
    }
  }

  lemma IndexNames(tracks: seq<Track>, i: nat, id: Id)
    requires TrackIndex(tracks, id) == Some(i)
    ensures Named(tracks, i, id)
  {
  }

  lemma SortedInOrder(clips: seq<Clip>)
    ensures InOrder(SortBy(clips, ClipKey)) && forall c :: c in SortBy(clips, ClipKey) <==> c in clips
  {
    hide SortBy, Ordered;
    SortByIsStableSort(clips, ClipKey);
    OrderedIs(SortBy(clips, ClipKey));
    forall c ensures c in SortBy(clips, ClipKey) <==> c in clips {
      assert c in multiset(SortBy(clips, ClipKey)) <==> c in multiset(clips);
    }
  }

  lemma OrderedIs(clips: seq<Clip>)
    requires Ordered(clips, ClipKey)
    ensures InOrder(clips)
  {
    forall i, j | 0 <= i < j < |clips|
      ensures clips[i].start < clips[j].start || (clips[i].start == clips[j].start && clips[i].id <= clips[j].id)
    {
      assert ClipKey(clips[i]).LessEq(ClipKey(clips[j]));
    }
  }

  /** A move leaves its clip, at the grid line, on the track it was asked to go to, and that track in order. */
  lemma MovedInOrder(s: Session, op: Operation, found: Option<Place>, after: Session, to: nat)
    requires op.Move? && Finds(s.tracks, op.clipId, found) && Edits(s, op, Some(after))
    requires found.Some? && Named(s.tracks, to, Wanted(s, op, found.value))
    ensures to < |after.tracks| && InOrder(after.tracks[to].clips)
    ensures ClipAtPlace(s.tracks, found.value).(start := SnapTo(op.start, op.snap)) in after.tracks[to].clips
  {
    hide SnapTo, SortBy, InOrder;
    var p := found.value;
    var c := ClipAtPlace(s.tracks, p).(start := SnapTo(op.start, op.snap));
    NamedIs(s.tracks, to, Wanted(s, op, p));
    var clips := if to == p.track then s.tracks[to].clips[p.clip := c] else s.tracks[to].clips + [c];
    SortedInOrder(clips);
    assert c == clips[if to == p.track then p.clip else |clips| - 1];
  }

  /**
   * A group move is made exactly for two up to 256 different clips that are all there, a distance of at most an hour,
   * a grid of at most a minute, and an earliest clip whose grid line is not before zero; it leaves every track in order.
   */
  lemma GroupMadeExactly(s: Session, op: Operation, r: Option<Session>, start: int)
    requires op.MoveMany? && Edits(s, op, r) && EarliestOf(Group(AllClips(s.tracks), op.clipIds), start)
    ensures r.Some? <==>
      && 2 <= |op.clipIds| <= 256 && (forall i, j :: 0 <= i < j < |op.clipIds| ==> op.clipIds[i] != op.clipIds[j])
      && (forall id :: id in op.clipIds ==> id != 0 && exists k :: 0 <= k < |AllClips(s.tracks)| && AllClips(s.tracks)[k].id == id)
      && -LONGEST_MOVE <= op.delta <= LONGEST_MOVE && 1 <= op.snap <= LONGEST_SNAP
      && SnapTo(start + op.delta, op.snap) >= 0
    ensures r.Some? ==> |r.value.tracks| == |s.tracks| && forall i :: 0 <= i < |s.tracks| ==> InOrder(r.value.tracks[i].clips)
  {
    hide AllClips, Group, EarliestOf, SnapTo, SortBy, InOrder;
    if r.Some? {
      forall i | 0 <= i < |s.tracks| ensures InOrder(r.value.tracks[i].clips) {
        SortedInOrder(ShiftedClips(s.tracks[i].clips, op.clipIds, SnapTo(start + op.delta, op.snap) - start));
      }
    }
  }
}
