/** The session document, and the normal form every stored document has. */
module DawDocument {
  import opened Numbers
  import opened Options
  import opened StableSort
  import opened Automation
  import opened ClipFades

  const MAX_TRACKS := 128
  const MAX_CLIPS := 4096
  const MAX_POINTS := 4096

  // Identifiers are opaque ordered tokens; 0 is the empty one.
  type Id = nat

  datatype SourceKind = AudioFile | MidiSequence | Generator

  datatype Source = Source(kind: SourceKind, uri: Id)

  datatype Clip = Clip(id: Id, start: int, length: int, offset: int, source: Source, muted: bool, fades: Fades)

  datatype TrackKind = AudioTrack | MidiTrack | AuxTrack | MasterTrack

  // What a track does to each of its clips.
  datatype Strip = Strip(gain: real, pan: real, bus: Id, automation: seq<Point>)

  datatype Track = Track(id: Id, kind: TrackKind, muted: bool, solo: bool, strip: Strip, clips: seq<Clip>)

  datatype Session = Session(id: Id, revision: int, tracks: seq<Track>)

  function PointKey(p: Point): Key { Key(p.frame, p.id, 0) }

  function ClipKey(c: Clip): Key { Key(c.start, c.id, 0) }

  function AllClips(tracks: seq<Track>): seq<Clip> {
    if tracks == [] then [] else AllClips(tracks[..|tracks| - 1]) + tracks[|tracks| - 1].clips
  }

  // ---- what normalizing accepts ----

  ghost predicate DistinctClips(clips: seq<Clip>) {
    forall i, j :: 0 <= i < j < |clips| ==> clips[i].id != clips[j].id
  }

  ghost predicate DistinctTracks(tracks: seq<Track>) {
    forall i, j :: 0 <= i < j < |tracks| ==> tracks[i].id != tracks[j].id
  }

  ghost predicate DistinctPoints(points: seq<Point>) {
    forall i, j :: 0 <= i < j < |points| ==> points[i].id != points[j].id && points[i].frame != points[j].frame
  }

  predicate FadesOk(f: Fades, length: int) {
    var span, offset := Or(f.span, length), Or(f.offset, 0);
    && span >= length && offset >= 0 && offset + length <= span
    && Max(0, f.inFrames) + Max(0, f.outFrames) <= span
  }

  predicate ClipOk(c: Clip) { c.id != 0 && c.length >= 1 && FadesOk(c.fades, c.length) }

  predicate PointOk(p: Point) { p.id != 0 && p.frame >= 0 && 0.0 <= p.value <= 2.0 }

  ghost predicate LaneOk(points: seq<Point>) {
    && |points| <= MAX_POINTS && DistinctPoints(points)
    && (forall i :: 0 <= i < |points| ==> PointOk(points[i]))
  }

  ghost predicate ClipsOk(clips: seq<Clip>) { forall i :: 0 <= i < |clips| ==> ClipOk(clips[i]) }

  ghost predicate TrackOk(t: Track) { t.id != 0 && LaneOk(t.strip.automation) }

  ghost predicate TracksOk(tracks: seq<Track>) { forall i :: 0 <= i < |tracks| ==> TrackOk(tracks[i]) }

  /** A document normalizing accepts: bounded, with distinct identifiers, and every clip and point in range. */
  ghost predicate Acceptable(s: Session) {
    && |s.tracks| <= MAX_TRACKS && DistinctTracks(s.tracks) && TracksOk(s.tracks)
    && |AllClips(s.tracks)| <= MAX_CLIPS && DistinctClips(AllClips(s.tracks)) && ClipsOk(AllClips(s.tracks))
  }

  // ---- what normalizing makes of it ----

  function NormalFades(f: Fades, length: int): Fades {
    var anchored := f.span.Some? || f.offset.Some?;
    Fades(Max(0, f.inFrames), Max(0, f.outFrames), f.curve,
          if anchored then Some(Or(f.span, length)) else None, if anchored then Some(Or(f.offset, 0)) else None)
  }

  function NormalClip(c: Clip): Clip {
    c.(start := Max(0, c.start), offset := Max(0, c.offset), fades := NormalFades(c.fades, c.length))
  }

  function NormalClips(clips: seq<Clip>): (r: seq<Clip>)
    ensures |r| == |clips| && forall i :: 0 <= i < |r| ==> r[i] == NormalClip(clips[i])
  {
    seq(|clips|, i requires 0 <= i < |clips| => NormalClip(clips[i]))
  }

  function NormalStrip(s: Strip): Strip {
    Strip(Clamp(s.gain, 0.0, 4.0), Clamp(s.pan, -1.0, 1.0), s.bus, SortBy(s.automation, PointKey))
  }

  function NormalTrack(t: Track): Track { t.(strip := NormalStrip(t.strip), clips := NormalClips(t.clips)) }

  function NormalTracks(tracks: seq<Track>): (r: seq<Track>)
    ensures |r| == |tracks| && forall i :: 0 <= i < |r| ==> r[i] == NormalTrack(tracks[i])
  {
    seq(|tracks|, i requires 0 <= i < |tracks| => NormalTrack(tracks[i]))
  }

  function Normal(s: Session): Session { s.(revision := Max(0, s.revision), tracks := NormalTracks(s.tracks)) }

  ghost function Normalize(s: Session): Option<Session> {
    if Acceptable(s) then Some(Normal(s)) else None
  }

  // ---- the loops ----

  lemma AllClipsSnoc(tracks: seq<Track>, t: Track)
    ensures AllClips(tracks + [t]) == AllClips(tracks) + t.clips
  {
    assert (tracks + [t])[..|tracks|] == tracks;
  }

  /** The clips of the first tracks come first. */
  lemma {:induction false} AllClipsPrefix(tracks: seq<Track>, n: nat)
    requires n <= |tracks|
    ensures AllClips(tracks[..n]) <= AllClips(tracks)
    decreases |tracks|
  {
    if n < |tracks| {
      AllClipsPrefix(tracks[..|tracks| - 1], n);
      assert tracks[..|tracks| - 1][..n] == tracks[..n];
    } else {
      assert tracks[..n] == tracks;
    }
  }

  /** Reads a lane, refusing a bad or repeated point, and sorts it. */
  method NormalizeLane(points: seq<Point>) returns (r: Option<seq<Point>>)
    ensures r == if LaneOk(points) then Some(SortBy(points, PointKey)) else None
  {
    if |points| > MAX_POINTS { return None; }
    var ids, frames: set<int> := {}, {};
    for i := 0 to |points|
      invariant forall k :: 0 <= k < i ==> PointOk(points[k])
      invariant DistinctPoints(points[..i])
      invariant forall id: int :: id in ids <==> exists k :: 0 <= k < i && points[k].id == id
      invariant forall f :: f in frames <==> exists k :: 0 <= k < i && points[k].frame == f
    {
      var p := points[i];
      if !PointOk(p) || p.id in ids || p.frame in frames { return None; }
      ids, frames := ids + {p.id}, frames + {p.frame};
    }
    assert points[..|points|] == points;
    r := Some(SortBy(points, PointKey));
  }

  /** Reads the clips of one track; `seen` holds the ids of all clips before them. */
  method NormalizeClips(ghost before: seq<Clip>, count: nat, clips: seq<Clip>, seen: set<Id>)
    returns (r: Option<seq<Clip>>, seenAfter: set<Id>)
    requires forall id :: id in seen <==> exists k :: 0 <= k < |before| && before[k].id == id
    requires count == |before| <= MAX_CLIPS && DistinctClips(before)
    ensures r.Some? <==> ClipsOk(clips) && DistinctClips(before + clips) && |before + clips| <= MAX_CLIPS
    ensures r.Some? ==> r.value == NormalClips(clips)
    ensures r.Some? ==> forall id :: id in seenAfter <==> exists k :: 0 <= k < |before + clips| && (before + clips)[k].id == id
  {
    var normalized := [];
    ghost var all := before + clips;
    seenAfter := seen;
    for i := 0 to |clips|
      invariant count + i <= MAX_CLIPS
      invariant normalized == NormalClips(clips[..i])
      invariant ClipsOk(clips[..i]) && DistinctClips(all[..count + i])
      invariant forall id :: id in seenAfter <==> exists k :: 0 <= k < count + i && all[k].id == id
    {
      var c := clips[i];
      assert all[count + i] == c;
      if count + i + 1 > MAX_CLIPS || !ClipOk(c) || c.id in seenAfter { return None, seenAfter; }
      seenAfter := seenAfter + {c.id};
      normalized := normalized + [NormalClip(c)];
    }
    assert clips[..|clips|] == clips && all[..|all|] == all;
    r := Some(normalized);
  }

  method NormalizeSession(s: Session) returns (r: Option<Session>)
    ensures r == Normalize(s)
  {
    hide SortBy, AllClips;
    if |s.tracks| > MAX_TRACKS { return None; }
    var seenTracks: set<Id>, seenClips: set<Id>, normalized: seq<Track> := {}, {}, [];
    var countClips := 0;
    NoClips();
    for i := 0 to |s.tracks|
      invariant normalized == NormalTracks(s.tracks[..i])
      invariant TracksOk(s.tracks[..i]) && DistinctTracks(s.tracks[..i])
      invariant forall id :: id in seenTracks <==> exists k :: 0 <= k < i && s.tracks[k].id == id
      invariant var clips := AllClips(s.tracks[..i]);
        && countClips == |clips| <= MAX_CLIPS && DistinctClips(clips) && ClipsOk(clips)
        && forall id :: id in seenClips <==> exists k :: 0 <= k < |clips| && clips[k].id == id
    {
      var t := s.tracks[i];
      ghost var clips := AllClips(s.tracks[..i]);
      assert s.tracks[..i + 1] == s.tracks[..i] + [t];
      AllClipsSnoc(s.tracks[..i], t);
      AllClipsPrefix(s.tracks, i + 1);
      if t.id == 0 || t.id in seenTracks { return None; }
      seenTracks := seenTracks + {t.id};
      var read, seen := NormalizeClips(clips, countClips, t.clips, seenClips);
      PartAccepted(clips, t.clips, AllClips(s.tracks));
      if read.None? { return None; }
      seenClips, countClips := seen, countClips + |t.clips|;
      var lane := NormalizeLane(t.strip.automation);
      if lane.None? { return None; }
      normalized := normalized + [t.(strip := NormalStrip(t.strip), clips := read.value)];
    }
    assert s.tracks[..|s.tracks|] == s.tracks;
    r := Some(s.(revision := Max(0, s.revision), tracks := normalized));
  }

  /** What holds of all clips holds of the first of them. */
  lemma PartAccepted(before: seq<Clip>, more: seq<Clip>, all: seq<Clip>)
    requires before + more <= all
    ensures ClipsOk(all) ==> ClipsOk(more)
    ensures DistinctClips(all) ==> DistinctClips(before + more)
  {
    forall i | 0 <= i < |more| ensures ClipsOk(all) ==> ClipOk(more[i]) {
      assert (before + more)[|before| + i] == more[i];
    }
  }

  lemma NoClips()
    ensures AllClips([]) == []
  {
  }

  // ---- the normal form ----

  ghost predicate ClampedClip(c: Clip) {
    && c.start >= 0 && c.offset >= 0 && c.fades.inFrames >= 0 && c.fades.outFrames >= 0
    && (c.fades.span.Some? <==> c.fades.offset.Some?)
  }

  ghost predicate ClampedStrip(s: Strip) {
    0.0 <= s.gain <= 4.0 && -1.0 <= s.pan <= 1.0 && Ordered(s.automation, PointKey)
  }

  ghost predicate ClampedClips(clips: seq<Clip>) { forall i :: 0 <= i < |clips| ==> ClampedClip(clips[i]) }

  ghost predicate ClampedTracks(tracks: seq<Track>) {
    forall i :: 0 <= i < |tracks| ==> ClampedStrip(tracks[i].strip) && ClampedClips(tracks[i].clips)
  }

  /** Every field in its range, every lane in order, every anchor whole. */
  ghost predicate Clamped(s: Session) { s.revision >= 0 && ClampedTracks(s.tracks) }

  lemma ClipsUnchanged(clips: seq<Clip>)
    ensures ClampedClips(clips) <==> NormalClips(clips) == clips
  {
    forall i | 0 <= i < |clips| ensures ClampedClip(clips[i]) <==> NormalClip(clips[i]) == clips[i] {
    }
    if NormalClips(clips) == clips {
      forall i | 0 <= i < |clips| ensures ClampedClip(clips[i]) {
        assert NormalClips(clips)[i] == clips[i];
      }
    }
  }

  lemma StripUnchanged(s: Strip)
    ensures ClampedStrip(s) <==> NormalStrip(s) == s
  {
    hide SortBy;
    SortByIsStableSort(s.automation, PointKey);
    if Ordered(s.automation, PointKey) { SortByOrdered(s.automation, PointKey); }
  }

  /** Normalizing changes nothing exactly in the documents already in normal form. */
  lemma NormalOnlyMovesUnclamped(s: Session)
    ensures Clamped(s) <==> Normal(s) == s
  {
    hide NormalStrip, NormalClips, ClampedStrip, ClampedClips;
    forall i | 0 <= i < |s.tracks|
      ensures ClampedStrip(s.tracks[i].strip) && ClampedClips(s.tracks[i].clips) <==> NormalTrack(s.tracks[i]) == s.tracks[i]
    {
      StripUnchanged(s.tracks[i].strip);
      ClipsUnchanged(s.tracks[i].clips);
    }
    if Normal(s) == s {
      forall i | 0 <= i < |s.tracks| ensures NormalTrack(s.tracks[i]) == s.tracks[i] {
        assert NormalTracks(s.tracks)[i] == s.tracks[i];
      }
    }
  }

  lemma NormalIsClamped(s: Session)
    ensures Clamped(Normal(s))
  {
    hide SortBy;
    forall i | 0 <= i < |s.tracks| ensures ClampedStrip(NormalTracks(s.tracks)[i].strip) {
      SortByIsStableSort(s.tracks[i].strip.automation, PointKey);
    }
  }

  ghost predicate Apart(p: Point, s: seq<Point>) {
    forall k :: 0 <= k < |s| ==> s[k].id != p.id && s[k].frame != p.frame
  }

  lemma {:induction false} InsertDistinct(p: Point, s: seq<Point>)
    requires DistinctPoints(s) && Apart(p, s)
    ensures DistinctPoints(Insert(p, s, PointKey))
  {
    if s != [] && !PointKey(p).LessEq(PointKey(s[0])) {
      var rest := Insert(p, s[1..], PointKey);
      InsertDistinct(p, s[1..]);
      InsertMembers(p, s[1..], PointKey);
      forall j | 0 <= j < |rest| ensures rest[j].id != s[0].id && rest[j].frame != s[0].frame {
        assert rest[j] in multiset(rest);
        assert rest[j] == p || rest[j] in s[1..];
      }
    }
  }

  lemma {:induction false} SortedDistinct(points: seq<Point>)
    requires DistinctPoints(points)
    ensures DistinctPoints(SortBy(points, PointKey))
  {
    hide Insert;
    if points != [] {
      var rest := SortBy(points[1..], PointKey);
      SortedDistinct(points[1..]);
      SortByIsStableSort(points[1..], PointKey);
      forall k | 0 <= k < |rest| ensures rest[k].id != points[0].id && rest[k].frame != points[0].frame {
        assert rest[k] in multiset(rest);
        assert rest[k] in points[1..];
      }
      InsertDistinct(points[0], rest);
    }
  }

  lemma SortedLaneOk(points: seq<Point>)
    requires LaneOk(points)
    ensures LaneOk(SortBy(points, PointKey))
  {
    hide SortBy, DistinctPoints, PointOk;
    var sorted := SortBy(points, PointKey);
    SortedDistinct(points);
    SortByIsStableSort(points, PointKey);
    forall k | 0 <= k < |sorted| ensures PointOk(sorted[k]) {
      assert sorted[k] in multiset(sorted);
      assert sorted[k] in points;
    }
  }

  lemma {:induction false} AllClipsNormal(tracks: seq<Track>)
    ensures AllClips(NormalTracks(tracks)) == NormalClips(AllClips(tracks))
  {
    hide NormalTracks, NormalClips;
    if tracks != [] {
      var before, last := tracks[..|tracks| - 1], tracks[|tracks| - 1];
      AllClipsNormal(before);
      NormalTracksPrefix(tracks);
      NormalClipsConcat(AllClips(before), last.clips);
    }
  }

  lemma NormalTracksPrefix(tracks: seq<Track>)
    requires tracks != []
    ensures NormalTracks(tracks)[..|tracks| - 1] == NormalTracks(tracks[..|tracks| - 1])
    ensures NormalTracks(tracks)[|tracks| - 1].clips == NormalClips(tracks[|tracks| - 1].clips)
  {
    hide NormalStrip, NormalClips;
  }

  lemma NormalClipsConcat(a: seq<Clip>, b: seq<Clip>)
    ensures NormalClips(a + b) == NormalClips(a) + NormalClips(b)
  {
    hide NormalClip;
  }

  lemma FadesStayOk(f: Fades, length: int)
    ensures FadesOk(f, length) ==> FadesOk(NormalFades(f, length), length)
  {
  }

  lemma NormalAcceptable(s: Session)
    requires Acceptable(s)
    ensures Acceptable(Normal(s))
  {
    hide SortBy, AllClips, FadesOk, NormalFades;
    var clips := AllClips(s.tracks);
    AllClipsNormal(s.tracks);
    forall i | 0 <= i < |clips| ensures ClipOk(NormalClip(clips[i])) {
      assert ClipOk(clips[i]);
      FadesStayOk(clips[i].fades, clips[i].length);
    }
    forall i | 0 <= i < |s.tracks| ensures TrackOk(NormalTracks(s.tracks)[i]) {
      assert TrackOk(s.tracks[i]);
      SortedLaneOk(s.tracks[i].strip.automation);
    }
  }

  /** A stored document reads back as itself: normalizing twice is normalizing once. */
  lemma NormalizeIdempotent(s: Session)
    ensures Normalize(s).Some? ==> Normalize(Normalize(s).value) == Normalize(s)
  {
    hide Acceptable, Normal, Clamped;
    if Acceptable(s) {
      NormalAcceptable(s);
      NormalIsClamped(s);
      NormalOnlyMovesUnclamped(Normal(s));
    }
  }

  // ---- what is kept ----

  /** `y` is the value of the range nearest to `x`. */
  ghost predicate Nearest(y: real, x: real, low: real, high: real) {
    low <= y <= high && (y == x || (y == low && x < low) || (y == high && x > high))
  }

  /** No frame counts below zero are kept, and the rest of a clip is; only an anchor given by half is completed. */
  ghost predicate Tidied(c: Clip, was: Clip) {
    && c.start == Max(0, was.start) && c.offset == Max(0, was.offset)
    && c.fades.inFrames == Max(0, was.fades.inFrames) && c.fades.outFrames == Max(0, was.fades.outFrames)
    && c == was.(start := c.start, offset := c.offset, fades := c.fades) && c.fades.curve == was.fades.curve
    && (c.fades.span.Some? <==> was.fades.span.Some? || was.fades.offset.Some?)
    && (c.fades.offset.Some? <==> c.fades.span.Some?)
    && (was.fades.span.Some? ==> c.fades.span == was.fades.span) && (was.fades.offset.Some? ==> c.fades.offset == was.fades.offset)
    && Span(c.fades, c.length) == Span(was.fades, was.length) && Or(c.fades.offset, 0) == Or(was.fades.offset, 0)
  }

  /**
   * What normalizing keeps: gains and pans come to the nearest value in range, points into order, frame counts to zero
   * if they are below, and everything else stays where and as it is.
   */
  lemma NormalKeeps(s: Session, i: nat, k: nat)
    requires i < |s.tracks|
    ensures var n := Normal(s); var t, was := n.tracks[i], s.tracks[i];
      && n.id == s.id && n.revision == Max(0, s.revision) && |n.tracks| == |s.tracks|
      && t.id == was.id && t.kind == was.kind && t.muted == was.muted && t.solo == was.solo && t.strip.bus == was.strip.bus
      && Nearest(t.strip.gain, was.strip.gain, 0.0, 4.0) && Nearest(t.strip.pan, was.strip.pan, -1.0, 1.0)
      && multiset(t.strip.automation) == multiset(was.strip.automation) && Ordered(t.strip.automation, PointKey)
      && |t.clips| == |was.clips| && (k < |was.clips| ==> Tidied(t.clips[k], was.clips[k]))
  {
    hide SortBy, Ordered;
    SortByIsStableSort(s.tracks[i].strip.automation, PointKey);
  }

  // ---- what is accepted, place by place ----

  function ClipCount(tracks: seq<Track>): nat {
    if tracks == [] then 0 else ClipCount(tracks[..|tracks| - 1]) + |tracks[|tracks| - 1].clips|
  }

  /** No two places of the session hold clips with one id. */
  ghost predicate OneClipPerId(tracks: seq<Track>) {
    && (forall i :: 0 <= i < |tracks| ==> DistinctClips(tracks[i].clips))
    && (forall i, j, x, y :: 0 <= i < j < |tracks| && x in tracks[i].clips && y in tracks[j].clips ==> x.id != y.id)
  }

  lemma {:induction false} AllClipsCounted(tracks: seq<Track>)
    ensures |AllClips(tracks)| == ClipCount(tracks)
    ensures forall c :: c in AllClips(tracks) <==> exists i :: 0 <= i < |tracks| && c in tracks[i].clips
  {
    if tracks != [] {
      var m := |tracks| - 1;
      AllClipsCounted(tracks[..m]);
      assert forall i :: 0 <= i < m ==> tracks[..m][i] == tracks[i];
    }
  }

  lemma DistinctConcat(a: seq<Clip>, b: seq<Clip>)
    ensures DistinctClips(a + b) <==>
      DistinctClips(a) && DistinctClips(b) && forall x, y :: x in a && y in b ==> x.id != y.id
  {
    var all := a + b;
    if DistinctClips(all) {
      forall i, j | 0 <= i < j < |b| ensures b[i].id != b[j].id {
        assert all[|a| + i] == b[i] && all[|a| + j] == b[j];
      }
      forall x, y | x in a && y in b ensures x.id != y.id {
        var i :| 0 <= i < |a| && a[i] == x;
        var j :| 0 <= j < |b| && b[j] == y;
        assert all[i] == x && all[|a| + j] == y;
      }
      forall i, j | 0 <= i < j < |a| ensures a[i].id != a[j].id {
        assert all[i] == a[i] && all[j] == a[j];
      }
    }
  }

  lemma {:induction false} DistinctByPlace(tracks: seq<Track>)
    ensures DistinctClips(AllClips(tracks)) <==> OneClipPerId(tracks)
  {
    hide DistinctClips;
    if tracks == [] {
      NoneDistinct();
    } else {
      var m := |tracks| - 1;
      var before, last := tracks[..m], tracks[m];
      DistinctByPlace(before);
      AllClipsCounted(before);
      DistinctConcat(AllClips(before), last.clips);
      PlacesConcat(before, last);
      assert tracks == before + [last];
    }
  }

  lemma NoneDistinct()
    ensures DistinctClips([])
  {
  }

  lemma PlacesConcat(before: seq<Track>, last: Track)
    ensures OneClipPerId(before + [last]) <==>
      && OneClipPerId(before) && DistinctClips(last.clips)
      && (forall i, x, y :: 0 <= i < |before| && x in before[i].clips && y in last.clips ==> x.id != y.id)
  {
    hide DistinctClips;
    var all := before + [last];
    assert all[|before|] == last && forall i :: 0 <= i < |before| ==> all[i] == before[i];
  }

  /** The ramps lie inside the span they belong to, and so does the clip. */
  ghost predicate FadesFit(c: Clip) {
    var span := if c.fades.span.Some? then c.fades.span.value else c.length;
    var offset := if c.fades.offset.Some? then c.fades.offset.value else 0;
    var up, down := if c.fades.inFrames > 0 then c.fades.inFrames else 0, if c.fades.outFrames > 0 then c.fades.outFrames else 0;
    offset >= 0 && c.length <= span && offset + c.length <= span && up + down <= span
  }

  /** The documents that are accepted, read off their tracks, clips and points. */
  lemma AcceptedExactly(s: Session)
    ensures Normalize(s).Some? <==>
      && |s.tracks| <= MAX_TRACKS && ClipCount(s.tracks) <= MAX_CLIPS && OneClipPerId(s.tracks)
      && (forall i, j :: 0 <= i < j < |s.tracks| ==> s.tracks[i].id != s.tracks[j].id)
      && (forall i :: 0 <= i < |s.tracks| ==> s.tracks[i].id != 0 && PointsFit(s.tracks[i].strip.automation))
      && (forall i, c :: 0 <= i < |s.tracks| && c in s.tracks[i].clips ==> c.id != 0 && c.length >= 1 && FadesFit(c))
  {
    hide AllClips, DistinctClips, OneClipPerId, ClipsOk, FadesFit, LaneOk, PointsFit;
    DistinctByPlace(s.tracks);
    AllClipsCounted(s.tracks);
    ClipsByPlace(s.tracks);
    forall i | 0 <= i < |s.tracks| ensures LaneOk(s.tracks[i].strip.automation) <==> PointsFit(s.tracks[i].strip.automation) {
      LaneFits(s.tracks[i].strip.automation);
    }
  }

  lemma LaneFits(points: seq<Point>)
    ensures LaneOk(points) <==> PointsFit(points)
  {
  }

  lemma ClipsByPlace(tracks: seq<Track>)
    ensures ClipsOk(AllClips(tracks)) <==>
      forall i, c :: 0 <= i < |tracks| && c in tracks[i].clips ==> c.id != 0 && c.length >= 1 && FadesFit(c)
  {
    hide AllClips, FadesOk, FadesFit;
    AllClipsCounted(tracks);
    var all := AllClips(tracks);
    if ClipsOk(all) {
      forall i, c | 0 <= i < |tracks| && c in tracks[i].clips ensures c.id != 0 && c.length >= 1 && FadesFit(c) {
        assert c in all;
        var k :| 0 <= k < |all| && all[k] == c;
        FadesFitOk(c);
      }
    }
    if forall i, c :: 0 <= i < |tracks| && c in tracks[i].clips ==> c.id != 0 && c.length >= 1 && FadesFit(c) {
      forall k | 0 <= k < |all| ensures ClipOk(all[k]) {
        assert all[k] in all;
        FadesFitOk(all[k]);
      }
    }
  }

  lemma FadesFitOk(c: Clip)
    ensures FadesOk(c.fades, c.length) <==> FadesFit(c)
  {
  }

  /** A lane of bounded length, its points at different frames with different ids, and no value over two. */
  ghost predicate PointsFit(points: seq<Point>) {
    && |points| <= MAX_POINTS
    && (forall i :: 0 <= i < |points| ==> points[i].id != 0 && points[i].frame >= 0 && 0.0 <= points[i].value <= 2.0)
    && (forall i, j :: 0 <= i < j < |points| ==> points[i].id != points[j].id)
    && (forall i, j :: 0 <= i < j < |points| ==> points[i].frame != points[j].frame)
  }
}
