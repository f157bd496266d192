/** What a session sounds like, frame by frame, and what each clip edit does to it. */
module DawMeaning {
  import opened Numbers
  import opened Options
  import opened Sequences
  import opened Automation
  import opened ClipFades
  import opened DawDocument
  import opened DawEdits

  // What one clip adds to one frame.
  datatype Contribution = Contribution(source: Source, sourceFrame: int, gain: real, pan: real, bus: Id, volume: real, fade: Fade)

  function ClipAt(strip: Strip, c: Clip, frame: int): seq<Contribution> {
    if !c.muted && c.start <= frame < c.start + c.length then
      [Contribution(c.source, c.offset + frame - c.start, strip.gain, strip.pan, strip.bus,
                    AutomationValue(strip.automation, frame, 1.0), FadeAt(c.fades, c.length, frame - c.start))]
    else []
  }

  function ClipsAt(strip: Strip, clips: seq<Clip>, frame: int): seq<Contribution> {
    if clips == [] then [] else ClipAt(strip, clips[0], frame) + ClipsAt(strip, clips[1..], frame)
  }

  function AnySolo(tracks: seq<Track>): bool { exists i :: 0 <= i < |tracks| && tracks[i].solo }

  predicate Audible(t: Track, solo: bool) { !t.muted && (!solo || t.solo) }

  function Through(t: Track, solo: bool, clips: seq<Clip>, frame: int): seq<Contribution> {
    if Audible(t, solo) then ClipsAt(t.strip, clips, frame) else []
  }

  function TracksAt(tracks: seq<Track>, solo: bool, frame: int): seq<Contribution> {
    if tracks == [] then []
    else Through(tracks[0], solo, tracks[0].clips, frame) + TracksAt(tracks[1..], solo, frame)
  }

  /** Everything heard at a frame, track by track and clip by clip. */
  function Heard(s: Session, frame: int): seq<Contribution> { TracksAt(s.tracks, AnySolo(s.tracks), frame) }

  // ---- concatenation ----

  lemma {:induction false} ClipsAtConcat(strip: Strip, a: seq<Clip>, b: seq<Clip>, frame: int)
    ensures ClipsAt(strip, a + b, frame) == ClipsAt(strip, a, frame) + ClipsAt(strip, b, frame)
  {
    hide ClipAt;
    if a == [] {
      assert a + b == b;
    } else {
      ClipsAtConcat(strip, a[1..], b, frame);
      var all := a + b;
      assert all[0] == a[0] && all[1..] == a[1..] + b;
      Associative(ClipAt(strip, a[0], frame), ClipsAt(strip, a[1..], frame), ClipsAt(strip, b, frame));
    }
  }

  lemma {:induction false} TracksAtConcat(a: seq<Track>, b: seq<Track>, solo: bool, frame: int)
    ensures TracksAt(a + b, solo, frame) == TracksAt(a, solo, frame) + TracksAt(b, solo, frame)
  {
    hide Through;
    if a == [] {
      assert a + b == b;
    } else {
      TracksAtConcat(a[1..], b, solo, frame);
      var all := a + b;
      assert all[0] == a[0] && all[1..] == a[1..] + b;
      Associative(Through(a[0], solo, a[0].clips, frame), TracksAt(a[1..], solo, frame), TracksAt(b, solo, frame));
    }
  }

  lemma ThroughConcat(t: Track, solo: bool, a: seq<Clip>, b: seq<Clip>, frame: int)
    ensures Through(t, solo, a + b, frame) == Through(t, solo, a, frame) + Through(t, solo, b, frame)
  {
    ClipsAtConcat(t.strip, a, b, frame);
  }

  lemma TracksAround(tracks: seq<Track>, i: nat, solo: bool, frame: int)
    requires i < |tracks|
    ensures TracksAt(tracks, solo, frame) ==
            TracksAt(tracks[..i], solo, frame) + Through(tracks[i], solo, tracks[i].clips, frame) + TracksAt(tracks[i + 1..], solo, frame)
  {
    hide Through;
    var rest := tracks[i..];
    assert tracks == tracks[..i] + rest;
    TracksAtConcat(tracks[..i], rest, solo, frame);
    assert rest[0] == tracks[i] && rest[1..] == tracks[i + 1..];
  }

  // ---- one clip replaced in place ----

  ghost function HeardBefore(s: Session, p: Place, frame: int): seq<Contribution>
    requires At(s.tracks, p)
  {
    var t, solo := s.tracks[p.track], AnySolo(s.tracks);
    TracksAt(s.tracks[..p.track], solo, frame) + Through(t, solo, t.clips[..p.clip], frame)
  }

  ghost function HeardAfter(s: Session, p: Place, frame: int): seq<Contribution>
    requires At(s.tracks, p)
  {
    var t, solo := s.tracks[p.track], AnySolo(s.tracks);
    Through(t, solo, t.clips[p.clip + 1..], frame) + TracksAt(s.tracks[p.track + 1..], solo, frame)
  }

  /** What some clips sound like in the place of clip `p`. */
  ghost function HeardThere(s: Session, p: Place, clips: seq<Clip>, frame: int): seq<Contribution>
    requires At(s.tracks, p)
  {
    Through(s.tracks[p.track], AnySolo(s.tracks), clips, frame)
  }

  lemma SameSolo(a: seq<Track>, b: seq<Track>)
    requires |a| == |b| && forall i :: 0 <= i < |a| ==> a[i].solo == b[i].solo
    ensures AnySolo(a) == AnySolo(b)
  {
    if AnySolo(a) { var i :| 0 <= i < |a| && a[i].solo; assert b[i].solo; }
    if AnySolo(b) { var i :| 0 <= i < |b| && b[i].solo; assert a[i].solo; }
  }

  /** A clip is heard between what its session plays before and after it, and so are the pieces that replace it. */
  lemma HeardAround(s: Session, p: Place, pieces: seq<Clip>, frame: int)
    requires At(s.tracks, p)
    ensures Heard(s, frame) ==
            HeardBefore(s, p, frame) + HeardThere(s, p, [ClipAtPlace(s.tracks, p)], frame) + HeardAfter(s, p, frame)
    ensures Heard(Spliced(s, p, pieces), frame) ==
            HeardBefore(s, p, frame) + HeardThere(s, p, pieces, frame) + HeardAfter(s, p, frame)
  {
    hide TracksAt, ClipsAt, Through, HeardBefore, HeardAfter, HeardThere;
    SplicedAround(s, p, [ClipAtPlace(s.tracks, p)], frame);
    var t := s.tracks[p.track];
    assert t.clips[..p.clip] + [t.clips[p.clip]] + t.clips[p.clip + 1..] == t.clips;
    assert Spliced(s, p, [ClipAtPlace(s.tracks, p)]).tracks == s.tracks;
    SplicedAround(s, p, pieces, frame);
  }

  lemma SplicedAround(s: Session, p: Place, pieces: seq<Clip>, frame: int)
    requires At(s.tracks, p)
    ensures Heard(Spliced(s, p, pieces), frame) ==
            HeardBefore(s, p, frame) + HeardThere(s, p, pieces, frame) + HeardAfter(s, p, frame)
  {
    hide ClipsAt, TracksAt, AnySolo;
    var after := Spliced(s, p, pieces);
    var t, clips, solo := after.tracks[p.track], s.tracks[p.track].clips, AnySolo(s.tracks);
    SameSolo(s.tracks, after.tracks);
    TracksAround(after.tracks, p.track, solo, frame);
    ThroughConcat(t, solo, clips[..p.clip] + pieces, clips[p.clip + 1..], frame);
    ThroughConcat(t, solo, clips[..p.clip], pieces, frame);
    assert after.tracks[..p.track] == s.tracks[..p.track] && after.tracks[p.track + 1..] == s.tracks[p.track + 1..];
  }

  /** The two halves of a clip play, between them, exactly what the whole played, down to the ramps of its fades. */
  lemma HalvesAt(strip: Strip, c: Clip, relative: int, newId: Id, frame: int)
    requires 0 < relative < c.length
    ensures ClipsAt(strip, Halves(c, relative, newId), frame) == ClipsAt(strip, [c], frame)
  {
    var halves := Halves(c, relative, newId);
    assert halves == [halves[0]] + [halves[1]];
    ClipsAtConcat(strip, [halves[0]], [halves[1]], frame);
    OneClipAt(strip, halves[0], frame);
    OneClipAt(strip, halves[1], frame);
    OneClipAt(strip, c, frame);
  }

  lemma OneClipAt(strip: Strip, c: Clip, frame: int)
    ensures ClipsAt(strip, [c], frame) == ClipAt(strip, c, frame)
  {
    assert [c][1..] == [];
  }

  /** Splitting a clip changes nothing that is heard, at any frame. */
  lemma SplitKeepsMeaning(s: Session, clipId: Id, splitFrame: int, newClipId: Id, after: Session, found: Option<Place>, frame: int)
    requires Finds(s.tracks, clipId, found) && Edits(s, Split(clipId, splitFrame, newClipId), Some(after))
    ensures Heard(after, frame) == Heard(s, frame)
  {
    hide Heard, Halves, Spliced;
    var p := found.value;
    var c := ClipAtPlace(s.tracks, p);
    var relative := splitFrame - c.start;
    HeardAround(s, p, Halves(c, relative, newClipId), frame);
    HalvesAt(s.tracks[p.track].strip, c, relative, newClipId, frame);
  }

  // ---- trimming ----

  ghost predicate Kept(c: Clip, trimStart: int, trimEnd: int, frame: int) {
    c.start + trimStart <= frame < c.start + c.length - trimEnd
  }

  /** A trim leaves the ramps alone: the fade is anchored, or no ramp has its end cut off. */
  ghost predicate RampsSurvive(c: Clip, trimStart: int, trimEnd: int) {
    c.fades.span.Some? || ((c.fades.inFrames == 0 || trimStart == 0) && (c.fades.outFrames == 0 || trimEnd == 0))
  }

  /** The trimmed clip plays exactly the kept frames of the clip, just when its ramps survive; otherwise its fade is re-anchored. */
  lemma TrimRestricts(strip: Strip, c: Clip, trimStart: int, trimEnd: int)
    requires ClampedClip(c) && !c.muted && 0 <= trimStart && 0 <= trimEnd && trimStart + trimEnd < c.length
    ensures (forall frame :: ClipAt(strip, Trimmed(c, trimStart, trimEnd), frame) ==
                             if Kept(c, trimStart, trimEnd, frame) then ClipAt(strip, c, frame) else [])
            <==> RampsSurvive(c, trimStart, trimEnd)
  {
    hide AutomationValue;
    if !RampsSurvive(c, trimStart, trimEnd) {
      var first := c.start + trimStart;
      var a, b := ClipAt(strip, Trimmed(c, trimStart, trimEnd), first), ClipAt(strip, c, first);
      assert |a| == 1 && |b| == 1 && a[0].fade != b[0].fade;
      assert Kept(c, trimStart, trimEnd, first) && a != b;
    }
  }

  /** A muted clip stays silent however it is trimmed. */
  lemma TrimRestrictsAt(strip: Strip, c: Clip, trimStart: int, trimEnd: int, frame: int)
    requires ClampedClip(c) && 0 <= trimStart && 0 <= trimEnd && trimStart + trimEnd < c.length
    requires RampsSurvive(c, trimStart, trimEnd)
    ensures ClipAt(strip, Trimmed(c, trimStart, trimEnd), frame) ==
            if Kept(c, trimStart, trimEnd, frame) then ClipAt(strip, c, frame) else []
  {
    if !c.muted { TrimRestricts(strip, c, trimStart, trimEnd); }
  }

  /** Whatever becomes of its fade, a trimmed clip is silent where it was cut, and otherwise differs at most in its fade. */
  lemma TrimmedClipAt(strip: Strip, c: Clip, trimStart: int, trimEnd: int, frame: int)
    requires 0 <= trimStart && 0 <= trimEnd && trimStart + trimEnd < c.length
    ensures var was, now := ClipAt(strip, c, frame), ClipAt(strip, Trimmed(c, trimStart, trimEnd), frame);
      if Kept(c, trimStart, trimEnd, frame) then
        |now| == |was| && (was != [] ==> now[0] == was[0].(fade := now[0].fade))
      else now == []
  {
    hide AutomationValue, FadeAt;
  }

  lemma TrimThere(s: Session, p: Place, trimStart: int, trimEnd: int, frame: int)
    requires At(s.tracks, p) && 0 <= trimStart && 0 <= trimEnd
    requires var c := ClipAtPlace(s.tracks, p); ClampedClip(c) && trimStart + trimEnd < c.length
    ensures var c := ClipAtPlace(s.tracks, p);
      var was, now := HeardThere(s, p, [c], frame), HeardThere(s, p, [Trimmed(c, trimStart, trimEnd)], frame);
      if Kept(c, trimStart, trimEnd, frame) then
        && |now| == |was| && (was != [] ==> now[0] == was[0].(fade := now[0].fade))
        && (RampsSurvive(c, trimStart, trimEnd) ==> now == was)
      else now == []
  {
    hide ClipAt, Trimmed, RampsSurvive, Kept;
    var c, strip := ClipAtPlace(s.tracks, p), s.tracks[p.track].strip;
    TrimmedClipAt(strip, c, trimStart, trimEnd, frame);
    if RampsSurvive(c, trimStart, trimEnd) { TrimRestrictsAt(strip, c, trimStart, trimEnd, frame); }
    OneClipAt(strip, c, frame);
    OneClipAt(strip, Trimmed(c, trimStart, trimEnd), frame);
  }

  /**
   * Every trim silences the frames cut off and leaves all else that is heard as it was; of the kept frames
   * only the fade can change, and it does not when the ramps survive.
   */
  lemma TrimKeepsTheRest(s: Session, clipId: Id, trimStart: int, trimEnd: int, after: Session, found: Option<Place>, frame: int)
    requires Finds(s.tracks, clipId, found) && Edits(s, Trim(clipId, trimStart, trimEnd), Some(after)) && Clamped(s)
    ensures found.Some?
    ensures var p := found.value; var c := ClipAtPlace(s.tracks, p);
      var ts, te := Max(0, trimStart), Max(0, trimEnd);
      var was, now := HeardThere(s, p, [c], frame), HeardThere(s, p, [Trimmed(c, ts, te)], frame);
      && Heard(s, frame) == HeardBefore(s, p, frame) + was + HeardAfter(s, p, frame)
      && Heard(after, frame) == HeardBefore(s, p, frame) + now + HeardAfter(s, p, frame)
      && (!Kept(c, ts, te, frame) ==> now == [])
      && (Kept(c, ts, te, frame) ==> |now| == |was| && (was != [] ==> now[0] == was[0].(fade := now[0].fade)))
      && (Kept(c, ts, te, frame) && RampsSurvive(c, ts, te) ==> Heard(after, frame) == Heard(s, frame))
  {
    hide Heard, HeardBefore, HeardAfter, HeardThere, Spliced, Trimmed, RampsSurvive, Kept;
    var p := found.value;
    var c, ts, te := ClipAtPlace(s.tracks, p), Max(0, trimStart), Max(0, trimEnd);
    HeardAround(s, p, [Trimmed(c, ts, te)], frame);
    assert ClampedClips(s.tracks[p.track].clips);
    TrimThere(s, p, ts, te, frame);
  }

  /** A resize is the trim that leaves the same frames. */
  lemma ResizeIsTrim(s: Session, clipId: Id, start: int, end: int, snap: int, found: Option<Place>, r: Option<Session>)
    requires Finds(s.tracks, clipId, found) && Edits(s, Resize(clipId, start, end, snap), r)
    ensures r.Some? <==>
            found.Some? && SnapOk(snap) &&
            var c := ClipAtPlace(s.tracks, found.value);
            c.start <= SnapTo(start, snap) < SnapTo(end, snap) <= c.start + c.length
    ensures r.Some? ==>
            var c := ClipAtPlace(s.tracks, found.value);
            Edits(s, Trim(clipId, SnapTo(start, snap) - c.start, c.start + c.length - SnapTo(end, snap)), r)
  {
    hide Spliced, SnapTo;
    FindsOnce(s.tracks, clipId, found);
  }

  // ---- what a trim does to the level of an unanchored fade ----

  ghost function ClipLevel(c: Clip, frame: int): real { Level(FadeAt(c.fades, c.length, frame - c.start)) }

  /** One frame of ramp is already full level, so cutting it off is not heard. */
  ghost predicate LevelsSurvive(c: Clip, trimStart: int, trimEnd: int) {
    c.fades.span.Some? || ((c.fades.inFrames <= 1 || trimStart == 0) && (c.fades.outFrames <= 1 || trimEnd == 0))
  }

  ghost function UnanchoredLevel(f: Fades, length: int, position: int): real { Level(FadeAt(f, length, position)) }

  lemma UnanchoredLevelIs(f: Fades, length: int, position: int)
    requires f.span.None? && f.offset.None? && f.inFrames >= 0 && f.outFrames >= 0
    requires f.inFrames + f.outFrames <= length && 0 <= position < length
    ensures var level := UnanchoredLevel(f, length, position);
      && (position + 1 < f.inFrames ==> level == Quotient(Ramp(position + 1, f.inFrames)) < 1.0)
      && (position + 1 >= f.inFrames && length - position >= f.outFrames ==> level == 1.0)
      && (length - position < f.outFrames ==> level == Quotient(Ramp(length - position, f.outFrames)) < 1.0)
  {
    OneRampInForce(f.inFrames, f.outFrames, length, position, f.curve);
    if f.inFrames > 0 { QuotientOrder(position + 1, 0, f.inFrames); }
    if f.outFrames > 0 { QuotientOrder(length - position, 0, f.outFrames); }
  }

  lemma CutRampIsHeard(c: Clip, trimStart: int, trimEnd: int) returns (frame: int)
    requires ClampedClip(c) && 0 <= trimStart && 0 <= trimEnd && trimStart + trimEnd < c.length
    requires c.fades.inFrames + c.fades.outFrames <= c.length - trimStart - trimEnd
    requires !LevelsSurvive(c, trimStart, trimEnd)
    ensures Kept(c, trimStart, trimEnd, frame) && ClipLevel(Trimmed(c, trimStart, trimEnd), frame) != ClipLevel(c, frame)
  {
    hide Level, FadeAt, Quotient;
    var length := c.length - trimStart - trimEnd;
    var f := c.fades;
    if f.inFrames > 1 && trimStart > 0 {
      frame := c.start + trimStart;
      UnanchoredLevelIs(f, length, 0);
      UnanchoredLevelIs(f, c.length, trimStart);
      QuotientOrder(1, trimStart + 1, f.inFrames);
    } else {
      frame := c.start + c.length - trimEnd - 1;
      UnanchoredLevelIs(f, length, length - 1);
      UnanchoredLevelIs(f, c.length, c.length - trimEnd - 1);
      QuotientOrder(1, trimEnd + 1, f.outFrames);
    }
  }

  lemma UncutRampsKeepLevel(c: Clip, trimStart: int, trimEnd: int, frame: int)
    requires ClampedClip(c) && 0 <= trimStart && 0 <= trimEnd && trimStart + trimEnd < c.length
    requires c.fades.span.None? ==> c.fades.inFrames + c.fades.outFrames <= c.length - trimStart - trimEnd
    requires LevelsSurvive(c, trimStart, trimEnd) && Kept(c, trimStart, trimEnd, frame)
    ensures ClipLevel(Trimmed(c, trimStart, trimEnd), frame) == ClipLevel(c, frame)
  {
    hide Level, Quotient;
    if c.fades.span.None? {
      var length := c.length - trimStart - trimEnd;
      UnanchoredLevelIs(c.fades, length, frame - c.start - trimStart);
      UnanchoredLevelIs(c.fades, c.length, frame - c.start);
    }
  }

  /** An accepted trim leaves every kept frame at its level exactly when the fade is anchored or no ramp longer than a frame is cut. */
  lemma TrimLevels(c: Clip, trimStart: int, trimEnd: int)
    requires ClampedClip(c) && 0 <= trimStart && 0 <= trimEnd && trimStart + trimEnd < c.length
    requires FadesOk(Trimmed(c, trimStart, trimEnd).fades, c.length - trimStart - trimEnd)
    ensures (forall frame :: Kept(c, trimStart, trimEnd, frame) ==>
                             ClipLevel(Trimmed(c, trimStart, trimEnd), frame) == ClipLevel(c, frame))
            <==> LevelsSurvive(c, trimStart, trimEnd)
  {
    hide ClipLevel;
    if LevelsSurvive(c, trimStart, trimEnd) {
      forall frame | Kept(c, trimStart, trimEnd, frame)
        ensures ClipLevel(Trimmed(c, trimStart, trimEnd), frame) == ClipLevel(c, frame)
      {
        UncutRampsKeepLevel(c, trimStart, trimEnd, frame);
      }
    } else {
      var frame := CutRampIsHeard(c, trimStart, trimEnd);
    }
  }

  // ---- what a clip, a fade, a mute and a solo mean ----

  /** A clip that is not muted plays its source from its offset on, frame after frame, and nothing before or after. */
  lemma ClipPlaysThrough(strip: Strip, c: Clip, k: int)
    requires !c.muted
    ensures 0 <= k < c.length ==>
      |ClipAt(strip, c, c.start + k)| == 1
      && var heard := ClipAt(strip, c, c.start + k)[0];
         && heard.source == c.source && heard.sourceFrame == c.offset + k
         && heard.gain == strip.gain && heard.pan == strip.pan && heard.bus == strip.bus
         && heard.volume == AutomationValue(strip.automation, c.start + k, 1.0)
    ensures k < 0 || c.length <= k ==> ClipAt(strip, c, c.start + k) == []
    ensures ClipAt(strip, c.(muted := true), c.start + k) == []
  {
    hide AutomationValue, FadeAt;
  }

  /**
   * Setting a fade gives the clip a ramp up over its first `fadeIn` frames and one down over its last `fadeOut`, and
   * leaves all else it plays as it was; it is refused exactly when the ramps do not fit.
   */
  lemma FadeSetIsHeard(strip: Strip, c: Clip, id: Id, fadeIn: int, fadeOut: int, curve: Curve, k: int, sine: real -> real)
    requires 0 <= k < c.length && !c.muted
    ensures var pieces := Pieces(c, SetFade(id, fadeIn, fadeOut, curve)); var up, down := Max(0, fadeIn), Max(0, fadeOut);
      && (pieces.Some? <==> up + down <= c.length)
      && (pieces.Some? ==>
            && |pieces.value| == 1
            && var was, now := ClipAt(strip, c, c.start + k), ClipAt(strip, pieces.value[0], c.start + k);
               && |was| == 1 == |now| && now[0] == was[0].(fade := now[0].fade)
               && var level := if k < up then (k + 1) as real / up as real
                               else if c.length - k <= down then (c.length - k) as real / down as real else 1.0;
                  FadeEnvelope(now[0].fade, sine) == if curve == Linear then level else sine(level))
  {
    hide AutomationValue, FadeEnvelope, FadeAt;
    var up, down := Max(0, fadeIn), Max(0, fadeOut);
    if up + down <= c.length { FadeShape(Fades(up, down, curve, None, None), c.length, k, sine); }
  }

  lemma {:induction false} ClipsAtMembers(strip: Strip, clips: seq<Clip>, frame: int, x: Contribution)
    ensures x in ClipsAt(strip, clips, frame) <==> exists k :: 0 <= k < |clips| && x in ClipAt(strip, clips[k], frame)
  {
    hide ClipAt;
    if clips != [] {
      ClipsAtMembers(strip, clips[1..], frame, x);
      if k :| 0 <= k < |clips| && x in ClipAt(strip, clips[k], frame) {
        if k > 0 { assert clips[1..][k - 1] == clips[k]; }
      }
      if k :| 0 <= k < |clips| - 1 && x in ClipAt(strip, clips[1..][k], frame) { assert clips[k + 1] == clips[1..][k]; }
    }
  }

  /** The contribution comes from a clip of track `i`. */
  ghost predicate ComesFrom(tracks: seq<Track>, i: nat, frame: int, x: Contribution)
    requires i < |tracks|
  {
    exists k :: 0 <= k < |tracks[i].clips| && x in ClipAt(tracks[i].strip, tracks[i].clips[k], frame)
  }

  lemma {:induction false} TracksAtMembers(tracks: seq<Track>, solo: bool, frame: int, x: Contribution)
    ensures x in TracksAt(tracks, solo, frame) <==>
      exists i :: 0 <= i < |tracks| && !tracks[i].muted && (solo ==> tracks[i].solo) && ComesFrom(tracks, i, frame, x)
  {
    hide ClipAt, ClipsAt;
    if tracks != [] {
      var rest := tracks[1..];
      TracksAtMembers(rest, solo, frame, x);
      ClipsAtMembers(tracks[0].strip, tracks[0].clips, frame, x);
      forall i | 0 <= i < |rest| ensures ComesFrom(rest, i, frame, x) <==> ComesFrom(tracks, i + 1, frame, x) {
        assert rest[i] == tracks[i + 1];
      }
      if i :| 0 <= i < |tracks| && !tracks[i].muted && (solo ==> tracks[i].solo) && ComesFrom(tracks, i, frame, x) {
        if i > 0 { assert rest[i - 1] == tracks[i] && ComesFrom(rest, i - 1, frame, x); }
      }
      if i :| 0 <= i < |rest| && !rest[i].muted && (solo ==> rest[i].solo) && ComesFrom(rest, i, frame, x) {
        assert tracks[i + 1] == rest[i] && ComesFrom(tracks, i + 1, frame, x);
      }
    }
  }

  /** What is heard comes from the clips of tracks that are not muted: of those set solo, as soon as any track is. */
  lemma HeardExactly(s: Session, frame: int, x: Contribution)
    ensures x in Heard(s, frame) <==>
      exists i :: 0 <= i < |s.tracks| && !s.tracks[i].muted && ComesFrom(s.tracks, i, frame, x)
                  && (s.tracks[i].solo || forall j :: 0 <= j < |s.tracks| ==> !s.tracks[j].solo)
  {
    hide TracksAt, ComesFrom;
    TracksAtMembers(s.tracks, AnySolo(s.tracks), frame, x);
  }
}
