/** The render plan: the regions of a session that a range of frames needs, in playing order. */
module RenderPlan {
  import opened Numbers
  import opened Options
  import opened StableSort
  import opened Automation
  import opened ClipFades
  import opened DawDocument
  import opened DawMeaning

  const LONGEST_RENDER := 192000 * 60 * 60

  datatype Region = Region(trackId: Id, clipId: Id, renderStart: int, renderFrames: int, sourceStart: int, strip: Strip,
                           fades: Fades, source: Source, clipOffset: int, clipLength: int)

  datatype Plan = Plan(sessionId: Id, revision: int, start: int, end: int, regions: seq<Region>)

  function RegionKey(r: Region): Key { Key(r.renderStart, r.trackId, r.clipId) }

  function RegionOf(t: Track, c: Clip, start: int, end: int): seq<Region> {
    var from, to := Max(start, c.start), Min(end, c.start + c.length);
    if !c.muted && to > from then
      [Region(t.id, c.id, from, to - from, c.offset + from - c.start, t.strip, c.fades, c.source, from - c.start, c.length)]
    else []
  }

  function TrackRegions(t: Track, clips: seq<Clip>, start: int, end: int): seq<Region> {
    if clips == [] then [] else RegionOf(t, clips[0], start, end) + TrackRegions(t, clips[1..], start, end)
  }

  function Regions(tracks: seq<Track>, solo: bool, start: int, end: int): seq<Region> {
    if tracks == [] then []
    else AudibleRegions(tracks[0], solo, start, end) + Regions(tracks[1..], solo, start, end)
  }

  function AudibleRegions(t: Track, solo: bool, start: int, end: int): seq<Region> {
    if Audible(t, solo) then TrackRegions(t, t.clips, start, end) else []
  }

  /** The plan of a session already in normal form. */
  function Planned(s: Session, start: int, end: int): Plan {
    Plan(s.id, s.revision, start, end, SortBy(Regions(s.tracks, AnySolo(s.tracks), start, end), RegionKey))
  }

  method CollectTrack(t: Track, start: int, end: int) returns (regions: seq<Region>)
    ensures regions == TrackRegions(t, t.clips, start, end)
  {
    hide RegionOf;
    regions := [];
    for k := 0 to |t.clips|
      invariant regions + TrackRegions(t, t.clips[k..], start, end) == TrackRegions(t, t.clips, start, end)
    {
      assert t.clips[k..][1..] == t.clips[k + 1..];
      regions := regions + RegionOf(t, t.clips[k], start, end);
    }
    assert TrackRegions(t, [], start, end) == [];
  }

  method CollectTracks(tracks: seq<Track>, solo: bool, start: int, end: int) returns (regions: seq<Region>)
    ensures regions == Regions(tracks, solo, start, end)
  {
    hide TrackRegions;
    regions := [];
    for i := 0 to |tracks|
      invariant regions + Regions(tracks[i..], solo, start, end) == Regions(tracks, solo, start, end)
    {
      assert tracks[i..][1..] == tracks[i + 1..];
      if !tracks[i].muted && (!solo || tracks[i].solo) {
        var more := CollectTrack(tracks[i], start, end);
        regions := regions + more;
      }
    }
    assert Regions([], solo, start, end) == [];
  }

  /** Plans a range, or refuses a session that does not normalize and a range that is empty or over an hour. */
  method MakePlan(session: Session, startFrame: int, endFrame: int) returns (r: Option<Plan>)
    ensures var start, n := Max(0, startFrame), Normalize(session);
      r == if n.None? || endFrame <= start || endFrame - start > LONGEST_RENDER then None
           else Some(Planned(n.value, start, endFrame))
  {
    hide Regions, SortBy, Normalize, AnySolo;
    var n := NormalizeSession(session);
    if n.None? { return None; }
    var s, start, end := n.value, Max(0, startFrame), endFrame;
    if end <= start || end - start > LONGEST_RENDER { return None; }
    var regions := CollectTracks(s.tracks, AnySolo(s.tracks), start, end);
    r := Some(Plan(s.id, s.revision, start, end, SortBy(regions, RegionKey)));
  }

  // ---- what a plan sounds like ----

  function RegionAt(r: Region, frame: int): seq<Contribution> {
    if r.renderStart <= frame < r.renderStart + r.renderFrames then
      var relative := frame - r.renderStart;
      [Contribution(r.source, r.sourceStart + relative, r.strip.gain, r.strip.pan, r.strip.bus,
                    AutomationValue(r.strip.automation, frame, 1.0), FadeAt(r.fades, r.clipLength, r.clipOffset + relative))]
    else []
  }

  function RegionsAt(regions: seq<Region>, frame: int): seq<Contribution> {
    if regions == [] then [] else RegionAt(regions[0], frame) + RegionsAt(regions[1..], frame)
  }

  lemma {:induction false} RegionsAtConcat(a: seq<Region>, b: seq<Region>, frame: int)
    ensures RegionsAt(a + b, frame) == RegionsAt(a, frame) + RegionsAt(b, frame)
  {
    hide RegionAt;
    if a == [] {
      assert a + b == b;
    } else {
      RegionsAtConcat(a[1..], b, frame);
      assert (a + b)[1..] == a[1..] + b;
    }
  }

  /** A region plays, within the range, just what its clip plays. */
  lemma RegionOfAt(t: Track, c: Clip, start: int, end: int, frame: int)
    ensures RegionsAt(RegionOf(t, c, start, end), frame) == if start <= frame < end then ClipAt(t.strip, c, frame) else []
  {
    hide AutomationValue, FadeAt;
    var rs := RegionOf(t, c, start, end);
    if rs != [] { assert rs[1..] == []; }
  }

  lemma {:induction false} TrackRegionsAt(t: Track, clips: seq<Clip>, start: int, end: int, frame: int)
    ensures RegionsAt(TrackRegions(t, clips, start, end), frame) == if start <= frame < end then ClipsAt(t.strip, clips, frame) else []
  {
    hide RegionOf, ClipAt, RegionAt;
    if clips != [] {
      RegionOfAt(t, clips[0], start, end, frame);
      TrackRegionsAt(t, clips[1..], start, end, frame);
      RegionsAtConcat(RegionOf(t, clips[0], start, end), TrackRegions(t, clips[1..], start, end), frame);
    }
  }

  lemma AudibleRegionsAt(t: Track, solo: bool, start: int, end: int, frame: int)
    ensures RegionsAt(AudibleRegions(t, solo, start, end), frame) == if start <= frame < end then Through(t, solo, t.clips, frame) else []
  {
    hide TrackRegions, ClipsAt, RegionAt;
    TrackRegionsAt(t, t.clips, start, end, frame);
  }

  lemma {:induction false} AllRegionsAt(tracks: seq<Track>, solo: bool, start: int, end: int, frame: int)
    ensures RegionsAt(Regions(tracks, solo, start, end), frame) == if start <= frame < end then TracksAt(tracks, solo, frame) else []
  {
    hide AudibleRegions, Through, RegionAt;
    if tracks != [] {
      AudibleRegionsAt(tracks[0], solo, start, end, frame);
      AllRegionsAt(tracks[1..], solo, start, end, frame);
      RegionsAtConcat(AudibleRegions(tracks[0], solo, start, end), Regions(tracks[1..], solo, start, end), frame);
    }
  }

  lemma {:induction false} InsertRegionAt(r: Region, regions: seq<Region>, frame: int)
    ensures multiset(RegionsAt(Insert(r, regions, RegionKey), frame)) ==
            multiset(RegionAt(r, frame)) + multiset(RegionsAt(regions, frame))
  {
    hide RegionAt;
    if regions == [] || RegionKey(r).LessEq(RegionKey(regions[0])) {
      assert ([r] + regions)[1..] == regions;
    } else {
      InsertRegionAt(r, regions[1..], frame);
      assert ([regions[0]] + Insert(r, regions[1..], RegionKey))[1..] == Insert(r, regions[1..], RegionKey);
    }
  }

  lemma {:induction false} SortedRegionsAt(regions: seq<Region>, frame: int)
    ensures multiset(RegionsAt(SortBy(regions, RegionKey), frame)) == multiset(RegionsAt(regions, frame))
  {
    hide RegionAt, Insert;
    if regions != [] {
      SortedRegionsAt(regions[1..], frame);
      InsertRegionAt(regions[0], SortBy(regions[1..], RegionKey), frame);
    }
  }

  /** A plan plays, at every frame of its range, the same bag of contributions as its session, and nothing outside it. */
  lemma PlanMeansSession(s: Session, start: int, end: int, frame: int)
    ensures multiset(RegionsAt(Planned(s, start, end).regions, frame)) ==
            if start <= frame < end then multiset(Heard(s, frame)) else multiset{}
  {
    hide Regions, RegionsAt, TracksAt, SortBy;
    AllRegionsAt(s.tracks, AnySolo(s.tracks), start, end, frame);
    SortedRegionsAt(Regions(s.tracks, AnySolo(s.tracks), start, end), frame);
  }

  ghost predicate RegionInRange(r: Region, start: int, end: int) {
    && start <= r.renderStart && r.renderFrames > 0 && r.renderStart + r.renderFrames <= end
    && 0 <= r.clipOffset && r.clipOffset + r.renderFrames <= r.clipLength
  }

  lemma {:induction false} TrackRegionsInRange(t: Track, clips: seq<Clip>, start: int, end: int)
    ensures forall r :: r in TrackRegions(t, clips, start, end) ==> RegionInRange(r, start, end)
  {
    if clips != [] {
      TrackRegionsInRange(t, clips[1..], start, end);
      assert forall r :: r in RegionOf(t, clips[0], start, end) ==> RegionInRange(r, start, end);
    }
  }

  lemma {:induction false} AllRegionsInRange(tracks: seq<Track>, solo: bool, start: int, end: int)
    ensures forall r :: r in Regions(tracks, solo, start, end) ==> RegionInRange(r, start, end)
  {
    hide TrackRegions;
    if tracks != [] {
      AllRegionsInRange(tracks[1..], solo, start, end);
      TrackRegionsInRange(tracks[0], tracks[0].clips, start, end);
    }
  }

  /** By where they begin, then by track, then by clip. */
  ghost predicate Before(a: Region, b: Region) {
    || a.renderStart < b.renderStart
    || (a.renderStart == b.renderStart && a.trackId < b.trackId)
    || (a.renderStart == b.renderStart && a.trackId == b.trackId && a.clipId <= b.clipId)
  }

  /** Regions come in the order they begin, then of their tracks and clips; each stays inside the range and its clip. */
  lemma PlanIsBounded(s: Session, start: int, end: int)
    ensures var regions := Planned(s, start, end).regions;
      && (forall r :: r in regions ==> RegionInRange(r, start, end))
      && (forall i, j :: 0 <= i < j < |regions| ==> Before(regions[i], regions[j]))
  {
    hide Regions, SortBy, RegionInRange;
    var all := Regions(s.tracks, AnySolo(s.tracks), start, end);
    var regions := SortBy(all, RegionKey);
    AllRegionsInRange(s.tracks, AnySolo(s.tracks), start, end);
    SortByIsStableSort(all, RegionKey);
    forall r | r in regions ensures RegionInRange(r, start, end) {
      assert r in multiset(regions);
    }
    forall i, j | 0 <= i < j < |regions| ensures Before(regions[i], regions[j]) {
      assert RegionKey(regions[i]).LessEq(RegionKey(regions[j]));
    }
  }
}
