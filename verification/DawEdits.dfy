/** The clip edits of a session: what each makes of the document, and the stepwise code that makes it. */
module DawEdits {
  import opened Numbers
  import opened Options
  import opened StableSort
  import opened Automation
  import opened ClipFades
  import opened DawDocument

  const LONGEST_SNAP := 192000 * 60
  const LONGEST_MOVE := 192000 * 60 * 60

  datatype Operation =
    | Trim(clipId: Id, trimStart: int, trimEnd: int)
    | Split(clipId: Id, splitFrame: int, newClipId: Id)
    | SetFade(clipId: Id, fadeIn: int, fadeOut: int, curve: Curve)
    | Move(clipId: Id, start: int, snap: int, target: Option<Id>)
    | MoveMany(clipIds: seq<Id>, delta: int, snap: int)
    | Resize(clipId: Id, start: int, end: int, snap: int)

  predicate InPlace(op: Operation) { op.Trim? || op.Split? || op.SetFade? || op.Resize? }

  predicate SnapOk(snap: int) { 1 <= snap <= LONGEST_SNAP }

  function SnapTo(frame: int, snap: int): int
    requires snap >= 1
  {
    (frame + snap / 2) / snap * snap
  }

  // ---- where a clip is ----

  datatype Place = Place(track: nat, clip: nat)

  ghost predicate At(tracks: seq<Track>, p: Place) { p.track < |tracks| && p.clip < |tracks[p.track].clips| }

  ghost function ClipAtPlace(tracks: seq<Track>, p: Place): Clip
    requires At(tracks, p)
  {
    tracks[p.track].clips[p.clip]
  }

  ghost predicate HasClip(clips: seq<Clip>, id: Id) { exists k :: 0 <= k < |clips| && clips[k].id == id }

  /** The first clip with the id, in track order. */
  ghost predicate Finds(tracks: seq<Track>, id: Id, found: Option<Place>) {
    match found
    case None => forall i :: 0 <= i < |tracks| ==> !HasClip(tracks[i].clips, id)
    case Some(p) =>
      && At(tracks, p) && ClipAtPlace(tracks, p).id == id
      && (forall i :: 0 <= i < p.track ==> !HasClip(tracks[i].clips, id))
      && (forall k :: 0 <= k < p.clip ==> tracks[p.track].clips[k].id != id)
  }

  method FindClip(tracks: seq<Track>, id: Id) returns (found: Option<Place>)
    ensures Finds(tracks, id, found)
  {
    for i := 0 to |tracks|
      invariant forall j :: 0 <= j < i ==> !HasClip(tracks[j].clips, id)
    {
      for k := 0 to |tracks[i].clips|
        invariant forall j :: 0 <= j < k ==> tracks[i].clips[j].id != id
      {
        if tracks[i].clips[k].id == id { return Some(Place(i, k)); }
      }
    }
    found := None;
  }

  // ---- edits that replace one clip by its pieces ----

  function Anchored(f: Fades, length: int): Fades {
    f.(span := Some(Or(f.span, length)), offset := Some(Or(f.offset, 0)))
  }

  function Later(f: Fades, frames: int): Fades { f.(offset := Some(Or(f.offset, 0) + frames)) }

  /** The clip without its first `trimStart` and last `trimEnd` frames; only an anchored fade moves along. */
  function Trimmed(c: Clip, trimStart: int, trimEnd: int): Clip {
    c.(start := c.start + trimStart, offset := c.offset + trimStart, length := c.length - trimStart - trimEnd,
       fades := if c.fades.span.Some? then Later(c.fades, trimStart) else c.fades)
  }

  /** The clip cut in two after `relative` frames, both halves anchored to the fade of the whole. */
  function Halves(c: Clip, relative: int, newId: Id): seq<Clip> {
    var whole := c.(fades := Anchored(c.fades, c.length));
    [whole.(length := relative),
     whole.(id := newId, start := c.start + relative, offset := c.offset + relative, length := c.length - relative,
            fades := Later(whole.fades, relative))]
  }

  /** What an in-place edit leaves of its clip, or nothing when it refuses. */
  function Pieces(c: Clip, op: Operation): Option<seq<Clip>>
    requires InPlace(op)
  {
    match op
    case Trim(_, trimStart, trimEnd) =>
      if Max(0, trimStart) + Max(0, trimEnd) >= c.length then None
      else Some([Trimmed(c, Max(0, trimStart), Max(0, trimEnd))])
    case Split(_, splitFrame, newClipId) =>
      if c.start < splitFrame < c.start + c.length then Some(Halves(c, splitFrame - c.start, newClipId)) else None
    case SetFade(_, fadeIn, fadeOut, curve) =>
      if Max(0, fadeIn) + Max(0, fadeOut) > c.length then None
      else Some([c.(fades := Fades(Max(0, fadeIn), Max(0, fadeOut), curve, None, None))])
    case Resize(_, start, end, snap) =>
      if !SnapOk(snap) then None
      else
        var from, to := SnapTo(start, snap), SnapTo(end, snap);
        if from < c.start || to > c.start + c.length || to <= from then None
        else Some([Trimmed(c, from - c.start, c.start + c.length - to)])
  }

  function Spliced(s: Session, p: Place, pieces: seq<Clip>): Session
    requires p.track < |s.tracks| && p.clip < |s.tracks[p.track].clips|
  {
    var clips := s.tracks[p.track].clips;
    s.(tracks := s.tracks[p.track := s.tracks[p.track].(clips := clips[..p.clip] + pieces + clips[p.clip + 1..])])
  }

  /** The in-place edits, field by field. */
  method EditClip(c: Clip, op: Operation) returns (r: Option<seq<Clip>>)
    requires InPlace(op)
    ensures r == Pieces(c, op)
  {
    var clip := c;
    match op {
      case Trim(_, rawStart, rawEnd) =>
        var trimStart, trimEnd := Max(0, rawStart), Max(0, rawEnd);
        if trimStart + trimEnd >= clip.length { return None; }
        if clip.fades.span.Some? {
          clip := clip.(fades := clip.fades.(offset := Some(Or(clip.fades.offset, 0) + trimStart)));
        }
        clip := clip.(start := clip.start + trimStart);
        clip := clip.(offset := clip.offset + trimStart);
        clip := clip.(length := clip.length - (trimStart + trimEnd));
        r := Some([clip]);
      case Split(_, splitFrame, newClipId) =>
        var relative := splitFrame - clip.start;
        if relative <= 0 || relative >= clip.length { return None; }
        if clip.fades.span.None? { clip := clip.(fades := clip.fades.(span := Some(clip.length))); }
        if clip.fades.offset.None? { clip := clip.(fades := clip.fades.(offset := Some(0))); }
        var right := clip.(id := newClipId, start := splitFrame);
        right := right.(offset := right.offset + relative);
        right := right.(length := right.length - relative);
        clip := clip.(length := relative);
        right := right.(fades := right.fades.(offset := Some(right.fades.offset.value + relative)));
        r := Some([clip, right]);
      case SetFade(_, rawIn, rawOut, curve) =>
        var fadeIn, fadeOut := Max(0, rawIn), Max(0, rawOut);
        if fadeIn + fadeOut > clip.length { return None; }
        clip := clip.(fades := Fades(fadeIn, fadeOut, curve, None, None));
        r := Some([clip]);
      case Resize(_, rawStart, rawEnd, snap) =>
        if snap < 1 || snap > LONGEST_SNAP { return None; }
        var start, end := (rawStart + snap / 2) / snap * snap, (rawEnd + snap / 2) / snap * snap;
        var oldStart, oldEnd := clip.start, clip.start + clip.length;
        if start < oldStart || end > oldEnd || end <= start { return None; }
        var trimStart := start - oldStart;
        if clip.fades.span.Some? {
          clip := clip.(fades := clip.fades.(offset := Some(Or(clip.fades.offset, 0) + trimStart)));
        }
        clip := clip.(start := start, offset := clip.offset + trimStart, length := end - start);
        r := Some([clip]);
    }
  }

  // ---- moving one clip ----

  predicate Fits(c: Clip, kind: TrackKind) {
    && (c.source.kind.AudioFile? ==> kind.AudioTrack? || kind.AuxTrack?)
    && (c.source.kind.MidiSequence? ==> kind.MidiTrack?)
  }

  function TrackIndex(tracks: seq<Track>, id: Id): (r: Option<nat>)
    ensures r.Some? ==> r.value < |tracks| && tracks[r.value].id == id
    ensures r.Some? ==> forall k :: 0 <= k < r.value ==> tracks[k].id != id
    ensures r.None? ==> forall k :: 0 <= k < |tracks| ==> tracks[k].id != id
  {
    if tracks == [] then None
    else if tracks[0].id == id then Some(0)
    else
      match TrackIndex(tracks[1..], id)
      case None => None
      case Some(k) =>
        assert forall j :: 0 < j <= k ==> tracks[j] == tracks[1..][j - 1];
        Some(k + 1)
  }

  /** The tracks once clip `p` left its track, and clip `c` joined track `to`, which is sorted again. */
  function Rehomed(tracks: seq<Track>, p: Place, c: Clip, to: nat): seq<Track>
    requires p.track < |tracks| && p.clip < |tracks[p.track].clips| && to < |tracks|
  {
    var from := tracks[p.track].clips;
    if to == p.track then
      tracks[to := tracks[to].(clips := SortBy(from[p.clip := c], ClipKey))]
    else
      var left := tracks[p.track := tracks[p.track].(clips := from[..p.clip] + from[p.clip + 1..])];
      left[to := left[to].(clips := SortBy(left[to].clips + [c], ClipKey))]
  }

  function Moved(s: Session, p: Place, start: int, snap: int, target: Option<Id>): Option<Session>
    requires p.track < |s.tracks| && p.clip < |s.tracks[p.track].clips|
  {
    if start < 0 || !SnapOk(snap) then None
    else
      var c := s.tracks[p.track].clips[p.clip];
      var to := TrackIndex(s.tracks, if target.Some? then target.value else s.tracks[p.track].id);
      if to.None? || !Fits(c, s.tracks[to.value].kind) then None
      else Some(s.(tracks := Rehomed(s.tracks, p, c.(start := SnapTo(start, snap)), to.value)))
  }

  /** A move in steps: check, snap, find the target track, take the clip along, sort where it now is. */
  method MoveClip(s: Session, p: Place, start: int, snap: int, target: Option<Id>) returns (r: Option<Session>)
    requires p.track < |s.tracks| && p.clip < |s.tracks[p.track].clips|
    ensures r == Moved(s, p, start, snap, target)
  {
    hide SortBy;
    if start < 0 || snap < 1 || snap > LONGEST_SNAP { return None; }
    var targetId := if target.Some? then target.value else s.tracks[p.track].id;
    var to := 0;
    while to < |s.tracks| && s.tracks[to].id != targetId
      invariant 0 <= to <= |s.tracks| && forall k :: 0 <= k < to ==> s.tracks[k].id != targetId
    {
      to := to + 1;
    }
    if to == |s.tracks| { return None; }
    var clip := s.tracks[p.track].clips[p.clip];
    if !Fits(clip, s.tracks[to].kind) { return None; }
    clip := clip.(start := (start + snap / 2) / snap * snap);
    var tracks, clips := s.tracks, s.tracks[p.track].clips;
    if to != p.track {
      tracks := tracks[p.track := tracks[p.track].(clips := clips[..p.clip] + clips[p.clip + 1..])];
      tracks := tracks[to := tracks[to].(clips := tracks[to].clips + [clip])];
    } else {
      tracks := tracks[to := tracks[to].(clips := clips[p.clip := clip])];
    }
    tracks := tracks[to := tracks[to].(clips := SortBy(tracks[to].clips, ClipKey))];
    assert TrackIndex(s.tracks, targetId) == Some(to);
    assert tracks == Rehomed(s.tracks, p, clip, to);
    r := Some(s.(tracks := tracks));
  }

  // ---- moving a group ----

  predicate Distinct(ids: seq<Id>) { forall i, j :: 0 <= i < j < |ids| ==> ids[i] != ids[j] }

  /** The clips with one of the ids, in order. */
  function Group(clips: seq<Clip>, ids: seq<Id>): seq<Clip> {
    if clips == [] then []
    else
      var last := clips[|clips| - 1];
      Group(clips[..|clips| - 1], ids) + if last.id in ids then [last] else []
  }

  /** Every clip with one of the ids moved by `applied` frames, the rest as they were. */
  function ShiftedClips(clips: seq<Clip>, ids: seq<Id>, applied: int): (r: seq<Clip>)
    ensures |r| == |clips|
    ensures forall k :: 0 <= k < |r| ==> r[k] == if clips[k].id in ids then clips[k].(start := clips[k].start + applied) else clips[k]
  {
    seq(|clips|, k requires 0 <= k < |clips| =>
      if clips[k].id in ids then clips[k].(start := clips[k].start + applied) else clips[k])
  }

  function ShiftedTracks(tracks: seq<Track>, ids: seq<Id>, applied: int): (r: seq<Track>)
    ensures |r| == |tracks|
    ensures forall i :: 0 <= i < |r| ==> r[i] == tracks[i].(clips := SortBy(ShiftedClips(tracks[i].clips, ids, applied), ClipKey))
  {
    seq(|tracks|, i requires 0 <= i < |tracks| =>
      tracks[i].(clips := SortBy(ShiftedClips(tracks[i].clips, ids, applied), ClipKey)))
  }

  ghost predicate EarliestOf(clips: seq<Clip>, start: int) {
    && (forall k :: 0 <= k < |clips| ==> start <= clips[k].start)
    && (exists k :: 0 <= k < |clips| && clips[k].start == start)
  }

  ghost predicate GroupRequestOk(s: Session, ids: seq<Id>, delta: int, snap: int) {
    && 2 <= |ids| <= 256 && 0 !in ids && Distinct(ids)
    && -LONGEST_MOVE <= delta <= LONGEST_MOVE && SnapOk(snap)
    && (forall id :: id in ids ==> HasClip(AllClips(s.tracks), id))
  }

  /** The group keeps its shape: its earliest clip goes to the nearest grid line, the others by as much. */
  ghost predicate GroupMoves(s: Session, ids: seq<Id>, delta: int, snap: int, r: Option<Session>) {
    if !GroupRequestOk(s, ids, delta, snap) then r == None
    else
      forall start :: EarliestOf(Group(AllClips(s.tracks), ids), start) ==>
        var snapped := SnapTo(start + delta, snap);
        r == if snapped < 0 then None else Some(s.(tracks := ShiftedTracks(s.tracks, ids, snapped - start)))
  }

  lemma {:induction false} GroupMembers(clips: seq<Clip>, ids: seq<Id>)
    ensures forall c :: c in Group(clips, ids) <==> c in clips && c.id in ids
  {
    if clips != [] {
      var n := |clips| - 1;
      GroupMembers(clips[..n], ids);
      assert clips == clips[..n] + [clips[n]];
    }
  }

  lemma GroupSnoc(clips: seq<Clip>, c: Clip, ids: seq<Id>)
    ensures Group(clips + [c], ids) == Group(clips, ids) + if c.id in ids then [c] else []
  {
    assert (clips + [c])[..|clips|] == clips;
  }

  /** The clips of the session with one of the ids, and the ids met. */
  method CollectGroup(clips: seq<Clip>, ids: seq<Id>) returns (group: seq<Clip>, met: set<Id>)
    ensures group == Group(clips, ids)
    ensures forall id :: id in met <==> id in ids && HasClip(clips, id)
  {
    group, met := [], {};
    for k := 0 to |clips|
      invariant group == Group(clips[..k], ids)
      invariant forall id :: id in met <==> id in ids && exists j :: 0 <= j < k && clips[j].id == id
    {
      assert clips[..k + 1] == clips[..k] + [clips[k]];
      GroupSnoc(clips[..k], clips[k], ids);
      if clips[k].id in ids { group, met := group + [clips[k]], met + {clips[k].id}; }
    }
    assert clips[..|clips|] == clips;
  }

  ghost function Members(ids: seq<Id>): set<Id> { set id | id in ids }

  lemma {:induction false} DistinctSize(ids: seq<Id>)
    requires Distinct(ids)
    ensures |Members(ids)| == |ids|
  {
    if ids != [] {
      var n := |ids| - 1;
      DistinctSize(ids[..n]);
      assert ids[n] !in Members(ids[..n]);
      assert ids == ids[..n] + [ids[n]];
      assert Members(ids) == Members(ids[..n]) + {ids[n]};
    }
  }

  lemma AllMet(ids: seq<Id>, met: set<Id>)
    requires Distinct(ids) && forall id :: id in met ==> id in ids
    ensures |met| == |ids| <==> forall id :: id in ids ==> id in met
  {
    DistinctSize(ids);
    assert (forall id :: id in ids ==> id in met) <==> met == Members(ids);
    if |met| == |ids| { SameSize(met, Members(ids)); }
  }

  lemma SameSize(a: set<Id>, b: set<Id>)
    requires a <= b && |a| == |b|
    ensures a == b
  {
    assert b == a + (b - a);
  }

  method EarliestStart(group: seq<Clip>) returns (start: int)
    requires group != []
    ensures EarliestOf(group, start)
  {
    start := group[0].start;
    for k := 1 to |group|
      invariant forall j :: 0 <= j < k ==> start <= group[j].start
      invariant exists j :: 0 <= j < k && group[j].start == start
    {
      if group[k].start < start { start := group[k].start; }
    }
  }

  lemma EarliestIn(clips: seq<Clip>) returns (start: int)
    requires clips != []
    ensures EarliestOf(clips, start)
  {
    var k := 0;
    for i := 0 to |clips|
      invariant 0 <= k < |clips| && forall j :: 0 <= j < i ==> clips[k].start <= clips[j].start
    {
      if clips[i].start < clips[k].start { k := i; }
    }
    start := clips[k].start;
  }

  method MoveGroup(s: Session, ids: seq<Id>, delta: int, snap: int) returns (r: Option<Session>)
    ensures GroupMoves(s, ids, delta, snap, r)
  {
    hide AllClips, Group, SortBy, SnapTo;
    if |ids| < 2 || |ids| > 256 || 0 in ids { return None; }
    if !Distinct(ids) { return None; }
    if delta < -LONGEST_MOVE || delta > LONGEST_MOVE { return None; }
    if !SnapOk(snap) { return None; }
    var group, met := CollectGroup(AllClips(s.tracks), ids);
    AllMet(ids, met);
    if |met| != |ids| { return None; }
    GroupMembers(AllClips(s.tracks), ids);
    GroupNotEmpty(AllClips(s.tracks), ids);
    var start := EarliestStart(group);
    var snapped := SnapTo(start + delta, snap);
    var applied := snapped - start;
    if exists k :: 0 <= k < |group| && group[k].start + applied < 0 { return None; }
    r := Some(s.(tracks := ShiftedTracks(s.tracks, ids, applied)));
  }

  lemma GroupNotEmpty(clips: seq<Clip>, ids: seq<Id>)
    requires ids != [] && forall id :: id in ids ==> HasClip(clips, id)
    ensures Group(clips, ids) != []
  {
    assert ids[0] in ids;
    var k :| 0 <= k < |clips| && clips[k].id == ids[0];
    GroupMembers(clips, ids);
    assert clips[k] in Group(clips, ids);
  }

  // ---- any edit ----

  /** What an edit makes of the document, or its refusal. */
  ghost predicate Edits(s: Session, op: Operation, r: Option<Session>) {
    if op.MoveMany? then GroupMoves(s, op.clipIds, op.delta, op.snap, r)
    else
      forall found :: Finds(s.tracks, op.clipId, found) ==>
        r == match found
             case None => None
             case Some(p) =>
               if op.Move? then Moved(s, p, op.start, op.snap, op.target)
               else
                 match Pieces(ClipAtPlace(s.tracks, p), op)
                 case None => None
                 case Some(pieces) => Some(Spliced(s, p, pieces))
  }

  method Edit(s: Session, op: Operation) returns (r: Option<Session>)
    ensures Edits(s, op, r)
  {
    hide Moved, Spliced, Pieces;
    if op.MoveMany? {
      r := MoveGroup(s, op.clipIds, op.delta, op.snap);
      return;
    }
    var found := FindClip(s.tracks, op.clipId);
    FindsOnce(s.tracks, op.clipId, found);
    if found.None? { return None; }
    var p := found.value;
    if op.Move? {
      r := MoveClip(s, p, op.start, op.snap, op.target);
    } else {
      var pieces := EditClip(s.tracks[p.track].clips[p.clip], op);
      r := if pieces.None? then None else Some(Spliced(s, p, pieces.value));
    }
  }

  lemma FindsOnce(tracks: seq<Track>, id: Id, found: Option<Place>)
    requires Finds(tracks, id, found)
    ensures forall other :: Finds(tracks, id, other) ==> other == found
  {
  }
}
