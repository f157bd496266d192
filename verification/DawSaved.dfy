/** Edits that are always saved: moving clips, one or many, and setting a fade leave a document acceptable. */
module DawSaved {
  import opened Options
  import opened StableSort
  import opened DawDocument
  import opened DawEdits
  import opened DawCommit

  // ---- what normalizing looks at ----

  /** A clip but for where it lies, which normalizing does not refuse. */
  function Shape(c: Clip): Clip { c.(start := 0) }

  function Shapes(clips: seq<Clip>): (r: seq<Clip>)
    ensures |r| == |clips| && forall k :: 0 <= k < |r| ==> r[k] == Shape(clips[k])
  {
    seq(|clips|, k requires 0 <= k < |clips| => Shape(clips[k]))
  }

  function Bag(clips: seq<Clip>): multiset<Clip> { multiset(Shapes(clips)) }

  lemma BagConcat(a: seq<Clip>, b: seq<Clip>)
    ensures Bag(a + b) == Bag(a) + Bag(b)
  {
    assert Shapes(a + b) == Shapes(a) + Shapes(b);
  }

  lemma BagOne(c: Clip)
    ensures Bag([c]) == multiset{Shape(c)}
  {
    assert Shapes([c]) == [Shape(c)];
  }

  lemma {:induction false} BagInserted(c: Clip, clips: seq<Clip>)
    ensures Bag(Insert(c, clips, ClipKey)) == multiset{Shape(c)} + Bag(clips)
  {
    hide Bag;
    BagOne(c);
    if clips == [] || ClipKey(c).LessEq(ClipKey(clips[0])) {
      BagConcat([c], clips);
    } else {
      var first, rest := [clips[0]], Insert(c, clips[1..], ClipKey);
      BagInserted(c, clips[1..]);
      BagConcat(first, rest);
      BagConcat(first, clips[1..]);
      assert first + clips[1..] == clips;
    }
  }

  lemma {:induction false} BagSorted(clips: seq<Clip>)
    ensures Bag(SortBy(clips, ClipKey)) == Bag(clips)
  {
    hide Bag, Insert;
    if clips != [] {
      BagSorted(clips[1..]);
      BagInserted(clips[0], SortBy(clips[1..], ClipKey));
      BagOne(clips[0]);
      BagConcat([clips[0]], clips[1..]);
      assert [clips[0]] + clips[1..] == clips;
    }
  }

  ghost predicate AtMostOnce(bag: multiset<Clip>) {
    forall a, b :: a in bag && b in bag && a.id == b.id ==> a == b && bag[a] == 1
  }

  lemma ShapeIn(clips: seq<Clip>, k: nat)
    requires k < |clips|
    ensures Shape(clips[k]) in Bag(clips)
  {
    assert Shapes(clips)[k] in multiset(Shapes(clips));
  }

  /** Clips are distinct exactly when no two in their bag share an id; so order does not matter. */
  lemma DistinctBag(clips: seq<Clip>)
    ensures DistinctClips(clips) <==> AtMostOnce(Bag(clips))
  {
    if DistinctClips(clips) {
      forall a, b | a in Bag(clips) && b in Bag(clips) && a.id == b.id ensures a == b && Bag(clips)[a] == 1 {
        var i: nat :| i < |clips| && Shapes(clips)[i] == a;
        var j: nat :| j < |clips| && Shapes(clips)[j] == b;
        OccursOnce(clips, i);
      }
    }
    if AtMostOnce(Bag(clips)) {
      forall i, j | 0 <= i < j < |clips| ensures clips[i].id != clips[j].id {
        ShapeIn(clips, i);
        ShapeIn(clips, j);
        if clips[i].id == clips[j].id { OccursTwice(clips, i, j); }
      }
    }
  }

  lemma OccursOnce(clips: seq<Clip>, i: nat)
    requires DistinctClips(clips) && i < |clips|
    ensures Bag(clips)[Shape(clips[i])] == 1
  {
    var s := Shapes(clips);
    assert s == s[..i] + [s[i]] + s[i + 1..];
    assert s[i] !in s[..i] && s[i] !in s[i + 1..];
  }

  lemma OccursTwice(clips: seq<Clip>, i: nat, j: nat)
    requires i < j < |clips| && Shape(clips[i]) == Shape(clips[j])
    ensures Bag(clips)[Shape(clips[i])] >= 2
  {
    var s := Shapes(clips);
    assert s == s[..i] + [s[i]] + s[i + 1..];
    assert s[j] == s[i + 1..][j - i - 1] && s[j] in multiset(s[i + 1..]);
  }

  lemma OkBag(clips: seq<Clip>)
    ensures ClipsOk(clips) <==> forall c :: c in Bag(clips) ==> ClipOk(c)
  {
    hide FadesOk;
    if ClipsOk(clips) {
      forall c | c in Bag(clips) ensures ClipOk(c) {
        var k: nat :| k < |clips| && Shapes(clips)[k] == c;
        assert ClipOk(clips[k]);
      }
    }
    if forall c :: c in Bag(clips) ==> ClipOk(c) {
      forall k | 0 <= k < |clips| ensures ClipOk(clips[k]) { ShapeIn(clips, k); }
    }
  }

  /** A document that differs only in the order of its clips and where they lie is as acceptable. */
  lemma SameBagAcceptable(s: Session, after: Session)
    requires Acceptable(s) && SameTracks(after.tracks, s.tracks) && Bag(AllClips(after.tracks)) == Bag(AllClips(s.tracks))
    ensures Acceptable(after)
  {
    hide AllClips, Bag, ClipOk, AtMostOnce, LaneOk;
    var was, now := AllClips(s.tracks), AllClips(after.tracks);
    DistinctBag(was);
    DistinctBag(now);
    OkBag(was);
    OkBag(now);
    BagSize(was, now);
    forall i | 0 <= i < |s.tracks| ensures TrackOk(after.tracks[i]) {
      assert TrackOk(s.tracks[i]) && after.tracks[i].(clips := []) == s.tracks[i].(clips := []);
    }
    forall i, j | 0 <= i < j < |s.tracks| ensures after.tracks[i].id != after.tracks[j].id {
      assert after.tracks[i].(clips := []) == s.tracks[i].(clips := []);
      assert after.tracks[j].(clips := []) == s.tracks[j].(clips := []);
    }
  }

  lemma BagSize(a: seq<Clip>, b: seq<Clip>)
    requires Bag(a) == Bag(b)
    ensures |a| == |b|
  {
    assert |Bag(a)| == |Shapes(a)| && |Bag(b)| == |Shapes(b)|;
  }

  // ---- moves ----

  lemma OneTrackChanged(tracks: seq<Track>, i: nat, t: Track)
    requires i < |tracks|
    ensures Bag(AllClips(tracks[i := t])) + Bag(tracks[i].clips) == Bag(AllClips(tracks)) + Bag(t.clips)
  {
    hide Bag, AllClips;
    var before, rest := tracks[..i], tracks[i + 1..];
    assert tracks == before + [tracks[i]] + rest && tracks[i := t] == before + [t] + rest;
    AroundTrack(before, tracks[i], rest);
    AroundTrack(before, t, rest);
  }

  lemma AroundTrack(before: seq<Track>, t: Track, rest: seq<Track>)
    ensures Bag(AllClips(before + [t] + rest)) == Bag(AllClips(before)) + Bag(t.clips) + Bag(AllClips(rest))
  {
    hide Bag, AllClips;
    OneTrack(t);
    AllClipsConcat(before + [t], rest);
    AllClipsConcat(before, [t]);
    BagConcat(AllClips(before) + t.clips, AllClips(rest));
    BagConcat(AllClips(before), t.clips);
  }

  lemma WithoutClip(clips: seq<Clip>, k: nat)
    requires k < |clips|
    ensures Bag(clips) == Bag(clips[..k] + clips[k + 1..]) + multiset{Shape(clips[k])}
  {
    hide Bag;
    assert clips == clips[..k] + [clips[k]] + clips[k + 1..];
    BagConcat(clips[..k] + [clips[k]], clips[k + 1..]);
    BagConcat(clips[..k], [clips[k]]);
    BagConcat(clips[..k], clips[k + 1..]);
    BagOne(clips[k]);
  }

  lemma Cancel<T>(a: multiset<T>, b: multiset<T>, c: multiset<T>)
    requires a + c == b + c
    ensures a == b
  {
    forall x ensures a[x] == b[x] {
      assert (a + c)[x] == (b + c)[x];
    }
  }

  lemma RehomedBagWithin(tracks: seq<Track>, p: Place, c: Clip)
    requires At(tracks, p) && Shape(c) == Shape(ClipAtPlace(tracks, p))
    ensures Bag(AllClips(Rehomed(tracks, p, c, p.track))) == Bag(AllClips(tracks))
  {
    hide Bag, AllClips, SortBy, Shape;
    var from := tracks[p.track].clips;
    var clips := from[p.clip := c];
    BagSorted(clips);
    WithoutClip(clips, p.clip);
    WithoutClip(from, p.clip);
    assert clips[..p.clip] + clips[p.clip + 1..] == from[..p.clip] + from[p.clip + 1..];
    OneTrackChanged(tracks, p.track, tracks[p.track].(clips := SortBy(clips, ClipKey)));
    Cancel(Bag(AllClips(Rehomed(tracks, p, c, p.track))), Bag(AllClips(tracks)), Bag(from));
  }

  lemma RehomedBagAcross(tracks: seq<Track>, p: Place, c: Clip, to: nat)
    requires At(tracks, p) && to < |tracks| && to != p.track && Shape(c) == Shape(ClipAtPlace(tracks, p))
    ensures Bag(AllClips(Rehomed(tracks, p, c, to))) == Bag(AllClips(tracks))
  {
    hide Bag, AllClips, SortBy, Shape;
    var from := tracks[p.track].clips;
    var left := tracks[p.track].(clips := from[..p.clip] + from[p.clip + 1..]);
    var joined := tracks[to].clips + [c];
    WithoutClip(from, p.clip);
    BagSorted(joined);
    BagConcat(tracks[to].clips, [c]);
    BagOne(c);
    OneTrackChanged(tracks, p.track, left);
    var middle := tracks[p.track := left];
    OneTrackChanged(middle, to, middle[to].(clips := SortBy(joined, ClipKey)));
    var one, mid := multiset{Shape(c)}, Bag(AllClips(middle));
    Cancel(mid + one, Bag(AllClips(tracks)), Bag(left.clips));
    Cancel(Bag(AllClips(Rehomed(tracks, p, c, to))), mid + one, Bag(tracks[to].clips));
  }

  lemma RehomedBag(tracks: seq<Track>, p: Place, c: Clip, to: nat)
    requires At(tracks, p) && to < |tracks| && Shape(c) == Shape(ClipAtPlace(tracks, p))
    ensures Bag(AllClips(Rehomed(tracks, p, c, to))) == Bag(AllClips(tracks))
  {
    hide Bag, AllClips, SortBy, Shape, Rehomed;
    if to == p.track { RehomedBagWithin(tracks, p, c); } else { RehomedBagAcross(tracks, p, c, to); }
  }

  /** A move the edit makes is always saved. */
  lemma MoveAccepted(s: Session, op: Operation, after: Session, found: Option<Place>)
    requires op.Move? && Acceptable(s) && Clamped(s) && Finds(s.tracks, op.clipId, found) && Edits(s, op, Some(after))
    ensures Acceptable(after)
  {
    hide Acceptable, Clamped, Rehomed, AllClips, Bag, SnapTo;
    var p := found.value;
    var to := TrackIndex(s.tracks, if op.target.Some? then op.target.value else s.tracks[p.track].id).value;
    EditKeepsClamped(s, op, after, found);
    RehomedBag(s.tracks, p, ClipAtPlace(s.tracks, p).(start := SnapTo(op.start, op.snap)), to);
    SameBagAcceptable(s, after);
  }

  lemma {:induction false} ShiftedBag(tracks: seq<Track>, sorted: seq<Track>, ids: seq<Id>, applied: int)
    requires |sorted| == |tracks|
    requires forall i :: 0 <= i < |tracks| ==>
      sorted[i] == tracks[i].(clips := SortBy(ShiftedClips(tracks[i].clips, ids, applied), ClipKey))
    ensures Bag(AllClips(sorted)) == Bag(AllClips(tracks))
  {
    hide Bag, SortBy;
    if tracks != [] {
      var n := |tracks| - 1;
      ShiftedBag(tracks[..n], sorted[..n], ids, applied);
      BagSorted(ShiftedClips(tracks[n].clips, ids, applied));
      ShiftKeepsBag(tracks[n].clips, ids, applied);
      BagConcat(AllClips(tracks[..n]), tracks[n].clips);
      BagConcat(AllClips(sorted[..n]), sorted[n].clips);
    }
  }

  lemma ShiftKeepsBag(clips: seq<Clip>, ids: seq<Id>, applied: int)
    ensures Bag(ShiftedClips(clips, ids, applied)) == Bag(clips)
  {
    assert Shapes(ShiftedClips(clips, ids, applied)) == Shapes(clips);
  }

  /** A group move the edit makes is always saved. */
  lemma GroupMoveAccepted(s: Session, op: Operation, after: Session)
    requires op.MoveMany? && Acceptable(s) && Clamped(s) && Edits(s, op, Some(after))
    ensures Acceptable(after)
  {
    hide Acceptable, Clamped, AllClips, Bag, SnapTo, Group, SortBy;
    EditKeepsClamped(s, op, after, None);
    GroupNotEmpty(AllClips(s.tracks), op.clipIds);
    var start := EarliestIn(Group(AllClips(s.tracks), op.clipIds));
    ShiftedBag(s.tracks, after.tracks, op.clipIds, SnapTo(start + op.delta, op.snap) - start);
    SameBagAcceptable(s, after);
  }

  // ---- fades ----

  lemma FadedOk(c: Clip, faded: Clip)
    requires ClipOk(c) && faded.id == c.id && faded.length == c.length && faded.fades.span == None && faded.fades.offset == None
    requires faded.fades.inFrames >= 0 && faded.fades.outFrames >= 0 && faded.fades.inFrames + faded.fades.outFrames <= c.length
    ensures ClipsOk([faded])
  {
  }

  /** A fade the edit sets is always saved. */
  lemma FadeAccepted(s: Session, op: Operation, after: Session, found: Option<Place>)
    requires op.SetFade? && Acceptable(s) && Clamped(s) && Finds(s.tracks, op.clipId, found) && Edits(s, op, Some(after))
    ensures Acceptable(after)
  {
    hide Acceptable, Clamped, AllClips, Spliced, ClipOk;
    var p := found.value;
    var c := ClipAtPlace(s.tracks, p);
    var pieces := Pieces(c, op).value;
    ClipIsOk(s, p);
    FadedOk(c, pieces[0]);
    WholeDistinct(s, p);
    DistinctReplaced(ClipsBefore(s.tracks, p), c, pieces[0], ClipsAfter(s.tracks, p));
    SplicedAcceptable(s, p, pieces);
    AtMost(s);
  }
}
