/** Mixing: the sound of a frame, the block loop both renderers share, and the offline limiter. */
module Mixing {
  import opened Numbers
  import opened Options
  import opened Automation
  import opened ClipFades
  import opened DawDocument
  import opened DawEdits
  import opened DawMeaning
  import opened Resampling
  import opened RenderPlan

  // The sources, and the two curves that are not computed here: the square root and the quarter sine wave.
  datatype Studio = Studio(media: Id -> Sound, root: real -> real, sine: real -> real)

  datatype Frame = Frame(left: real, right: real)

  const SILENCE := Frame(0.0, 0.0)

  function Add(a: Frame, b: Frame): Frame { Frame(a.left + b.left, a.right + b.right) }

  function Product(sample: real, gain: real, envelope: real, volume: real): real { sample * gain * envelope * volume }

  function LeftGain(studio: Studio, gain: real, pan: real): real { gain * studio.root((1.0 - Clamp(pan, -1.0, 1.0)) / 2.0) }

  function RightGain(studio: Studio, gain: real, pan: real): real { gain * studio.root((1.0 + Clamp(pan, -1.0, 1.0)) / 2.0) }

  /** One contribution as sound; only audio files sound. */
  function Played(studio: Studio, c: Contribution): Frame {
    if !c.source.kind.AudioFile? then SILENCE
    else
      var audio, envelope := studio.media(c.source.uri), FadeEnvelope(c.fade, studio.sine);
      Frame(Product(SampleAt(audio.left, audio.rate, c.sourceFrame), LeftGain(studio, c.gain, c.pan), envelope, c.volume),
            Product(SampleAt(audio.right, audio.rate, c.sourceFrame), RightGain(studio, c.gain, c.pan), envelope, c.volume))
  }

  function Sum(studio: Studio, cs: seq<Contribution>): Frame {
    if cs == [] then SILENCE else Add(Played(studio, cs[0]), Sum(studio, cs[1..]))
  }

  /** The sound of a plan at a frame, before any limiter. */
  function MixAt(studio: Studio, regions: seq<Region>, frame: int): Frame { Sum(studio, RegionsAt(regions, frame)) }

  function Mixed(studio: Studio, regions: seq<Region>, start: int, count: nat): (r: seq<Frame>)
    ensures |r| == count && forall i :: 0 <= i < count ==> r[i] == MixAt(studio, regions, start + i)
  {
    seq(count, i requires 0 <= i < count => MixAt(studio, regions, start + i))
  }

  lemma AddSilence(a: Frame)
    ensures Add(SILENCE, a) == a == Add(a, SILENCE)
  {
  }

  lemma AddAssociates(a: Frame, b: Frame, c: Frame)
    ensures Add(Add(a, b), c) == Add(a, Add(b, c))
    ensures Add(a, b) == Add(b, a)
  {
  }

  lemma {:induction false} SumConcat(studio: Studio, a: seq<Contribution>, b: seq<Contribution>)
    ensures Sum(studio, a + b) == Add(Sum(studio, a), Sum(studio, b))
  {
    hide Played, Add;
    if a == [] {
      assert a + b == b;
      AddSilence(Sum(studio, b));
    } else {
      SumConcat(studio, a[1..], b);
      assert (a + b)[1..] == a[1..] + b;
      AddAssociates(Played(studio, a[0]), Sum(studio, a[1..]), Sum(studio, b));
    }
  }

  function Without(cs: seq<Contribution>, k: nat): (r: seq<Contribution>)
    requires k < |cs|
    ensures |r| == |cs| - 1
  {
    cs[..k] + cs[k + 1..]
  }

  /** Any contribution can be added first. */
  lemma SumFront(studio: Studio, cs: seq<Contribution>, k: nat)
    requires k < |cs|
    ensures Sum(studio, cs) == Add(Played(studio, cs[k]), Sum(studio, Without(cs, k)))
  {
    hide Played, Sum;
    var before, rest := cs[..k], cs[k + 1..];
    assert cs == before + ([cs[k]] + rest);
    SumConcat(studio, before, [cs[k]] + rest);
    SumConcat(studio, [cs[k]], rest);
    SumConcat(studio, before, rest);
    SumOne(studio, cs[k]);
  }

  lemma SumOne(studio: Studio, c: Contribution)
    ensures Sum(studio, [c]) == Played(studio, c)
  {
    hide Played;
    assert [c][1..] == [];
  }

  lemma TakenOut(cs: seq<Contribution>, k: nat)
    requires k < |cs|
    ensures multiset(Without(cs, k)) == multiset(cs) - multiset{cs[k]}
  {
    assert cs == cs[..k] + [cs[k]] + cs[k + 1..];
  }

  lemma FoundIn(c: Contribution, cs: seq<Contribution>) returns (k: nat)
    requires c in multiset(cs)
    ensures k < |cs| && cs[k] == c
  {
    k :| k < |cs| && cs[k] == c;
  }

  lemma SameCount(a: seq<Contribution>, b: seq<Contribution>)
    requires multiset(a) == multiset(b)
    ensures |a| == |b|
  {
    assert |multiset(a)| == |a| && |multiset(b)| == |b|;
  }

  /** The sound depends on the bag of contributions only, not on their order. */
  lemma {:induction false} SumOfBag(studio: Studio, a: seq<Contribution>, b: seq<Contribution>)
    requires multiset(a) == multiset(b)
    ensures Sum(studio, a) == Sum(studio, b)
    decreases |a|
  {
    hide Played, Sum, Add, Without;
    SameCount(a, b);
    if a != [] {
      var k := FoundIn(a[0], b);
      TakenOut(a, 0);
      TakenOut(b, k);
      SumOfBag(studio, Without(a, 0), Without(b, k));
      SumFront(studio, a, 0);
      SumFront(studio, b, k);
    }
  }

  /** Rendering a session's plan sounds, at every frame of its range, like the session itself. */
  lemma MixIsHeard(studio: Studio, s: Session, start: int, end: int, frame: int)
    requires start <= frame < end
    ensures MixAt(studio, Planned(s, start, end).regions, frame) == Sum(studio, Heard(s, frame))
  {
    hide Sum, Heard, Planned, RegionsAt;
    PlanMeansSession(s, start, end, frame);
    SumOfBag(studio, RegionsAt(Planned(s, start, end).regions, frame), Heard(s, frame));
  }

  /** A split is inaudible: every frame of every render is the same sound. */
  lemma SplitIsInaudible(studio: Studio, s: Session, clipId: Id, splitFrame: int, newClipId: Id, after: Session,
                         found: Option<Place>, start: int, end: int, frame: int)
    requires Finds(s.tracks, clipId, found) && Edits(s, Split(clipId, splitFrame, newClipId), Some(after))
    requires start <= frame < end
    ensures MixAt(studio, Planned(after, start, end).regions, frame) == MixAt(studio, Planned(s, start, end).regions, frame)
  {
    hide MixAt, Sum, Heard, Planned, Edits, Finds;
    SplitKeepsMeaning(s, clipId, splitFrame, newClipId, after, found, frame);
    MixIsHeard(studio, s, start, end, frame);
    MixIsHeard(studio, after, start, end, frame);
  }

  // ---- the block loop ----

  /** What one region adds to one frame. */
  function RegionSound(studio: Studio, r: Region, frame: int): Frame { Sum(studio, RegionAt(r, frame)) }

  lemma MixSplitsFirst(studio: Studio, regions: seq<Region>, frame: int)
    requires regions != []
    ensures MixAt(studio, regions, frame) == Add(RegionSound(studio, regions[0], frame), MixAt(studio, regions[1..], frame))
  {
    hide RegionAt, Sum;
    SumConcat(studio, RegionAt(regions[0], frame), RegionsAt(regions[1..], frame));
  }

  lemma SilentRegion(studio: Studio, r: Region, frame: int)
    requires !r.source.kind.AudioFile? || !(r.renderStart <= frame < r.renderStart + r.renderFrames)
    ensures RegionSound(studio, r, frame) == SILENCE
  {
    hide FadeAt, AutomationValue;
    if r.renderStart <= frame < r.renderStart + r.renderFrames { SumOne(studio, RegionAt(r, frame)[0]); }
  }

  /** The product the loop computes for a frame inside a region. */
  lemma SoundingRegion(studio: Studio, r: Region, frame: int)
    requires r.source.kind.AudioFile? && r.renderStart <= frame < r.renderStart + r.renderFrames
    ensures
      var audio, relative := studio.media(r.source.uri), frame - r.renderStart;
      var left := SampleAt(audio.left, audio.rate, r.sourceStart + relative);
      var right := SampleAt(audio.right, audio.rate, r.sourceStart + relative);
      var envelope := FadeEnvelope(FadeAt(r.fades, r.clipLength, r.clipOffset + relative), studio.sine);
      var volume := AutomationValue(r.strip.automation, frame, 1.0);
      RegionSound(studio, r, frame) ==
      Frame(Product(left, LeftGain(studio, r.strip.gain, r.strip.pan), envelope, volume),
            Product(right, RightGain(studio, r.strip.gain, r.strip.pan), envelope, volume))
  {
    hide Product, SampleAt, LeftGain, RightGain, FadeEnvelope, FadeAt, AutomationValue, Sum;
    SumOne(studio, RegionAt(r, frame)[0]);
  }

  /** The part of a region inside the block: where it begins, and its sound frame by frame. */
  method RegionBlock(studio: Studio, r: Region, start: int, frames: nat) returns (begin: int, sounds: seq<Frame>)
    ensures sounds != [] ==> start <= begin && begin + |sounds| <= start + frames
    ensures forall i :: 0 <= i < |sounds| ==> sounds[i] == RegionSound(studio, r, begin + i)
    ensures forall frame :: start <= frame < start + frames && !(begin <= frame < begin + |sounds|) ==>
                            RegionSound(studio, r, frame) == SILENCE
  {
    hide RegionSound, Product, SampleAt, LeftGain, RightGain, FadeEnvelope, FadeAt, AutomationValue;
    begin := Max(start, r.renderStart);
    var finish := Min(start + frames, r.renderStart + r.renderFrames);
    sounds := [];
    forall frame | start <= frame < start + frames && (!r.source.kind.AudioFile? || !(begin <= frame < finish))
      ensures RegionSound(studio, r, frame) == SILENCE
    {
      SilentRegion(studio, r, frame);
    }
    if finish <= begin || !r.source.kind.AudioFile? { return; }
    var amount, relative := finish - begin, begin - r.renderStart;
    var audio := studio.media(r.source.uri);
    var sl, sr := SourceSlice(audio, r.sourceStart + relative, amount);
    var gl, gr := LeftGain(studio, r.strip.gain, r.strip.pan), RightGain(studio, r.strip.gain, r.strip.pan);
    var curve := new PreparedAutomation(r.strip.automation, 1.0);
    var volumes := curve.Block(begin, amount);
    for i := 0 to amount
      invariant |sounds| == i
      invariant forall j :: 0 <= j < i ==> sounds[j] == RegionSound(studio, r, begin + j)
    {
      var envelope := FadeEnvelope(FadeAt(r.fades, r.clipLength, r.clipOffset + (relative + i)), studio.sine);
      SoundingRegion(studio, r, begin + i);
      sounds := sounds + [Frame(Product(sl[i], gl, envelope, volumes[i]), Product(sr[i], gr, envelope, volumes[i]))];
    }
  }

  ghost predicate Holds(left: array<real>, right: array<real>, sounds: seq<Frame>)
    reads left, right
  {
    left.Length == right.Length == |sounds| && forall i :: 0 <= i < |sounds| ==> left[i] == sounds[i].left && right[i] == sounds[i].right
  }

  /** The buffers with a region's part added from `at` on. */
  ghost function Added(before: seq<Frame>, sounds: seq<Frame>, at: int): (r: seq<Frame>)
    ensures |r| == |before|
    ensures forall i :: 0 <= i < |r| ==> r[i] == if at <= i < at + |sounds| then Add(before[i], sounds[i - at]) else before[i]
  {
    seq(|before|, i requires 0 <= i < |before| => if at <= i < at + |sounds| then Add(before[i], sounds[i - at]) else before[i])
  }

  method Accumulate(left: array<real>, right: array<real>, at: int, sounds: seq<Frame>, ghost before: seq<Frame>)
    requires left != right && Holds(left, right, before)
    requires sounds != [] ==> 0 <= at && at + |sounds| <= left.Length
    modifies left, right
    ensures Holds(left, right, Added(before, sounds, at))
  {
    for i := 0 to |sounds|
      invariant Holds(left, right, Added(before, sounds[..i], at))
    {
      left[at + i] := left[at + i] + sounds[i].left;
      right[at + i] := right[at + i] + sounds[i].right;
    }
    assert sounds[..|sounds|] == sounds;
  }

  /** What the buffers hold and what the regions from `k` on still add make the whole mix. */
  ghost predicate Remaining(studio: Studio, regions: seq<Region>, k: nat, start: int, sum: seq<Frame>) {
    k <= |regions| &&
    forall i :: 0 <= i < |sum| ==> Add(sum[i], MixAt(studio, regions[k..], start + i)) == MixAt(studio, regions, start + i)
  }

  lemma RegionDone(studio: Studio, regions: seq<Region>, k: nat, start: int, sum: seq<Frame>, begin: int, sounds: seq<Frame>)
    requires k < |regions| && Remaining(studio, regions, k, start, sum)
    requires forall i :: 0 <= i < |sounds| ==> sounds[i] == RegionSound(studio, regions[k], begin + i)
    requires forall frame :: start <= frame < start + |sum| && !(begin <= frame < begin + |sounds|) ==>
                             RegionSound(studio, regions[k], frame) == SILENCE
    ensures Remaining(studio, regions, k + 1, start, Added(sum, sounds, begin - start))
  {
    hide MixAt, RegionSound;
    var next := Added(sum, sounds, begin - start);
    forall i | 0 <= i < |next|
      ensures Add(next[i], MixAt(studio, regions[k + 1..], start + i)) == MixAt(studio, regions, start + i)
    {
      assert regions[k..][1..] == regions[k + 1..];
      MixSplitsFirst(studio, regions[k..], start + i);
      assert begin <= start + i < begin + |sounds| ==> sounds[start + i - begin] == RegionSound(studio, regions[k], start + i);
    }
  }

  lemma NothingDone(studio: Studio, regions: seq<Region>, start: int, sum: seq<Frame>)
    requires forall i :: 0 <= i < |sum| ==> sum[i] == SILENCE
    ensures Remaining(studio, regions, 0, start, sum)
  {
    hide MixAt;
    assert regions[0..] == regions;
  }

  lemma AllDone(studio: Studio, regions: seq<Region>, start: int, sum: seq<Frame>)
    requires Remaining(studio, regions, |regions|, start, sum)
    ensures sum == Mixed(studio, regions, start, |sum|)
  {
    assert regions[|regions|..] == [];
  }

  /** One block: every region adds its part to the two buffers, which end up holding the mix of each frame. */
  method Block(studio: Studio, regions: seq<Region>, start: int, frames: nat) returns (left: array<real>, right: array<real>)
    ensures fresh(left) && fresh(right) && left != right
    ensures Holds(left, right, Mixed(studio, regions, start, frames))
  {
    hide Remaining, Mixed, Holds;
    left := new real[frames](_ => 0.0);
    right := new real[frames](_ => 0.0);
    ghost var sum := seq(frames, _ => SILENCE);
    HoldsSilence(left, right, frames);
    NothingDone(studio, regions, start, sum);
    for k := 0 to |regions|
      invariant Holds(left, right, sum) && |sum| == frames
      invariant Remaining(studio, regions, k, start, sum)
    {
      sum := AddRegion(studio, regions, k, start, left, right, sum);
    }
    AllDone(studio, regions, start, sum);
  }

  lemma HoldsSilence(left: array<real>, right: array<real>, frames: nat)
    requires left.Length == right.Length == frames
    requires forall i :: 0 <= i < frames ==> left[i] == 0.0 && right[i] == 0.0
    ensures Holds(left, right, seq(frames, _ => SILENCE))
  {
  }

  /** One turn of the block loop. */
  method AddRegion(studio: Studio, regions: seq<Region>, k: nat, start: int, left: array<real>, right: array<real>, ghost sum: seq<Frame>)
    returns (ghost next: seq<Frame>)
    requires k < |regions| && left != right && left.Length == right.Length == |sum| && Holds(left, right, sum)
    requires Remaining(studio, regions, k, start, sum)
    modifies left, right
    ensures Holds(left, right, next) && |next| == |sum| && Remaining(studio, regions, k + 1, start, next)
  {
    hide Remaining, RegionSound, Holds;
    var begin, sounds := RegionBlock(studio, regions[k], start, left.Length);
    Accumulate(left, right, begin - start, sounds, sum);
    RegionDone(studio, regions, k, start, sum, begin, sounds);
    next := Added(sum, sounds, begin - start);
  }
}
