/** The offline renderer: blocks mixed in turn, then a limiter that carries its gain from frame to frame. */
module OfflineRender {
  import opened Numbers
  import opened RenderPlan
  import opened Mixing

  const BLOCK := 1024

  function Abs(x: real): real { if x < 0.0 then -x else x }

  function FramePeak(f: Frame): real { RealMax(Abs(f.left), Abs(f.right)) }

  function NextGain(gain: real, peak: real, ceiling: real): real
    requires ceiling > 0.0
  {
    if peak > ceiling then RealMin(gain, ceiling / peak) else RealMin(1.0, gain + 0.002 * (1.0 - gain))
  }

  /** The limiter's gain once it has met these frames. */
  function Gain(frames: seq<Frame>, ceiling: real): real
    requires ceiling > 0.0
  {
    if frames == [] then 1.0
    else NextGain(Gain(frames[..|frames| - 1], ceiling), FramePeak(frames[|frames| - 1]), ceiling)
  }

  function Attenuated(x: real, gain: real): real { Clamp(Times(x, gain), -1.0, 1.0) }

  /** What the limiter lets through. */
  function Limited(frames: seq<Frame>, ceiling: real): (r: seq<Frame>)
    requires ceiling > 0.0
    ensures |r| == |frames|
  {
    if frames == [] then []
    else
      var last, gain := frames[|frames| - 1], Gain(frames, ceiling);
      Limited(frames[..|frames| - 1], ceiling) + [Frame(Attenuated(last.left, gain), Attenuated(last.right, gain))]
  }

  function Peak(frames: seq<Frame>): real {
    if frames == [] then 0.0 else RealMax(Peak(frames[..|frames| - 1]), FramePeak(frames[|frames| - 1]))
  }

  // ---- what the limiter promises ----

  lemma {:induction false} GainRange(frames: seq<Frame>, ceiling: real)
    requires 0.0 < ceiling
    ensures 0.0 < Gain(frames, ceiling) <= 1.0
  {
    if frames != [] {
      GainRange(frames[..|frames| - 1], ceiling);
      var peak := FramePeak(frames[|frames| - 1]);
      if peak > ceiling { assert ceiling / peak > 0.0; }
    }
  }

  lemma ProductUnder(x: real, gain: real, bound: real, ceiling: real)
    requires 0.0 <= gain && Abs(x) <= bound && Times(bound, gain) <= ceiling
    ensures Abs(Times(x, gain)) <= ceiling
  {
    hide Times;
    TimesOrder(x, bound, gain);
    TimesOrder(-bound, x, gain);
    TimesNegated(bound, gain);
  }

  lemma FitsUnder(peak: real, gain: real, ceiling: real)
    requires 0.0 < ceiling < peak && gain <= ceiling / peak
    ensures Times(peak, gain) <= ceiling && gain < 1.0
  {
    hide Times;
    var most := ceiling / peak;
    TimesQuotient(ceiling, peak);
    TimesOrder(gain, most, peak);
    TimesSwapped(gain, peak);
    TimesUnits(peak);
    if most >= 1.0 { TimesOrder(1.0, most, peak); }
  }

  lemma PeakUnder(frames: seq<Frame>, ceiling: real)
    requires frames != [] && 0.0 < ceiling
    ensures Times(FramePeak(frames[|frames| - 1]), Gain(frames, ceiling)) <= ceiling
    ensures FramePeak(frames[|frames| - 1]) > ceiling ==> Gain(frames, ceiling) < 1.0
  {
    hide FramePeak, Times;
    var peak, gain := FramePeak(frames[|frames| - 1]), Gain(frames, ceiling);
    GainRange(frames, ceiling);
    if peak > ceiling {
      FitsUnder(peak, gain, ceiling);
    } else {
      StaysUnder(peak, gain, ceiling);
    }
  }

  lemma StaysUnder(peak: real, gain: real, ceiling: real)
    requires peak <= ceiling && 0.0 <= gain <= 1.0 && 0.0 <= ceiling
    ensures Times(peak, gain) <= ceiling
  {
    hide Times;
    TimesOrder(peak, ceiling, gain);
    TimesShare(ceiling, gain);
  }

  lemma OutputUnder(f: Frame, gain: real, ceiling: real)
    requires 0.0 < gain && ceiling <= 1.0 && Times(FramePeak(f), gain) <= ceiling
    ensures var out := Frame(Attenuated(f.left, gain), Attenuated(f.right, gain));
      FramePeak(out) <= ceiling && out == Frame(Times(f.left, gain), Times(f.right, gain))
  {
    hide Attenuated, Times;
    ProductUnder(f.left, gain, FramePeak(f), ceiling);
    ProductUnder(f.right, gain, FramePeak(f), ceiling);
    Unclipped(f.left, gain, ceiling);
    Unclipped(f.right, gain, ceiling);
  }

  lemma Unclipped(x: real, gain: real, ceiling: real)
    requires Abs(Times(x, gain)) <= ceiling <= 1.0
    ensures Attenuated(x, gain) == Times(x, gain)
  {
  }

  ghost predicate Quiet(frames: seq<Frame>, ceiling: real) {
    forall k :: 0 <= k < |frames| ==> FramePeak(frames[k]) <= ceiling
  }

  lemma {:induction false} LimitedFrame(frames: seq<Frame>, k: nat, ceiling: real)
    requires 0.0 < ceiling && k < |frames|
    ensures var gain := Gain(frames[..k + 1], ceiling);
      Limited(frames, ceiling)[k] == Frame(Attenuated(frames[k].left, gain), Attenuated(frames[k].right, gain))
  {
    hide Gain, Attenuated;
    var n := |frames| - 1;
    if k < n {
      LimitedFrame(frames[..n], k, ceiling);
      assert frames[..n][..k + 1] == frames[..k + 1];
    } else {
      assert frames[..k + 1] == frames;
    }
  }

  /** Nothing that comes out is above the ceiling, so with a ceiling up to one the final clip never acts. */
  lemma LimitedUnderCeiling(frames: seq<Frame>, k: nat, ceiling: real)
    requires 0.0 < ceiling <= 1.0 && k < |frames|
    ensures FramePeak(Limited(frames, ceiling)[k]) <= ceiling
    ensures var gain := Gain(frames[..k + 1], ceiling);
      Limited(frames, ceiling)[k] == Frame(Times(frames[k].left, gain), Times(frames[k].right, gain))
  {
    hide Gain, Limited, FramePeak, Attenuated, Times;
    LimitedFrame(frames, k, ceiling);
    GainRange(frames[..k + 1], ceiling);
    PeakUnder(frames[..k + 1], ceiling);
    OutputUnder(frames[k], Gain(frames[..k + 1], ceiling), ceiling);
  }

  lemma {:induction false} QuietGain(frames: seq<Frame>, ceiling: real)
    requires 0.0 < ceiling && Quiet(frames, ceiling)
    ensures Gain(frames, ceiling) == 1.0
  {
    if frames != [] { QuietGain(frames[..|frames| - 1], ceiling); }
  }

  /** The limiter leaves a render alone exactly when no frame of it is above the ceiling. */
  lemma LimiterTransparent(frames: seq<Frame>, ceiling: real)
    requires 0.0 < ceiling <= 1.0
    ensures Limited(frames, ceiling) == frames <==> Quiet(frames, ceiling)
  {
    hide Gain, Limited, FramePeak;
    var limited := Limited(frames, ceiling);
    forall k | 0 <= k < |frames|
      ensures FramePeak(limited[k]) <= ceiling && (Quiet(frames, ceiling) ==> limited[k] == frames[k])
    {
      LimitedUnderCeiling(frames, k, ceiling);
      if Quiet(frames, ceiling) { QuietGain(frames[..k + 1], ceiling); }
    }
  }

  // ---- the renderer ----

  /** Cutting a stretch into blocks changes no frame of it. */
  lemma BlocksJoin(studio: Studio, regions: seq<Region>, start: int, a: nat, b: nat)
    ensures Mixed(studio, regions, start, a) + Mixed(studio, regions, start + a, b) == Mixed(studio, regions, start, a + b)
  {
    hide MixAt;
  }

  lemma LimiterStep(frames: seq<Frame>, f: Frame, ceiling: real)
    requires 0.0 < ceiling
    ensures Gain(frames + [f], ceiling) == NextGain(Gain(frames, ceiling), FramePeak(f), ceiling)
    ensures Limited(frames + [f], ceiling) == Limited(frames, ceiling) +
              [Frame(Attenuated(f.left, Gain(frames + [f], ceiling)), Attenuated(f.right, Gain(frames + [f], ceiling)))]
    ensures Peak(frames + [f]) == RealMax(Peak(frames), FramePeak(f))
  {
    assert (frames + [f])[..|frames|] == frames;
  }

  /** Sends one block through the limiter. */
  method LimitBlock(left: array<real>, right: array<real>, limiter: real, highest: real, ceiling: real,
                    ghost before: seq<Frame>, ghost block: seq<Frame>)
    returns (payload: seq<Frame>, gain: real, peak: real)
    requires 0.0 < ceiling && Holds(left, right, block)
    requires limiter == Gain(before, ceiling) && highest == Peak(before)
    ensures Limited(before, ceiling) + payload == Limited(before + block, ceiling)
    ensures gain == Gain(before + block, ceiling) && peak == Peak(before + block)
  {
    hide Limited, Gain, Peak;
    payload, gain, peak := [], limiter, highest;
    assert before + block[..0] == before;
    for i := 0 to left.Length
      invariant Limited(before, ceiling) + payload == Limited(before + block[..i], ceiling)
      invariant gain == Gain(before + block[..i], ceiling) && peak == Peak(before + block[..i])
    {
      var f := Frame(left[i], right[i]);
      var framePeak := RealMax(Abs(f.left), Abs(f.right));
      peak := RealMax(peak, framePeak);
      gain := if framePeak > ceiling then RealMin(gain, ceiling / framePeak) else RealMin(1.0, gain + 0.002 * (1.0 - gain));
      payload := payload + [Frame(Attenuated(f.left, gain), Attenuated(f.right, gain))];
      LimiterStep(before + block[..i], f, ceiling);
      assert before + block[..i + 1] == before + block[..i] + [f];
    }
    assert block[..|block|] == block;
  }

  /** Renders a plan: what is written is the limited mix, whatever the blocks. */
  method Render(studio: Studio, plan: Plan, ceiling: real) returns (payload: seq<Frame>, limiter: real, peak: real)
    requires 0.0 < ceiling && plan.start <= plan.end
    ensures var mix := Mixed(studio, plan.regions, plan.start, plan.end - plan.start);
      payload == Limited(mix, ceiling) && limiter == Gain(mix, ceiling) && peak == Peak(mix)
  {
    hide Limited, Gain, Peak, Mixed, MixAt, Holds;
    payload, limiter, peak := [], 1.0, 0.0;
    NothingLimited(studio, plan.regions, plan.start, ceiling);
    var blockStart := plan.start;
    while blockStart < plan.end
      invariant plan.start <= blockStart <= plan.end
      invariant var mix := Mixed(studio, plan.regions, plan.start, blockStart - plan.start);
        payload == Limited(mix, ceiling) && limiter == Gain(mix, ceiling) && peak == Peak(mix)
    {
      var count := Min(BLOCK, plan.end - blockStart);
      var left, right := Block(studio, plan.regions, blockStart, count);
      var more;
      more, limiter, peak := LimitBlock(left, right, limiter, peak, ceiling,
                                        Mixed(studio, plan.regions, plan.start, blockStart - plan.start),
                                        Mixed(studio, plan.regions, blockStart, count));
      payload := payload + more;
      BlocksJoin(studio, plan.regions, plan.start, blockStart - plan.start, count);
      blockStart := blockStart + count;
    }
  }

  lemma NothingLimited(studio: Studio, regions: seq<Region>, start: int, ceiling: real)
    requires 0.0 < ceiling
    ensures Mixed(studio, regions, start, 0) == []
    ensures Limited([], ceiling) == [] && Gain([], ceiling) == 1.0 && Peak([]) == 0.0
  {
  }

  // ---- how the gain moves ----

  function Power(x: real, n: nat): real { if n == 0 then 1.0 else Times(Power(x, n - 1), x) }

  /** While nothing is above the ceiling, each frame takes two thousandths off what is missing to unity. */
  lemma {:induction false} GainRecovers(frames: seq<Frame>, quiet: seq<Frame>, ceiling: real)
    requires 0.0 < ceiling && Quiet(quiet, ceiling)
    ensures 1.0 - Gain(frames + quiet, ceiling) == Times(1.0 - Gain(frames, ceiling), Power(0.998, |quiet|))
  {
    hide Gain, FramePeak, Times;
    if quiet == [] {
      assert frames + quiet == frames;
      TimesUnits(1.0 - Gain(frames, ceiling));
      TimesSwapped(1.0, 1.0 - Gain(frames, ceiling));
    } else {
      var n := |quiet| - 1;
      var missing := 1.0 - Gain(frames, ceiling);
      GainRecovers(frames, quiet[..n], ceiling);
      assert frames + quiet == frames + quiet[..n] + [quiet[n]];
      LimiterStep(frames + quiet[..n], quiet[n], ceiling);
      GainRange(frames + quiet[..n], ceiling);
      TimesAssociates(missing, Power(0.998, n), 0.998);
      TimesIs(Times(missing, Power(0.998, n)), 0.998);
    }
  }

  lemma TimesIs(x: real, k: real)
    ensures Times(x, k) == x * k
  {
  }

  /** The limiter takes no more away than the highest frame so far needs. */
  lemma {:induction false} GainSpares(frames: seq<Frame>, ceiling: real)
    requires 0.0 < ceiling
    ensures if Peak(frames) <= ceiling then Gain(frames, ceiling) == 1.0 else Gain(frames, ceiling) >= ceiling / Peak(frames)
  {
    hide FramePeak;
    if frames != [] {
      var before, peak := frames[..|frames| - 1], FramePeak(frames[|frames| - 1]);
      GainSpares(before, ceiling);
      GainRange(before, ceiling);
      if Peak(frames) > ceiling {
        if peak > ceiling { QuotientFalls(ceiling, peak, Peak(frames)); }
        QuotientFalls(ceiling, RealMax(ceiling, Peak(before)), Peak(frames));
      }
    }
  }

  lemma QuotientFalls(x: real, low: real, high: real)
    requires 0.0 < x <= low <= high
    ensures x / high <= x / low <= 1.0
  {
  }

  /** A frame that makes the gain fall comes out exactly at the ceiling. */
  lemma PeakAtCeiling(frames: seq<Frame>, f: Frame, ceiling: real)
    requires 0.0 < ceiling < FramePeak(f) && Gain(frames + [f], ceiling) < Gain(frames, ceiling)
    ensures Times(FramePeak(f), Gain(frames + [f], ceiling)) == ceiling
  {
    hide Gain, FramePeak, Times;
    LimiterStep(frames, f, ceiling);
    TimesQuotient(ceiling, FramePeak(f));
    TimesSwapped(ceiling / FramePeak(f), FramePeak(f));
  }

  /** The reported peak is the highest frame's. */
  lemma {:induction false} PeakIsHighest(frames: seq<Frame>, k: nat)
    requires k < |frames|
    ensures FramePeak(frames[k]) <= Peak(frames)
    ensures exists i :: 0 <= i < |frames| && FramePeak(frames[i]) == Peak(frames)
  {
    hide FramePeak;
    var n := |frames| - 1;
    if n > 0 {
      PeakIsHighest(frames[..n], if k < n then k else 0);
      var i :| 0 <= i < n && FramePeak(frames[..n][i]) == Peak(frames[..n]);
      assert FramePeak(frames[if Peak(frames) == Peak(frames[..n]) then i else n]) == Peak(frames);
    } else {
      PeakNotNegative(frames[0]);
      assert FramePeak(frames[0]) == Peak(frames);
    }
  }

  lemma PeakNotNegative(f: Frame)
    ensures FramePeak(f) >= 0.0
    ensures FramePeak(f) == 0.0 <==> f == SILENCE
  {
  }
}
