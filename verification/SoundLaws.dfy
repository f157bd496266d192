/** What one contribution sounds like: where the pan puts it, and what gain, volume and fade do to it. */
module SoundLaws {
  import opened Numbers
  import opened Options
  import opened ClipFades
  import opened DawMeaning
  import opened Mixing
  import opened Resampling

  function Scaled(k: real, f: Frame): Frame { Frame(Times(k, f.left), Times(k, f.right)) }

  function Swapped(f: Frame): Frame { Frame(f.right, f.left) }

  const NO_FADE := Fade(None, None, Linear)

  ghost predicate IsRoot(root: real -> real) { forall x | 0.0 <= x <= 1.0 :: root(x) >= 0.0 && root(x) * root(x) == x }

  /** The same on both channels. */
  predicate Mono(studio: Studio, c: Contribution) { studio.media(c.source.uri).left == studio.media(c.source.uri).right }

  function Weight(studio: Studio, c: Contribution): real { c.gain * FadeEnvelope(c.fade, studio.sine) * c.volume }

  /** The source's own frame, weighted by gain, fade and volume, before the pan. */
  function Weighted(studio: Studio, c: Contribution): Frame {
    var audio := studio.media(c.source.uri);
    Scaled(Weight(studio, c), Frame(SampleAt(audio.left, audio.rate, c.sourceFrame), SampleAt(audio.right, audio.rate, c.sourceFrame)))
  }

  lemma RootEnds(root: real -> real)
    requires IsRoot(root)
    ensures root(0.0) == 0.0 && root(1.0) == 1.0
  {
    hide IsRoot;
    IsRootOf(root, 0.0);
    IsRootOf(root, 1.0);
    ZeroRoot(root(0.0));
    OneRoot(root(1.0));
  }

  lemma IsRootOf(root: real -> real, x: real)
    requires IsRoot(root) && 0.0 <= x <= 1.0
    ensures root(x) >= 0.0 && root(x) * root(x) == x
  {
  }

  lemma ZeroRoot(x: real)
    requires x >= 0.0 && x * x == 0.0
    ensures x == 0.0
  {
    assert Times(x, x) == 0.0;
    hide Times;
    if x > 0.0 { TimesSign(x, x); }
  }

  lemma OneRoot(x: real)
    requires x >= 0.0 && x * x == 1.0
    ensures x == 1.0
  {
    assert Times(x, x) == 1.0;
    hide Times;
    TimesUnits(x);
    if x < 1.0 { TimesOrder(x, 1.0, x); }
    if x > 1.0 { TimesOrder(1.0, x, x); }
  }

  // ---- the pan ----

  /** Hard left, the left channel plays as it is and the right one is silent; hard right, the other way round. */
  lemma HardPan(studio: Studio, c: Contribution)
    requires c.source.kind.AudioFile? && IsRoot(studio.root)
    ensures c.pan <= -1.0 ==> Played(studio, c) == Frame(Weighted(studio, c).left, 0.0)
    ensures c.pan >= 1.0 ==> Played(studio, c) == Frame(0.0, Weighted(studio, c).right)
  {
    hide IsRoot, SampleAt, FadeEnvelope;
    RootEnds(studio.root);
  }

  /** A clip in the middle plays both channels through one gain. */
  lemma CentrePan(studio: Studio, c: Contribution)
    requires c.source.kind.AudioFile? && c.pan == 0.0
    ensures Played(studio, c) == Scaled(studio.root(0.5), Weighted(studio, c))
    ensures Mono(studio, c) ==> Played(studio, c).left == Played(studio, c).right
  {
    hide SampleAt, FadeEnvelope;
    var audio, envelope := studio.media(c.source.uri), FadeEnvelope(c.fade, studio.sine);
    Regrouped(SampleAt(audio.left, audio.rate, c.sourceFrame), c.gain, studio.root(0.5), envelope, c.volume);
    Regrouped(SampleAt(audio.right, audio.rate, c.sourceFrame), c.gain, studio.root(0.5), envelope, c.volume);
  }

  lemma Regrouped(sample: real, gain: real, root: real, envelope: real, volume: real)
    ensures Product(sample, gain * root, envelope, volume) == root * (gain * envelope * volume * sample)
  {
  }

  function Power(x: real): real { x * x }

  /** Each channel gets the share of the power that the pan gives it. */
  lemma ChannelPower(studio: Studio, c: Contribution)
    requires c.source.kind.AudioFile? && IsRoot(studio.root)
    ensures var played, weighted, pan := Played(studio, c), Weighted(studio, c), Clamp(c.pan, -1.0, 1.0);
      && Power(played.left) == Times((1.0 - pan) / 2.0, Power(weighted.left))
      && Power(played.right) == Times((1.0 + pan) / 2.0, Power(weighted.right))
  {
    hide IsRoot, SampleAt, Product, Power, Times, LeftGain, RightGain, Weight;
    var audio, pan := studio.media(c.source.uri), Clamp(c.pan, -1.0, 1.0);
    IsRootOf(studio.root, (1.0 - pan) / 2.0);
    IsRootOf(studio.root, (1.0 + pan) / 2.0);
    Gains(studio, c.gain, c.pan);
    Channel(studio, c, SampleAt(audio.left, audio.rate, c.sourceFrame), LeftGain(studio, c.gain, c.pan), (1.0 - pan) / 2.0);
    Channel(studio, c, SampleAt(audio.right, audio.rate, c.sourceFrame), RightGain(studio, c.gain, c.pan), (1.0 + pan) / 2.0);
  }

  lemma Gains(studio: Studio, gain: real, pan: real)
    ensures LeftGain(studio, gain, pan) == gain * studio.root((1.0 - Clamp(pan, -1.0, 1.0)) / 2.0)
    ensures RightGain(studio, gain, pan) == gain * studio.root((1.0 + Clamp(pan, -1.0, 1.0)) / 2.0)
  {
  }

  lemma Channel(studio: Studio, c: Contribution, sample: real, gained: real, share: real)
    requires 0.0 <= share <= 1.0 && studio.root(share) * studio.root(share) == share && gained == c.gain * studio.root(share)
    ensures Power(Product(sample, gained, FadeEnvelope(c.fade, studio.sine), c.volume))
         == Times(share, Power(Times(Weight(studio, c), sample)))
  {
    hide FadeEnvelope;
    var root, envelope := studio.root(share), FadeEnvelope(c.fade, studio.sine);
    Regrouped(sample, c.gain, root, envelope, c.volume);
    Squared(root, c.gain * envelope * c.volume * sample);
  }

  lemma Squared(root: real, weighted: real)
    ensures Power(root * weighted) == Times(root * root, Power(weighted))
  {
  }

  /** Wherever a mono source is panned, its power is the same. */
  lemma ConstantPower(studio: Studio, c: Contribution)
    requires c.source.kind.AudioFile? && IsRoot(studio.root) && Mono(studio, c)
    ensures Power(Played(studio, c).left) + Power(Played(studio, c).right) == Power(Weighted(studio, c).left)
  {
    hide IsRoot, Played, SampleAt, Weight, Power, Times;
    ChannelPower(studio, c);
    var pan := Clamp(c.pan, -1.0, 1.0);
    TimesSum((1.0 - pan) / 2.0, (1.0 + pan) / 2.0, Power(Weighted(studio, c).left));
    TimesUnits(Power(Weighted(studio, c).left));
  }

  // ---- gain, volume and fade ----

  /** The sound is proportional to the gain and to the automated volume, and the fade weights it by its envelope. */
  lemma Proportional(studio: Studio, c: Contribution, k: real)
    ensures Played(studio, c.(gain := k * c.gain)) == Scaled(k, Played(studio, c))
    ensures Played(studio, c.(volume := k * c.volume)) == Scaled(k, Played(studio, c))
    ensures Played(studio, c) == Scaled(FadeEnvelope(c.fade, studio.sine), Played(studio, c.(fade := NO_FADE)))
  {
    hide SampleAt, FadeEnvelope;
    if c.source.kind.AudioFile? {
      var audio, envelope := studio.media(c.source.uri), FadeEnvelope(c.fade, studio.sine);
      var left, right := studio.root((1.0 - Clamp(c.pan, -1.0, 1.0)) / 2.0), studio.root((1.0 + Clamp(c.pan, -1.0, 1.0)) / 2.0);
      Unfaded(studio.sine);
      Factors(SampleAt(audio.left, audio.rate, c.sourceFrame), c.gain, left, envelope, c.volume, k);
      Factors(SampleAt(audio.right, audio.rate, c.sourceFrame), c.gain, right, envelope, c.volume, k);
    }
  }

  lemma Unfaded(sine: real -> real)
    ensures FadeEnvelope(NO_FADE, sine) == 1.0
  {
  }

  lemma Factors(sample: real, gain: real, root: real, envelope: real, volume: real, k: real)
    ensures Product(sample, k * gain * root, envelope, volume) == k * Product(sample, gain * root, envelope, volume)
    ensures Product(sample, gain * root, envelope, k * volume) == k * Product(sample, gain * root, envelope, volume)
    ensures Product(sample, gain * root, envelope, volume) == envelope * Product(sample, gain * root, 1.0, volume)
  {
  }

  /** Only audio files sound. */
  lemma OthersSilent(studio: Studio, c: Contribution)
    requires !c.source.kind.AudioFile?
    ensures Played(studio, c) == SILENCE
  {
  }
}
