/** Clip fades: the level at a frame of a clip, whether or not the clip remembers a longer span it was cut from. */
module ClipFades {
  import opened Numbers
  import opened Options

  datatype Curve = Linear | EqualPower

  // `span` and `offset` anchor the ramps to the clip this one was cut from.
  datatype Fades = Fades(inFrames: int, outFrames: int, curve: Curve, span: Option<int>, offset: Option<int>)

  function Or(value: Option<int>, default: int): int { if value.Some? then value.value else default }

  function Span(fades: Fades, clipLength: int): int { Or(fades.span, clipLength) }

  // How far along a ramp a frame is.
  datatype Ramp = Ramp(reached: int, frames: int)

  // What a fade does at one frame: the ramps in force and the curve they follow.
  datatype Fade = Fade(rising: Option<Ramp>, falling: Option<Ramp>, curve: Curve)

  /** The fade of a clip of `clipLength` frames at its frame `clipFrame`. */
  function FadeAt(fades: Fades, clipLength: int, clipFrame: int): Fade {
    var position := Or(fades.offset, 0) + clipFrame;
    Fade(if fades.inFrames != 0 then Some(Ramp(position + 1, fades.inFrames)) else None,
         if fades.outFrames != 0 then Some(Ramp(Span(fades, clipLength) - position, fades.outFrames)) else None,
         fades.curve)
  }

  function Quotient(ramp: Ramp): real {
    if ramp.frames == 0 then 0.0 else ramp.reached as real / ramp.frames as real
  }

  function Level(fade: Fade): real {
    var up := if fade.rising.Some? then RealMin(1.0, Quotient(fade.rising.value)) else 1.0;
    var level := if fade.falling.Some? then RealMin(up, Quotient(fade.falling.value)) else up;
    if level < 0.0 then 0.0 else RealMin(1.0, level)
  }

  /** The gain of a fade; `sine` is the quarter sine wave of the equal-power curve. */
  function FadeEnvelope(fade: Fade, sine: real -> real): real {
    match fade.curve
    case Linear => Level(fade)
    case EqualPower => sine(Level(fade))
  }

  lemma QuotientOrder(a: int, b: int, k: int)
    requires k > 0
    ensures Quotient(Ramp(a, k)) < Quotient(Ramp(b, k)) <==> a < b
    ensures Quotient(Ramp(a, k)) < 0.0 <==> a < 0
    ensures Quotient(Ramp(a, k)) < 1.0 <==> a < k
  {
    var x, y := Quotient(Ramp(a, k)), Quotient(Ramp(b, k));
    assert x * k as real == a as real && y * k as real == b as real;
    assert (y - x) * k as real == (b - a) as real;
    assert (1.0 - x) * k as real == (k - a) as real;
  }

  /** The level is a gain from silence to unity, and unity exactly between the two ramps. */
  lemma LevelMeans(fades: Fades, clipLength: int, clipFrame: int)
    requires fades.inFrames >= 0 && fades.outFrames >= 0
    ensures var level, position := Level(FadeAt(fades, clipLength, clipFrame)), Or(fades.offset, 0) + clipFrame;
      && 0.0 <= level <= 1.0
      && (level == 1.0 <==>
          && (fades.inFrames > 0 ==> position + 1 >= fades.inFrames)
          && (fades.outFrames > 0 ==> Span(fades, clipLength) - position >= fades.outFrames))
  {
    var position := Or(fades.offset, 0) + clipFrame;
    if fades.inFrames > 0 { QuotientOrder(position + 1, 0, fades.inFrames); }
    if fades.outFrames > 0 { QuotientOrder(Span(fades, clipLength) - position, 0, fades.outFrames); }
  }

  /** While both ramps fit the span, the one of them in force decides the level alone. */
  lemma OneRampInForce(inFrames: int, outFrames: int, span: int, position: int, curve: Curve)
    requires inFrames >= 0 && outFrames >= 0 && inFrames + outFrames <= span && 0 <= position < span
    ensures var level := Level(Fade(if inFrames != 0 then Some(Ramp(position + 1, inFrames)) else None,
                                    if outFrames != 0 then Some(Ramp(span - position, outFrames)) else None, curve));
      level == if position < inFrames then RealMin(1.0, Quotient(Ramp(position + 1, inFrames)))
               else if span - position <= outFrames then Quotient(Ramp(span - position, outFrames))
               else 1.0
  {
    if inFrames > 0 { QuotientOrder(position + 1, 0, inFrames); }
    if outFrames > 0 { QuotientOrder(span - position, 0, outFrames); }
  }

  /** How far a clip's own fade has opened at its frame `k`, when the ramps fit the clip. */
  function Opened(fades: Fades, length: int, k: int): real {
    if fades.inFrames > 0 && k < fades.inFrames then (k + 1) as real / fades.inFrames as real
    else if fades.outFrames > 0 && length - k <= fades.outFrames then (length - k) as real / fades.outFrames as real
    else 1.0
  }

  /**
   * The shape of a fade that belongs to the clip alone: up the first ramp, unity, down the second; as it is on the
   * linear curve, and through the quarter sine on the equal-power one.
   */
  lemma FadeShape(fades: Fades, length: int, k: int, sine: real -> real)
    requires fades.span.None? && fades.offset.None? && fades.inFrames >= 0 && fades.outFrames >= 0
    requires fades.inFrames + fades.outFrames <= length && 0 <= k < length
    ensures FadeEnvelope(FadeAt(fades, length, k), sine)
         == if fades.curve == Linear then Opened(fades, length, k) else sine(Opened(fades, length, k))
  {
    hide Level;
    OneRampInForce(fades.inFrames, fades.outFrames, length, k, fades.curve);
    if fades.inFrames > 0 {
      QuotientOrder(k + 1, fades.inFrames, fades.inFrames);
      FullRamp(fades.inFrames);
    }
  }

  lemma FullRamp(k: int)
    requires k > 0
    ensures Quotient(Ramp(k, k)) == 1.0
  {
  }

  /** Fading out is fading in backwards, whatever the lengths of the two ramps. */
  lemma FadeMirrored(inFrames: int, outFrames: int, curve: Curve, length: int, k: int, sine: real -> real)
    ensures FadeEnvelope(FadeAt(Fades(inFrames, outFrames, curve, None, None), length, k), sine)
         == FadeEnvelope(FadeAt(Fades(outFrames, inFrames, curve, None, None), length, length - 1 - k), sine)
  {
  }
}
