/** Reading a source file at the session rate, from a bounded slice of it. */
module Resampling {
  import opened Numbers

  const CANONICAL_RATE := 192000

  // A decoded two-channel source; a mono file repeats its channel.
  datatype Audio = Audio(rate: nat, left: seq<real>, right: seq<real>) {
    predicate Valid() { |left| == |right| }
  }

  type Sound = a: Audio | a.Valid() witness Audio(0, [], [])

  /** The sample before a session frame, counted from `origin`, the next one, and what lies between. */
  function SampleFrom(data: seq<real>, rate: nat, frame: int, origin: int): real {
    var lo := frame * rate / CANONICAL_RATE - origin;
    var fraction := (frame * rate % CANONICAL_RATE) as real / CANONICAL_RATE as real;
    var a := if 0 <= lo < |data| then data[lo] else 0.0;
    var b := if 0 <= lo + 1 < |data| then data[lo + 1] else a;
    a + (b - a) * fraction
  }

  /** The whole source read at one session frame. */
  function SampleAt(data: seq<real>, rate: nat, frame: int): real { SampleFrom(data, rate, frame, 0) }

  function SliceStart(rate: nat, start: int): int { Max(0, start * rate / CANONICAL_RATE - 1) }

  function SliceEnd(rate: nat, start: int, count: nat): int {
    ((start + count) * rate + CANONICAL_RATE - 1) / CANONICAL_RATE + 2
  }

  /** What a reader positioned at `from` delivers when asked for `count` frames. */
  function ReadFrames(data: seq<real>, from: int, count: int): seq<real>
    requires 0 <= from <= |data|
  {
    data[from..Min(|data|, from + Max(0, count))]
  }

  lemma DivideMonotone(a: int, b: int)
    requires a <= b
    ensures a / CANONICAL_RATE <= b / CANONICAL_RATE
  {
  }

  /** Both neighbours of every frame of the block lie in the slice. */
  lemma NeighboursInSlice(rate: nat, start: int, count: nat, i: nat)
    requires i < count
    ensures var lo := (start + i) * rate / CANONICAL_RATE;
      && start * rate / CANONICAL_RATE <= lo && lo + 1 < SliceEnd(rate, start, count)
  {
    assert (start + i) * rate == start * rate + i * rate;
    assert (start + count) * rate == (start + i) * rate + (count - i) * rate;
    var near, far := (start + i) * rate, (start + count) * rate;
    DivideMonotone(start * rate, near);
    DivideMonotone(near, far + CANONICAL_RATE - 1);
  }

  /** The same sample, read from a slice that holds every neighbour the frame could have. */
  lemma SampleFromSlice(data: seq<real>, rate: nat, frame: int, from: int, to: int)
    requires from >= 0 && to - from >= 0
    requires from == 0 || from <= frame * rate / CANONICAL_RATE
    requires frame * rate / CANONICAL_RATE + 1 < to
    ensures SampleFrom(ReadFrames(data, Min(from, |data|), to - from), rate, frame, from) == SampleAt(data, rate, frame)
  {
    var lo := frame * rate / CANONICAL_RATE;
    var slice := ReadFrames(data, Min(from, |data|), to - from);
    assert 0 <= lo - from < |slice| <==> 0 <= lo < |data|;
    assert 0 <= lo + 1 - from < |slice| <==> 0 <= lo + 1 < |data|;
  }

  /** For every rate, block and length of the source, the slice gives what interpolating the whole source would. */
  lemma SliceEqualsWhole(data: seq<real>, rate: nat, start: int, count: nat, i: nat)
    requires i < count
    ensures var from, to := SliceStart(rate, start), SliceEnd(rate, start, count);
      SampleFrom(ReadFrames(data, Min(from, |data|), to - from), rate, start + i, from) == SampleAt(data, rate, start + i)
  {
    hide ReadFrames, SampleFrom, SampleAt;
    var from, to := SliceStart(rate, start), SliceEnd(rate, start, count);
    NeighboursInSlice(rate, start, count, i);
    if to >= from {
      SampleFromSlice(data, rate, start + i, from, to);
    } else {
      BeforeTheSource(data, rate, start + i, from, to);
    }
  }

  /** A block that ends before the source begins reads nothing and is silent. */
  lemma BeforeTheSource(data: seq<real>, rate: nat, frame: int, from: int, to: int)
    requires from >= 0 && to < from && frame * rate / CANONICAL_RATE + 1 < to
    requires from == 0 || from <= frame * rate / CANONICAL_RATE
    ensures SampleFrom(ReadFrames(data, Min(from, |data|), to - from), rate, frame, from) == SampleAt(data, rate, frame)
  {
  }

  method Resample(data: seq<real>, rate: nat, count: nat, start: int, sourceOrigin: int) returns (result: seq<real>)
    ensures |result| == count
    ensures forall i :: 0 <= i < count ==> result[i] == SampleFrom(data, rate, start + i, sourceOrigin)
  {
    hide SampleFrom;
    result := [];
    for i := 0 to count
      invariant |result| == i
      invariant forall j :: 0 <= j < i ==> result[j] == SampleFrom(data, rate, start + j, sourceOrigin)
    {
      var at := (start + i) * rate;
      var lo, remainder := at / CANONICAL_RATE - sourceOrigin, at % CANONICAL_RATE;
      var fraction := remainder as real / CANONICAL_RATE as real;
      var a := if 0 <= lo < |data| then data[lo] else 0.0;
      var b := if 0 <= lo + 1 < |data| then data[lo + 1] else a;
      SampleIs(data, rate, start + i, sourceOrigin, a, b, fraction);
      result := result + [a + (b - a) * fraction];
    }
  }

  lemma SampleIs(data: seq<real>, rate: nat, frame: int, origin: int, a: real, b: real, fraction: real)
    requires fraction == (frame * rate % CANONICAL_RATE) as real / CANONICAL_RATE as real
    requires var lo := frame * rate / CANONICAL_RATE - origin;
      && a == (if 0 <= lo < |data| then data[lo] else 0.0)
      && b == (if 0 <= lo + 1 < |data| then data[lo + 1] else a)
    ensures SampleFrom(data, rate, frame, origin) == a + (b - a) * fraction
  {
  }

  /** A block of a source at the session rate, from the few source frames it needs. */
  method SourceSlice(audio: Sound, start: int, count: nat) returns (left: seq<real>, right: seq<real>)
    ensures |left| == |right| == count
    ensures forall i :: 0 <= i < count ==> left[i] == SampleAt(audio.left, audio.rate, start + i)
    ensures forall i :: 0 <= i < count ==> right[i] == SampleAt(audio.right, audio.rate, start + i)
  {
    hide SampleFrom, SampleAt, ReadFrames;
    var sourceStart, sourceEnd := SliceStart(audio.rate, start), SliceEnd(audio.rate, start, count);
    var at := Min(sourceStart, |audio.left|);
    var readLeft, readRight := ReadFrames(audio.left, at, sourceEnd - sourceStart), ReadFrames(audio.right, at, sourceEnd - sourceStart);
    left := Resample(readLeft, audio.rate, count, start, sourceStart);
    right := Resample(readRight, audio.rate, count, start, sourceStart);
    forall i | 0 <= i < count
      ensures left[i] == SampleAt(audio.left, audio.rate, start + i) && right[i] == SampleAt(audio.right, audio.rate, start + i)
    {
      SliceEqualsWhole(audio.left, audio.rate, start, count, i);
      SliceEqualsWhole(audio.right, audio.rate, start, count, i);
    }
  }

  // ---- what a sample means ----

  /** The source as a function of real time: straight lines between samples, the last one held, silence outside. */
  function Waveform(data: seq<real>, at: real): real {
    var k := at.Floor;
    var a := if 0 <= k < |data| then data[k] else 0.0;
    var b := if 0 <= k + 1 < |data| then data[k + 1] else a;
    a + (b - a) * (at - k as real)
  }

  /** A session frame reads the waveform at that frame's own time. */
  lemma SampleIsWaveform(data: seq<real>, rate: nat, frame: int)
    ensures SampleAt(data, rate, frame) == Waveform(data, (frame * rate) as real / CANONICAL_RATE as real)
  {
    var n := frame * rate;
    var q, r := n / CANONICAL_RATE, n % CANONICAL_RATE;
    var at := n as real / CANONICAL_RATE as real;
    assert at == q as real + r as real / CANONICAL_RATE as real;
    assert at.Floor == q;
  }

  /** A source already at the session rate is read unchanged, and is silent outside its length. */
  lemma SameRateUnchanged(data: seq<real>, frame: int)
    ensures 0 <= frame < |data| ==> SampleAt(data, CANONICAL_RATE, frame) == data[frame]
    ensures frame < 0 || frame >= |data| ==> SampleAt(data, CANONICAL_RATE, frame) == 0.0
  {
    assert frame * CANONICAL_RATE / CANONICAL_RATE == frame && frame * CANONICAL_RATE % CANONICAL_RATE == 0;
  }
}
