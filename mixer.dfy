/** Mixing of two PCM streams into one (audio/mixer.rs). */
module Mixer {
  import opened Pcm

  /** `x.clamp(i16::MIN, i16::MAX)` on a wide integer. */
  function Clamp(x: int): (r: Int16)
    ensures x < I16_MIN ==> r == I16_MIN
    ensures x > I16_MAX ==> r == I16_MAX
    ensures I16_MIN <= x <= I16_MAX ==> r == x
  {
    if x < I16_MIN then I16_MIN else if x > I16_MAX then I16_MAX else x
  }

  /** `a.get(i).unwrap_or(&0)`: a missing sample reads as silence. */
  function SampleAt(a: seq<Int16>, i: nat): Int16
  {
    if i < |a| then a[i] else 0
  }

  /** `mix_samples`: the sum of both streams, saturated to the i16 range,
      with the shorter stream padded by silence. */
  function MixSamples(a: seq<Int16>, b: seq<Int16>): (r: seq<Int16>)
    ensures |r| == if |a| >= |b| then |a| else |b|
    ensures forall i :: 0 <= i < |r| ==> r[i] == Clamp(SampleAt(a, i) + SampleAt(b, i))
  {
    var len := if |a| >= |b| then |a| else |b|;
    seq(len, i requires 0 <= i < len => Clamp(SampleAt(a, i) + SampleAt(b, i)))
  }

  /** Mixing is symmetric in its two inputs. */
  lemma MixCommutes(a: seq<Int16>, b: seq<Int16>)
    ensures MixSamples(a, b) == MixSamples(b, a)
  {
    var r, r' := MixSamples(a, b), MixSamples(b, a);
    assert |r| == |r'|;
    forall i | 0 <= i < |r| ensures r[i] == r'[i] {
      assert SampleAt(a, i) + SampleAt(b, i) == SampleAt(b, i) + SampleAt(a, i);
    }
  }

  /** Mixing with silence of any length no longer than the stream, or with the
      empty stream, gives the stream back. */
  lemma MixWithSilence(a: seq<Int16>, b: seq<Int16>)
    requires |b| <= |a|
    requires forall i :: 0 <= i < |b| ==> b[i] == 0
    ensures MixSamples(a, b) == a
  {
    var r := MixSamples(a, b);
    forall i | 0 <= i < |a| ensures r[i] == a[i] {
      assert SampleAt(b, i) == 0;
    }
  }

  /** Where the exact sum fits in 16 bits, the mix is the exact sum; where it
      does not, the mix sits at the bound on the sum's side. */
  lemma MixSaturates(a: seq<Int16>, b: seq<Int16>, i: nat)
    requires i < |a| && i < |b|
    ensures I16_MIN <= a[i] + b[i] <= I16_MAX ==> MixSamples(a, b)[i] == a[i] + b[i]
    ensures a[i] + b[i] > I16_MAX ==> MixSamples(a, b)[i] == I16_MAX
    ensures a[i] + b[i] < I16_MIN ==> MixSamples(a, b)[i] == I16_MIN
  {
  }

  /** The unit tests of audio/mixer.rs. */
  lemma MixExamples()
    ensures MixSamples([1000, 2000, 3000], [500, 1000, 1500]) == [1500, 3000, 4500]
    ensures MixSamples([I16_MAX], [1000]) == [I16_MAX]
    ensures MixSamples([I16_MIN], [-1000]) == [I16_MIN]
    ensures MixSamples([1000, 2000, 3000], [500]) == [1500, 2000, 3000]
    ensures MixSamples([], []) == []
  {
    var r1 := MixSamples([1000, 2000, 3000], [500, 1000, 1500]);
    assert r1[0] == 1500 && r1[1] == 3000 && r1[2] == 4500;
    var r4 := MixSamples([1000, 2000, 3000], [500]);
    assert r4[0] == 1500 && r4[1] == 2000 && r4[2] == 3000;
  }
}
