/** The click-track mix of `Tempos.audio`: the analysed buffer is scaled by
    `volume / 100`, the click track is added sample by sample, and the result
    is divided by its arithmetic mean when that mean exceeds 1.0. */
module Mixer {

  /** The sum of the samples. */
  function Sum(s: seq<real>): real {
    if |s| == 0 then 0.0 else s[0] + Sum(s[1..])
  }

  /** The arithmetic mean of a non-empty buffer, as `np.mean` computes it. */
  function Mean(s: seq<real>): real
    requires |s| > 0
  {
    Sum(s) / |s| as real
  }

  /** A constant signal sums to its length times its value; in particular a
      silent one sums to zero. */
  lemma {:induction false} SumOfConstant(s: seq<real>, c: real)
    requires forall i :: 0 <= i < |s| ==> s[i] == c
    ensures Sum(s) == |s| as real * c
    decreases |s|
  {
    if |s| > 0 {
      assert forall i :: 0 <= i < |s| - 1 ==> s[1..][i] == c;
      SumOfConstant(s[1..], c);
      assert Sum(s) == c + (|s| - 1) as real * c;
    }
  }

  /** The mean of a constant signal is its value. */
  lemma MeanOfConstant(s: seq<real>, c: real)
    requires |s| > 0
    requires forall i :: 0 <= i < |s| ==> s[i] == c
    ensures Mean(s) == c
  {
    SumOfConstant(s, c);
  }

  /** Every sample divided by `m`. */
  function Scale(s: seq<real>, m: real): (r: seq<real>)
    requires m != 0.0
    ensures |r| == |s|
    ensures forall i :: 0 <= i < |s| ==> r[i] * m == s[i]
  {
    seq(|s|, i requires 0 <= i < |s| => s[i] / m)
  }

  /** The buffer scaled by `volume / 100` plus the click track, sample by sample. */
  function Combine(y: seq<real>, click: seq<real>, volume: real): (r: seq<real>)
    requires |click| == |y|
    ensures |r| == |y|
  {
    seq(|y|, i requires 0 <= i < |y| => y[i] * (volume / 100.0) + click[i])
  }

  /** Whether the combined signal is divided by its mean: exactly when the
      samples sum to more than their number. An empty buffer is not divided:
      `np.mean` of no samples is NaN, and NaN compares false with 1.0. */
  function Normalises(c: seq<real>): (b: bool)
    ensures b <==> |c| > 0 && Sum(c) > |c| as real
  {
    if |c| > 0 then ExceedsOne(Sum(c), |c| as real); Mean(c) > 1.0 else false
  }

  /** A quotient by a positive number exceeds 1.0 exactly when the dividend
      exceeds the divisor. */
  lemma ExceedsOne(a: real, n: real)
    requires n > 0.0
    ensures a / n > 1.0 <==> a > n
  {
    assert a == (a / n) * n;
  }

  /** The normalisation step: divide by the mean when the mean exceeds 1.0. */
  function Normalise(c: seq<real>): (r: seq<real>)
    ensures |r| == |c|
  {
    if Normalises(c) then Scale(c, Mean(c)) else c
  }

  /** The whole mix: combine, then normalise. */
  function Mix(y: seq<real>, click: seq<real>, volume: real): (r: seq<real>)
    requires |click| == |y|
    ensures |r| == |y|
  {
    Normalise(Combine(y, click, volume))
  }

  /** Dividing every sample by `m` divides the sum by `m`. */
  lemma {:induction false} SumScale(s: seq<real>, m: real)
    requires m != 0.0
    ensures Sum(Scale(s, m)) == Sum(s) / m
    decreases |s|
  {
    if |s| > 0 {
      assert Scale(s, m)[1..] == Scale(s[1..], m);
      SumScale(s[1..], m);
    }
  }

  /** Normalisation is a uniform division by exactly the mean when the mean
      exceeds 1.0, and leaves the signal unchanged otherwise. */
  lemma NormaliseDividesByMean(c: seq<real>)
    ensures Normalises(c) ==> forall i :: 0 <= i < |c| ==> Normalise(c)[i] * Mean(c) == c[i]
    ensures !Normalises(c) ==> Normalise(c) == c
  {
  }

  /** After normalisation the mean is the smaller of the old mean and 1.0. */
  lemma NormalisedMean(c: seq<real>)
    requires |c| > 0
    ensures Mean(Normalise(c)) == if Mean(c) > 1.0 then 1.0 else Mean(c)
  {
    if Normalises(c) {
      var m := Mean(c);
      var n := |c| as real;
      var t := Normalise(c);
      assert t == Scale(c, m);
      SumScale(c, m);
      assert Sum(c) == m * n;
      assert Sum(t) == n by {
        assert Sum(t) == Sum(c) / m;
        assert (m * n) / m == n;
      }
      assert Mean(t) == n / n;
    }
  }

  /** Normalising twice is normalising once. */
  lemma NormaliseIdempotent(c: seq<real>)
    ensures Normalise(Normalise(c)) == Normalise(c)
  {
    if |c| > 0 {
      NormalisedMean(c);
    }
  }

  /** The mean is not the peak: a signal whose mean is 1.0 can keep a sample
      above 1.0, which normalisation leaves in place. */
  lemma NormaliseIsNotPeakLimiting()
    ensures Normalise([3.0, -1.0]) == [3.0, -1.0]
  {
    assert Sum([3.0, -1.0]) == 2.0 by {
      assert [3.0, -1.0][1..] == [-1.0];
      assert [-1.0][1..] == [];
    }
  }

  /** The combined signal is the scaled buffer with the click track added:
      full volume passes the buffer through, zero volume leaves only the clicks. */
  lemma CombineVolume(y: seq<real>, click: seq<real>, volume: real)
    requires |click| == |y|
    ensures forall i :: 0 <= i < |y| ==> Combine(y, click, volume)[i] - click[i] == y[i] * volume / 100.0
    ensures volume == 100.0 ==> Combine(y, click, volume) == seq(|y|, i requires 0 <= i < |y| => y[i] + click[i])
    ensures volume == 0.0 ==> Combine(y, click, volume) == click
  {
  }

  /** Volume 0 with a silent click track gives a silent mix. */
  lemma MixSilence(y: seq<real>, click: seq<real>)
    requires |click| == |y|
    requires forall i :: 0 <= i < |click| ==> click[i] == 0.0
    ensures forall i :: 0 <= i < |y| ==> Mix(y, click, 0.0)[i] == 0.0
  {
    var c := Combine(y, click, 0.0);
    SumOfConstant(c, 0.0);
  }
}
