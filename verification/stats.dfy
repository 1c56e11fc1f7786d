/** The sampler and the calibrator: every variant reduces a batch of raw
    ADC readings to the population mean-square deviation from the batch
    mean (`read_rms` before its square root), and averages a window of such
    readings into a noise floor. */
module Stats {

  function Sum(xs: seq<real>): real
  {
    if xs == [] then 0.0 else xs[0] + Sum(xs[1..])
  }

  /** Arithmetic mean, `sum(xs) / len(xs)`. */
  function Mean(xs: seq<real>): (m: real)
    requires |xs| > 0
    ensures m * |xs| as real == Sum(xs)
  {
    Sum(xs) / |xs| as real
  }

  /** Real product with its sign rules stated; squares go through it so
      that their sign follows from these rules alone. */
  function Mul(a: real, b: real): (r: real)
    ensures (0.0 < a && 0.0 < b) || (a < 0.0 && b < 0.0) ==> 0.0 < r
    ensures a == 0.0 || b == 0.0 ==> r == 0.0
  {
    a * b
  }

  function Square(d: real): (r: real)
    ensures 0.0 <= r
    ensures d != 0.0 ==> 0.0 < r
    ensures d == 0.0 ==> r == 0.0
  {
    Mul(d, d)
  }

  /** Sum of squared deviations from m. */
  function SumSqDev(xs: seq<real>, m: real): (r: real)
    ensures 0.0 <= r
  {
    if xs == [] then 0.0 else Square(xs[0] - m) + SumSqDev(xs[1..], m)
  }

  /** Population variance: mean squared deviation from the mean. */
  function Variance(xs: seq<real>): (v: real)
    requires |xs| > 0
    ensures 0.0 <= v
  {
    SumSqDev(xs, Mean(xs)) / |xs| as real
  }

  predicate AllEqual(xs: seq<real>)
  {
    forall i :: 0 <= i < |xs| ==> xs[i] == xs[0]
  }

  function AsReals(vals: seq<int>): (xs: seq<real>)
    ensures |xs| == |vals|
    ensures forall i :: 0 <= i < |vals| ==> xs[i] == vals[i] as real
  {
    seq(|vals|, i requires 0 <= i < |vals| => vals[i] as real)
  }

  function Shift(xs: seq<real>, c: real): (ys: seq<real>)
    ensures |ys| == |xs|
    ensures forall i :: 0 <= i < |xs| ==> ys[i] == xs[i] + c
  {
    seq(|xs|, i requires 0 <= i < |xs| => xs[i] + c)
  }

  /** The square of `read_rms(samples)`: mean squared deviation of the raw
      readings from their mean. */
  function MeanSquareDeviation(vals: seq<int>): (v: real)
    requires |vals| > 0
    ensures 0.0 <= v
  {
    Variance(AsReals(vals))
  }

  /** Calibration: mean of the RMS readings collected during the quiet
      window, scaled by a safety margin. */
  function NoiseFloor(readings: seq<real>, margin: real): (nf: real)
    requires |readings| > 0
    ensures nf * |readings| as real == Sum(readings) * margin
  {
    Mean(readings) * margin
  }

  lemma {:induction false} SumBounds(xs: seq<real>, lo: real, hi: real)
    requires forall i :: 0 <= i < |xs| ==> lo <= xs[i] <= hi
    ensures |xs| as real * lo <= Sum(xs) <= |xs| as real * hi
  {
    if xs != [] {
      SumBounds(xs[1..], lo, hi);
    }
  }

  lemma {:induction false} SumConst(xs: seq<real>, c: real)
    requires forall i :: 0 <= i < |xs| ==> xs[i] == c
    ensures Sum(xs) == |xs| as real * c
  {
    if xs != [] {
      SumConst(xs[1..], c);
    }
  }

  lemma {:induction false} SumShift(xs: seq<real>, c: real)
    ensures Sum(Shift(xs, c)) == Sum(xs) + |xs| as real * c
  {
    if xs != [] {
      assert Shift(xs, c)[1..] == Shift(xs[1..], c);
      SumShift(xs[1..], c);
    }
  }

  lemma {:induction false} SumSqDevShift(xs: seq<real>, m: real, c: real)
    ensures SumSqDev(Shift(xs, c), m + c) == SumSqDev(xs, m)
  {
    if xs != [] {
      assert Shift(xs, c)[1..] == Shift(xs[1..], c);
      SumSqDevShift(xs[1..], m, c);
    }
  }

  lemma {:induction false} SumSqDevZeroIff(xs: seq<real>, m: real)
    ensures SumSqDev(xs, m) == 0.0 <==> forall i :: 0 <= i < |xs| ==> xs[i] == m
  {
    if xs != [] {
      SumSqDevZeroIff(xs[1..], m);
      if forall i :: 0 <= i < |xs| ==> xs[i] == m {
        assert forall i :: 0 <= i < |xs[1..]| ==> xs[1..][i] == m by {
          forall i | 0 <= i < |xs[1..]| ensures xs[1..][i] == m {
            assert xs[1..][i] == xs[i + 1];
          }
        }
      }
      if SumSqDev(xs, m) == 0.0 {
        forall i | 0 <= i < |xs| ensures xs[i] == m {
          if i > 0 {
            assert xs[i] == xs[1..][i - 1];
          }
        }
      }
    }
  }

  /** The mean of a batch lies between any bounds of its readings. */
  lemma MeanBetween(xs: seq<real>, lo: real, hi: real)
    requires |xs| > 0
    requires forall i :: 0 <= i < |xs| ==> lo <= xs[i] <= hi
    ensures lo <= Mean(xs) <= hi
  {
    SumBounds(xs, lo, hi);
  }

  /** The deviation is zero exactly when every reading in the batch is the
      same, i.e. a silent (constant-bias) microphone. */
  lemma VarianceZeroIff(xs: seq<real>)
    requires |xs| > 0
    ensures Variance(xs) == 0.0 <==> AllEqual(xs)
  {
    var m := Mean(xs);
    var n := |xs| as real;
    SumSqDevZeroIff(xs, m);
    if AllEqual(xs) {
      SumConst(xs, xs[0]);
      assert m * n == n * xs[0];
      assert m == xs[0];
    }
    if Variance(xs) == 0.0 {
      assert SumSqDev(xs, m) == 0.0;
    }
  }

  /** A DC offset added to every reading leaves the deviation unchanged:
      the measure ignores microphone bias. */
  lemma VarianceShiftInvariant(xs: seq<real>, c: real)
    requires |xs| > 0
    ensures Variance(Shift(xs, c)) == Variance(xs)
  {
    var n := |xs| as real;
    SumShift(xs, c);
    assert Mean(Shift(xs, c)) * n == (Mean(xs) + c) * n;
    assert Mean(Shift(xs, c)) == Mean(xs) + c;
    SumSqDevShift(xs, Mean(xs), c);
  }

  lemma MeanSquareDeviationZeroIff(vals: seq<int>)
    requires |vals| > 0
    ensures MeanSquareDeviation(vals) == 0.0 <==> forall i :: 0 <= i < |vals| ==> vals[i] == vals[0]
  {
    VarianceZeroIff(AsReals(vals));
  }

  lemma MeanSquareDeviationOffset(vals: seq<int>, c: int)
    requires |vals| > 0
    ensures MeanSquareDeviation(seq(|vals|, i requires 0 <= i < |vals| => vals[i] + c)) == MeanSquareDeviation(vals)
  {
    var shifted := seq(|vals|, i requires 0 <= i < |vals| => vals[i] + c);
    assert AsReals(shifted) == Shift(AsReals(vals), c as real);
    VarianceShiftInvariant(AsReals(vals), c as real);
  }

  /** The noise floor is the margin times a value between the quietest and
      the loudest calibration reading. */
  lemma NoiseFloorBetween(readings: seq<real>, margin: real, lo: real, hi: real)
    requires |readings| > 0
    requires 0.0 <= margin
    requires forall i :: 0 <= i < |readings| ==> lo <= readings[i] <= hi
    ensures lo * margin <= NoiseFloor(readings, margin) <= hi * margin
  {
    MeanBetween(readings, lo, hi);
    var m := Mean(readings);
    assert lo * margin <= m * margin;
    assert m * margin <= hi * margin;
  }

  /** A constant calibration window calibrates to that constant times the margin. */
  lemma NoiseFloorOfConstant(readings: seq<real>, margin: real)
    requires |readings| > 0
    requires AllEqual(readings)
    ensures NoiseFloor(readings, margin) == readings[0] * margin
  {
    SumConst(readings, readings[0]);
  }
}
