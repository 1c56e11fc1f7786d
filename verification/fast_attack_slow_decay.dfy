/** FastAttackSlowDecay.py: an auto-ranged level, exponentially smoothed,
    with a held peak that decays slowly after 0.8 s; the 39-LED bar shows
    the peak, `round(peak * NUM_LEDS)` LEDs high. */
module FastAttackSlowDecay {
  import opened Prelude
  import opened Display
  import opened Envelope
  import Stats

  const NumLeds: nat := 39
  const SmoothAlpha: real := 0.2
  const PeakHoldTime: real := 0.8
  const PeakDecay: real := 0.995
  const CeilingDecay: real := 0.9995
  /** The initial ceiling is this multiple of the noise floor. */
  const InitialRange: real := 3.0

  /** The auto-range ceiling, the smoothed level and the held peak. */
  datatype State = State(ceiling: real, smoothed: real, peak: Peak)

  datatype Output = Output(state: State, frame: Frame)

  /** `MIN_RMS`: the plain mean of the quiet-window readings. The
      calibration loop always takes at least one reading. */
  function Calibrate(readings: seq<real>): (minRms: real)
    requires |readings| > 0
    ensures minRms * |readings| as real == Stats.Sum(readings)
  {
    Stats.Mean(readings)
  }

  /** The noise floor lies between the quietest and loudest calibration reading. */
  lemma CalibrateBetween(readings: seq<real>, lo: real, hi: real)
    requires |readings| > 0
    requires forall i :: 0 <= i < |readings| ==> lo <= readings[i] <= hi
    ensures lo <= Calibrate(readings) <= hi
  {
    Stats.MeanBetween(readings, lo, hi);
  }

  /** State at power-on: ceiling three times the floor, level and peak 0,
      the peak clock started now. */
  function Init(minRms: real, now: real): (s: State)
    ensures s.ceiling == 3.0 * minRms
    ensures s.smoothed == 0.0 && s.peak == Peak(0.0, now)
  {
    State(minRms * InitialRange, 0.0, Peak(0.0, now))
  }

  predicate Valid(s: State)
  {
    0.0 <= s.ceiling && 0.0 <= s.smoothed <= s.peak.value <= 1.0
  }

  /** One pass of the main loop for an RMS reading taken at time `now`. */
  function Cycle(minRms: real, s: State, rms: real, now: real): (o: Output)
    ensures s.ceiling < rms ==> o.state.ceiling == rms
    ensures rms <= s.ceiling ==> o.state.ceiling == s.ceiling * 0.9995
    ensures var norm := NormaliseGuarded(rms, minRms, o.state.ceiling);
      && o.state.smoothed == 0.2 * norm + 0.8 * s.smoothed
      && Min(s.smoothed, norm) <= o.state.smoothed <= Max(s.smoothed, norm)
    ensures o.state.smoothed <= o.state.peak.value
    ensures s.peak.value < o.state.smoothed ==> o.state.peak == Peak(o.state.smoothed, now)
    ensures o.state.smoothed <= s.peak.value && now - s.peak.time <= 0.8 ==> o.state.peak == s.peak
    ensures o.state.smoothed <= s.peak.value && 0.8 < now - s.peak.time ==>
      o.state.peak == Peak(Max(s.peak.value * 0.995, o.state.smoothed), s.peak.time)
    ensures Valid(s) ==> Valid(o.state)
    ensures o.frame == ShowBarRounded(NumLeds, o.state.peak.value)
  {
    var ceiling := UpdateCeiling(s.ceiling, rms, CeilingDecay);
    var norm := NormaliseGuarded(rms, minRms, ceiling);
    var smoothed := Smooth(SmoothAlpha, norm, s.smoothed);
    SmoothSourceForm(SmoothAlpha, norm, s.smoothed);
    var peak := PeakHoldStep(s.peak, smoothed, now, PeakHoldTime, PeakDecay);
    Output(State(ceiling, smoothed, peak), ShowBarRounded(NumLeds, peak.value))
  }

  /** The state after a run of (rms, time) readings. */
  function Run(minRms: real, s: State, readings: seq<(real, real)>): State
    decreases |readings|
  {
    if readings == [] then s
    else Run(minRms, Cycle(minRms, s, readings[0].0, readings[0].1).state, readings[1..])
  }

  /** Over any run the smoothed level stays in [0, 1] and never above the
      held peak, and the ceiling stays non-negative. */
  lemma {:induction false} RunKeepsValid(minRms: real, s: State, readings: seq<(real, real)>)
    requires Valid(s)
    ensures Valid(Run(minRms, s, readings))
    decreases |readings|
  {
    if readings != [] {
      RunKeepsValid(minRms, Cycle(minRms, s, readings[0].0, readings[0].1).state, readings[1..]);
    }
  }

  /** Power-on state is valid for any non-negative noise floor. */
  lemma InitValid(minRms: real, now: real)
    requires 0.0 <= minRms
    ensures Valid(Init(minRms, now))
  {
  }

  /** The bar drawn each cycle lights `round(peak * 39)` LEDs. */
  lemma FrameHeight(minRms: real, s: State, rms: real, now: real)
    requires Valid(s)
    ensures var o := Cycle(minRms, s, rms, now);
      CountLit(o.frame) == Round(Scaled(o.state.peak.value, NumLeds))
  {
    var o := Cycle(minRms, s, rms, now);
    RoundedBarCount(NumLeds, o.state.peak.value);
  }

  /** While the ceiling is at or below the noise floor the input is
      treated as silence: the smoothed level shrinks toward 0 by 0.8. */
  lemma EmptyRangeDecays(minRms: real, s: State, rms: real, now: real)
    requires Max(s.ceiling, rms) <= minRms
    ensures Cycle(minRms, s, rms, now).state.smoothed == 0.8 * s.smoothed
  {
    var c := UpdateCeiling(s.ceiling, rms, CeilingDecay);
    if rms <= s.ceiling && 0.0 <= s.ceiling {
      assert c <= s.ceiling;
    }
    assert NormaliseGuarded(rms, minRms, c) == 0.0;
    SmoothSourceForm(SmoothAlpha, 0.0, s.smoothed);
  }
}
