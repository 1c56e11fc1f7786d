/** Test1.py: a rise-only level above a threshold set by a potentiometer,
    with a push button that resets the level and blanks the strip. */
module Test1 {
  import opened Prelude
  import opened Display
  import opened Envelope

  const NumLeds: nat := 39
  const RiseRate: real := 0.08
  /** Full scale of the 16-bit ADC reading of the potentiometer. */
  const PotFullScale: int := 65535
  const ThresholdBase: real := 1000.0
  const ThresholdSpan: real := 30000.0
  /** RMS above the threshold that lights the whole bar. */
  const NormSpan: real := 15000.0

  /** One pass's inputs: the button (pressed is active low on the pin),
      the RMS reading and the raw potentiometer value. */
  datatype Reading = Reading(pressed: bool, rms: real, pot: int)

  /** The next level and the frames written this cycle, in order. */
  datatype Output = Output(level: real, frames: seq<Frame>)

  /** The threshold the potentiometer sets: 1000 plus its position's share
      of 30000. */
  function Threshold(pot: int): (th: real)
    ensures 0 <= pot <= PotFullScale ==> 1000.0 <= th <= 31000.0
    ensures pot == 0 ==> th == 1000.0
    ensures pot == PotFullScale ==> th == 31000.0
  {
    ThresholdBase + (pot as real / PotFullScale as real) * ThresholdSpan
  }

  /** Turning the potentiometer up never lowers the threshold. */
  lemma ThresholdMonotone(p1: int, p2: int)
    requires p1 <= p2
    ensures Threshold(p1) <= Threshold(p2)
  {
  }

  /** `min(1, max(0, rms - threshold) / 15000)`. */
  function Normalise(rms: real, threshold: real): (norm: real)
    ensures 0.0 <= norm <= 1.0
    ensures norm == 0.0 <==> rms <= threshold
    ensures norm == 1.0 <==> threshold + 15000.0 <= rms
    ensures threshold < rms < threshold + 15000.0 ==> norm * 15000.0 == rms - threshold
  {
    Min(1.0, Max(0.0, rms - threshold) / NormSpan)
  }

  lemma NormaliseMonotone(r1: real, r2: real, threshold: real)
    requires r1 <= r2
    ensures Normalise(r1, threshold) <= Normalise(r2, threshold)
  {
  }

  predicate Valid(level: real)
  {
    0.0 <= level <= 1.0
  }

  /** One pass of the main loop: a press first zeroes the level and clears
      the strip; then the usual attack toward the normalised reading and
      the truncating bar. */
  function Cycle(level: real, r: Reading): (o: Output)
    ensures var start := if r.pressed then 0.0 else level;
      && o.level == AttackStepClamped(start, Normalise(r.rms, Threshold(r.pot)), RiseRate)
      && start <= o.level
      && o.level <= Max(start, Normalise(r.rms, Threshold(r.pot)))
    ensures !r.pressed ==> level <= o.level
    ensures r.pressed ==> o.level <= Normalise(r.rms, Threshold(r.pot))
    ensures Valid(level) || r.pressed ==> Valid(o.level)
    ensures r.pressed ==> o.frames == [ClearStrip(NumLeds), ShowBarTruncated(NumLeds, o.level)]
    ensures !r.pressed ==> o.frames == [ShowBarTruncated(NumLeds, o.level)]
  {
    var start := if r.pressed then 0.0 else level;
    var cleared := if r.pressed then [ClearStrip(NumLeds)] else [];
    var norm := Normalise(r.rms, Threshold(r.pot));
    var next := AttackStepClamped(start, norm, RiseRate);
    Output(next, cleared + [ShowBarTruncated(NumLeds, next)])
  }

  /** The level after a run of readings. */
  function Run(level: real, readings: seq<Reading>): real
    decreases |readings|
  {
    if readings == [] then level
    else Run(Cycle(level, readings[0]).level, readings[1..])
  }

  /** The level never leaves [0, 1], with or without resets. */
  lemma {:induction false} RunKeepsValid(level: real, readings: seq<Reading>)
    requires Valid(level)
    ensures Valid(Run(level, readings))
    decreases |readings|
  {
    if readings != [] {
      RunKeepsValid(Cycle(level, readings[0]).level, readings[1..]);
    }
  }

  /** Without a press the level never decreases. */
  lemma {:induction false} NoResetNeverFalls(level: real, readings: seq<Reading>)
    requires forall i :: 0 <= i < |readings| ==> !readings[i].pressed
    ensures level <= Run(level, readings)
    decreases |readings|
  {
    if readings != [] {
      var rest := readings[1..];
      assert forall i :: 0 <= i < |rest| ==> !rest[i].pressed by {
        forall i | 0 <= i < |rest| ensures !rest[i].pressed {
          assert rest[i] == readings[i + 1];
        }
      }
      NoResetNeverFalls(Cycle(level, readings[0]).level, rest);
    }
  }

  /** A reading at or below the threshold never moves the level, except
      that a press still resets it to 0. */
  lemma QuietReadingHolds(level: real, r: Reading)
    requires Valid(level) && r.rms <= Threshold(r.pot)
    ensures Cycle(level, r).level == if r.pressed then 0.0 else level
  {
  }
}
