/** NoDecay.py: a noise-gated, rise-only level on a fixed dB scale that
    redraws its 40-LED bar only in the cycles where the level rises. */
module NoDecay {
  import opened Display
  import opened Envelope

  const NumLeds: nat := 40
  const AttackSpeed: real := 0.08
  const MinDb: real := 30.0
  const MaxDb: real := 80.0

  /** One measurement: the RMS and the value `20 * log10(rms / 32768) + 90`
      the logarithm gives for it. */
  datatype Reading = Reading(rms: real, logDb: real)

  /** The next level and the frames written to the strip this cycle. */
  datatype Output = Output(level: real, frames: seq<Frame>)

  /** Normalised loudness of a reading on the 30..80 dB scale. */
  function Loudness(r: Reading): (norm: real)
    ensures 0.0 <= norm <= 1.0
    ensures r.rms <= 0.0 ==> norm == 0.0
    ensures 0.0 < r.rms ==> (norm == 0.0 <==> r.logDb <= 30.0) && (norm == 1.0 <==> 80.0 <= r.logDb)
    ensures 0.0 < r.rms && 30.0 < r.logDb < 80.0 ==> norm * 50.0 == r.logDb - 30.0
  {
    DbLevel(r.rms, r.logDb, MinDb, MaxDb)
  }

  /** One pass of the main loop. */
  function Cycle(noiseFloor: real, level: real, r: Reading): (o: Output)
    ensures r.rms <= noiseFloor ==> o == Output(level, [])
    ensures level <= o.level
    ensures o.frames != [] <==> level < o.level
    ensures o.frames != [] ==> o.frames == [UpdateLeds(NumLeds, o.level)]
    ensures 0.0 <= level <= 1.0 ==> 0.0 <= o.level <= 1.0
    ensures noiseFloor < r.rms ==> o.level == AttackStep(level, Loudness(r), AttackSpeed)
  {
    if r.rms <= noiseFloor then Output(level, [])
    else
      var norm := Loudness(r);
      if norm > level then
        var next := AttackStep(level, norm, AttackSpeed);
        Output(next, [UpdateLeds(NumLeds, next)])
      else Output(level, [])
  }

  /** The level after a run of readings. */
  function Run(noiseFloor: real, level: real, readings: seq<Reading>): real
    decreases |readings|
  {
    if readings == [] then level
    else Run(noiseFloor, Cycle(noiseFloor, level, readings[0]).level, readings[1..])
  }

  /** Number of redraws over a run. */
  function Redraws(noiseFloor: real, level: real, readings: seq<Reading>): nat
    decreases |readings|
  {
    if readings == [] then 0
    else
      var o := Cycle(noiseFloor, level, readings[0]);
      (if o.frames != [] then 1 else 0) + Redraws(noiseFloor, o.level, readings[1..])
  }

  /** A level in [0, 1], such as the initial 0, never leaves it. */
  lemma {:induction false} RunBounded(noiseFloor: real, level: real, readings: seq<Reading>)
    requires 0.0 <= level <= 1.0
    ensures 0.0 <= Run(noiseFloor, level, readings) <= 1.0
    decreases |readings|
  {
    if readings != [] {
      RunBounded(noiseFloor, Cycle(noiseFloor, level, readings[0]).level, readings[1..]);
    }
  }

  /** A run without a single redraw leaves the level where it was, and a
      run whose level ends where it started redrew nothing. */
  lemma {:induction false} NoRedrawIffUnchanged(noiseFloor: real, level: real, readings: seq<Reading>)
    ensures Redraws(noiseFloor, level, readings) == 0 <==> Run(noiseFloor, level, readings) == level
    decreases |readings|
  {
    if readings != [] {
      var o := Cycle(noiseFloor, level, readings[0]);
      NoRedrawIffUnchanged(noiseFloor, o.level, readings[1..]);
      RunNeverFalls(noiseFloor, o.level, readings[1..]);
    }
  }

  /** The level never decreases over a run. */
  lemma {:induction false} RunNeverFalls(noiseFloor: real, level: real, readings: seq<Reading>)
    ensures level <= Run(noiseFloor, level, readings)
    decreases |readings|
  {
    if readings != [] {
      RunNeverFalls(noiseFloor, Cycle(noiseFloor, level, readings[0]).level, readings[1..]);
    }
  }

  /** The 0.08 attack only ever closes part of the gap, so a level below 1
      (such as the initial 0) never reaches 1: the all-red overload branch
      of `update_leds` is never drawn. */
  lemma {:induction false} RunStaysBelowFull(noiseFloor: real, level: real, readings: seq<Reading>)
    requires 0.0 <= level < 1.0
    ensures 0.0 <= Run(noiseFloor, level, readings) < 1.0
    decreases |readings|
  {
    if readings != [] {
      RunStaysBelowFull(noiseFloor, Cycle(noiseFloor, level, readings[0]).level, readings[1..]);
    }
  }
}
