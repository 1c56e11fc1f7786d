/** ZoneFlashes.py: a noise-gated, rise-only level on a fixed dB scale,
    flashing the strip the first time the level enters each zone and
    drawing a 39-LED bar that turns solid red at full scale. */
module ZoneFlashes {
  import opened Prelude
  import opened Display
  import opened Envelope
  import opened Zones
  import Stats

  const NumLeds: nat := 39
  const AttackSpeed: real := 0.08
  const NoiseMargin: real := 1.05
  const MinDb: real := 30.0
  const MaxDb: real := 80.0

  /** One measurement: the RMS and the value `20 * log10(rms / 32768) + 90`
      the logarithm gives for it. */
  datatype Reading = Reading(rms: real, logDb: real)

  datatype State = State(level: real, lastZone: nat)

  /** The next state, the zone that fired (if any) and the frames written
      to the strip this cycle, in order. */
  datatype Output = Output(state: State, flash: Option<nat>, frames: seq<Frame>)

  /** Calibration: the mean of the quiet-window readings times the margin.
      The calibration loop always takes at least one reading. */
  function Calibrate(readings: seq<real>): (noiseFloor: real)
    requires |readings| > 0
    ensures noiseFloor * |readings| as real == Stats.Sum(readings) * 1.05
  {
    Stats.NoiseFloor(readings, NoiseMargin)
  }

  /** The noise floor is the margin times a value between the quietest and
      the loudest calibration reading. */
  lemma CalibrateBetween(readings: seq<real>, lo: real, hi: real)
    requires |readings| > 0
    requires forall i :: 0 <= i < |readings| ==> lo <= readings[i] <= hi
    ensures lo * 1.05 <= Calibrate(readings) <= hi * 1.05
  {
    Stats.NoiseFloorBetween(readings, NoiseMargin, lo, hi);
  }

  /** A steady calibration window gives that reading times 1.05. */
  lemma CalibrateConstant(readings: seq<real>)
    requires |readings| > 0
    requires Stats.AllEqual(readings)
    ensures Calibrate(readings) == readings[0] * 1.05
  {
    Stats.NoiseFloorOfConstant(readings, NoiseMargin);
  }

  function Init(): (s: State)
    ensures s.level == 0.0 && s.lastZone == 0
    ensures Valid(s)
  {
    State(0.0, 0)
  }

  predicate Valid(s: State)
  {
    0.0 <= s.level <= 1.0 && s.lastZone <= 3
  }

  /** Normalised loudness of a reading on the 30..80 dB scale. */
  function Loudness(r: Reading): (norm: real)
    ensures 0.0 <= norm <= 1.0
    ensures r.rms <= 0.0 ==> norm == 0.0
    ensures 0.0 < r.rms ==> (norm == 0.0 <==> r.logDb <= 30.0) && (norm == 1.0 <==> 80.0 <= r.logDb)
    ensures 0.0 < r.rms && 30.0 < r.logDb < 80.0 ==> norm * 50.0 == r.logDb - 30.0
  {
    DbLevel(r.rms, r.logDb, MinDb, MaxDb)
  }

  /** One pass of the main loop. */
  function Cycle(noiseFloor: real, s: State, r: Reading): (o: Output)
    ensures r.rms <= noiseFloor ==> o == Output(s, None, [])
    ensures s.level <= o.state.level && s.lastZone <= o.state.lastZone
    ensures Valid(s) ==> Valid(o.state)
    ensures noiseFloor < r.rms ==> (
      && o.state.level == AttackStep(s.level, Loudness(r), AttackSpeed)
      && o.flash == ZoneStep(o.state.level, s.lastZone).flash
      && o.state.lastZone == ZoneStep(o.state.level, s.lastZone).lastZone
      && |o.frames| >= 1
      && o.frames[|o.frames| - 1] == UpdateLeds(NumLeds, o.state.level))
    ensures noiseFloor < r.rms && o.flash.None? ==> o.frames == [UpdateLeds(NumLeds, o.state.level)]
    ensures o.flash.Some? ==> (
      && 1 <= o.flash.value <= 3
      && s.lastZone < o.flash.value == o.state.lastZone
      && o.frames == [FlashFrame(NumLeds, FlashColor(o.flash.value)), UpdateLeds(NumLeds, o.state.level)])
  {
    if r.rms <= noiseFloor then Output(s, None, [])
    else
      var level := AttackStep(s.level, Loudness(r), AttackSpeed);
      var z := ZoneStep(level, s.lastZone);
      var bar := UpdateLeds(NumLeds, level);
      var frames := if z.flash.Some? then [FlashFrame(NumLeds, FlashColor(z.flash.value)), bar] else [bar];
      Output(State(level, z.lastZone), z.flash, frames)
  }

  /** The state after a run of readings. */
  function Run(noiseFloor: real, s: State, readings: seq<Reading>): State
    decreases |readings|
  {
    if readings == [] then s
    else Run(noiseFloor, Cycle(noiseFloor, s, readings[0]).state, readings[1..])
  }

  /** The zones fired over a run, in order. */
  function Flashes(noiseFloor: real, s: State, readings: seq<Reading>): seq<nat>
    decreases |readings|
  {
    if readings == [] then []
    else
      var o := Cycle(noiseFloor, s, readings[0]);
      (if o.flash.Some? then [o.flash.value] else []) + Flashes(noiseFloor, o.state, readings[1..])
  }

  /** The level stays in [0, 1] and the record in 0..3, both only rising. */
  lemma {:induction false} RunKeepsValid(noiseFloor: real, s: State, readings: seq<Reading>)
    requires Valid(s)
    ensures Valid(Run(noiseFloor, s, readings))
    ensures s.level <= Run(noiseFloor, s, readings).level
    ensures s.lastZone <= Run(noiseFloor, s, readings).lastZone
    decreases |readings|
  {
    if readings != [] {
      RunKeepsValid(noiseFloor, Cycle(noiseFloor, s, readings[0]).state, readings[1..]);
    }
  }

  /** Zones strictly above `low`, at most 3, each higher than the last. */
  predicate IncreasingAbove(f: seq<nat>, low: int)
  {
    && (forall k :: 0 <= k < |f| ==> low < f[k] <= 3)
    && (forall j, k :: 0 <= j < k < |f| ==> f[j] < f[k])
  }

  /** Prefixing at most one zone `mid`, above `low`, to zones above `mid`
      keeps the sequence increasing, now above `low`. */
  lemma PrefixZone(head: seq<nat>, rest: seq<nat>, low: int, mid: int)
    requires IncreasingAbove(rest, mid) && low <= mid
    requires |head| <= 1
    requires |head| == 1 ==> low < head[0] == mid <= 3
    ensures IncreasingAbove(head + rest, low)
  {
    var f := head + rest;
    forall k | 0 <= k < |f| ensures low < f[k] <= 3 {
      if k >= |head| {
        assert f[k] == rest[k - |head|];
      }
    }
    forall j, k | 0 <= j < k < |f| ensures f[j] < f[k] {
      if j >= |head| {
        assert f[j] == rest[j - |head|] && f[k] == rest[k - |head|];
      } else {
        assert f[k] == rest[k - 1];
      }
    }
  }

  /** Every zone fired over a run lies above the starting record and at
      most 3, and each is higher than the one before: no zone fires twice. */
  lemma {:induction false} FlashesStrictlyIncrease(noiseFloor: real, s: State, readings: seq<Reading>)
    ensures IncreasingAbove(Flashes(noiseFloor, s, readings), s.lastZone)
    decreases |readings|
  {
    if readings != [] {
      var o := Cycle(noiseFloor, s, readings[0]);
      FlashesStrictlyIncrease(noiseFloor, o.state, readings[1..]);
      var head: seq<nat> := if o.flash.Some? then [o.flash.value] else [];
      PrefixZone(head, Flashes(noiseFloor, o.state, readings[1..]), s.lastZone, o.state.lastZone);
    }
  }

  /** A strictly increasing sequence of zones above `low` and at most 3 has
      at most 3 - low elements. */
  lemma {:induction false} IncreasingZonesBound(f: seq<nat>, low: int)
    requires low <= 3 && IncreasingAbove(f, low)
    ensures |f| <= 3 - low
    decreases |f|
  {
    if f != [] {
      var rest := f[1..];
      forall k | 0 <= k < |rest| ensures f[0] < rest[k] <= 3 {
        assert rest[k] == f[k + 1];
      }
      forall j, k | 0 <= j < k < |rest| ensures rest[j] < rest[k] {
        assert rest[j] == f[j + 1] && rest[k] == f[k + 1];
      }
      IncreasingZonesBound(rest, f[0]);
    }
  }

  /** From power-on, a whole run fires at most three flashes. */
  lemma AtMostThreeFlashes(noiseFloor: real, readings: seq<Reading>)
    ensures |Flashes(noiseFloor, Init(), readings)| <= 3
  {
    FlashesStrictlyIncrease(noiseFloor, Init(), readings);
    IncreasingZonesBound(Flashes(noiseFloor, Init(), readings), 0);
  }

  /** The 0.08 attack only ever closes part of the gap, so from a level
      below 1 (such as power-on) the level never reaches 1: the all-red
      overload branch of `update_leds` is never drawn. */
  lemma {:induction false} RunStaysBelowFull(noiseFloor: real, s: State, readings: seq<Reading>)
    requires Valid(s) && s.level < 1.0
    ensures Run(noiseFloor, s, readings).level < 1.0
    decreases |readings|
  {
    if readings != [] {
      RunStaysBelowFull(noiseFloor, Cycle(noiseFloor, s, readings[0]).state, readings[1..]);
    }
  }
}
