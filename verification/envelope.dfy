/** The envelope tracker: one-cycle update policies shared by the variants.
    Each is a pure step from the previous state and the cycle's reading to
    the next state; the rates and factors are parameters, and the variant
    modules supply their scripts' constants. */
module Envelope {
  import opened Prelude

  // ---------------------------------------------------------------------
  // Auto-ranging ceiling

  /** The observed maximum jumps to a louder reading at once and otherwise
      shrinks by the decay factor. */
  function UpdateCeiling(ceiling: real, rms: real, decay: real): (c: real)
    ensures ceiling < rms ==> c == rms
    ensures rms <= ceiling ==> c == Scale(ceiling, decay)
    ensures 0.0 <= ceiling && 0.0 <= decay <= 1.0 ==>
      Scale(Max(ceiling, rms), decay) <= c <= Max(ceiling, rms)
  {
    if rms > ceiling then rms else Scale(ceiling, decay)
  }

  /** The ceiling after a run of readings, one update per reading. */
  function CeilingAfter(ceiling: real, readings: seq<real>, decay: real): real
    decreases |readings|
  {
    if readings == [] then ceiling
    else CeilingAfter(UpdateCeiling(ceiling, readings[0], decay), readings[1..], decay)
  }

  /** One quiet cycle in terms of the closed form: decaying once and then
      k - 1 more times is decaying k times, and never raises the ceiling. */
  lemma QuietCycle(ceiling: real, decay: real, k: nat)
    requires 0.0 <= ceiling && 0.0 <= decay <= 1.0 && 0 < k
    ensures Scale(Scale(ceiling, decay), Pow(decay, k - 1)) == Scale(ceiling, Pow(decay, k))
    ensures Scale(ceiling, Pow(decay, k)) <= ceiling
    ensures 0.0 <= Scale(ceiling, decay)
  {
    ScaleCompose(ceiling, decay, Pow(decay, k - 1));
  }

  /** While no reading exceeds the ceiling of its own cycle, the ceiling
      decays geometrically: reading j meets ceiling * decay^j, and after k
      such cycles the ceiling is ceiling * decay^k. */
  lemma {:induction false} CeilingDecaysGeometrically(ceiling: real, readings: seq<real>, decay: real)
    requires 0.0 <= ceiling && 0.0 <= decay <= 1.0
    requires forall j :: 0 <= j < |readings| ==> readings[j] <= Scale(ceiling, Pow(decay, j))
    ensures CeilingAfter(ceiling, readings, decay) == Scale(ceiling, Pow(decay, |readings|))
    decreases |readings|
  {
    if readings != [] {
      QuietCycle(ceiling, decay, |readings|);
      assert readings[0] <= Scale(ceiling, Pow(decay, 0));
      var next := UpdateCeiling(ceiling, readings[0], decay);
      assert next == Scale(ceiling, decay);
      var rest := readings[1..];
      assert forall j :: 0 <= j < |rest| ==> rest[j] <= Scale(next, Pow(decay, j)) by {
        forall j | 0 <= j < |rest| ensures rest[j] <= Scale(next, Pow(decay, j)) {
          assert rest[j] == readings[j + 1];
          QuietCycle(ceiling, decay, j + 1);
        }
      }
      CeilingDecaysGeometrically(next, rest, decay);
    }
  }

  /** The ceiling is not kept at or above the reading: a reading just below
      the ceiling is overtaken by the decay in the same cycle. */
  lemma CeilingCanFallBelowReading()
    ensures UpdateCeiling(100.0, 99.99, 0.9995) == 99.95
    ensures UpdateCeiling(100.0, 99.99, 0.9995) < 99.99
  {
  }

  // ---------------------------------------------------------------------
  // Normalisation

  /** FastAttackSlowDecay's normalisation: 0 when the range is empty or
      inverted, otherwise the reading's position between floor and ceiling,
      clamped to [0, 1]. */
  function NormaliseGuarded(rms: real, floor: real, ceiling: real): (norm: real)
    ensures 0.0 <= norm <= 1.0
    ensures ceiling <= floor ==> norm == 0.0
    ensures floor < ceiling ==> (norm == 0.0 <==> rms <= floor)
    ensures floor < ceiling ==> (norm == 1.0 <==> ceiling <= rms)
    ensures floor < rms < ceiling ==> norm * (ceiling - floor) == rms - floor
  {
    if ceiling <= floor then 0.0
    else
      DivFacts(rms - floor, ceiling - floor);
      Clamp((rms - floor) / (ceiling - floor), 0.0, 1.0)
  }

  lemma NormaliseGuardedMonotone(r1: real, r2: real, floor: real, ceiling: real)
    requires r1 <= r2
    ensures NormaliseGuarded(r1, floor, ceiling) <= NormaliseGuarded(r2, floor, ceiling)
  {
    if floor < ceiling {
      DivMonotone(r1 - floor, r2 - floor, ceiling - floor);
    }
  }

  /** The tiny constant SlowAttackFastDecay adds to its denominator. */
  const Epsilon: real := 0.000001

  /** SlowAttackFastDecay's normalisation as written: no guard on the range,
      only 1e-6 added to the denominator; a zero denominator is Python's
      ZeroDivisionError. On an inverted range the division flips the scale:
      readings at or above the floor give 0 and quiet ones give more. */
  function NormaliseEpsilonAsWritten(rms: real, floor: real, ceiling: real): (norm: Option<real>)
    ensures norm.None? <==> ceiling - floor + Epsilon == 0.0
    ensures norm.Some? ==> 0.0 <= norm.value <= 1.0
    ensures var d := ceiling - floor + Epsilon;
      0.0 < d ==> (
        && (norm.value == 0.0 <==> rms <= floor)
        && (norm.value == 1.0 <==> ceiling + Epsilon <= rms)
        && (floor < rms < ceiling + Epsilon ==> norm.value * d == rms - floor))
    ensures var d := ceiling - floor + Epsilon;
      d < 0.0 ==> (
        && (norm.value == 0.0 <==> floor <= rms)
        && (norm.value == 1.0 <==> rms <= ceiling + Epsilon)
        && (ceiling + Epsilon < rms < floor ==> norm.value * d == rms - floor))
  {
    var d := ceiling - floor + Epsilon;
    if d == 0.0 then None
    else
      if d > 0.0 then
        DivFacts(rms - floor, d);
        Some(Clamp((rms - floor) / d, 0.0, 1.0))
      else
        DivNegFacts(rms - floor, d);
        Some(Clamp((rms - floor) / d, 0.0, 1.0))
  }

  /** With the ceiling decayed below the noise floor, a reading quieter than
      the floor produces a positive level: silence lights LEDs. */
  lemma QuietReadingLightsBar(rms: real, floor: real, ceiling: real)
    requires ceiling + Epsilon < floor && rms < floor
    ensures NormaliseEpsilonAsWritten(rms, floor, ceiling).Some?
    ensures NormaliseEpsilonAsWritten(rms, floor, ceiling).value > 0.0
  {
    var d := ceiling - floor + Epsilon;
    DivFacts(floor - rms, -d);
    assert (rms - floor) / d == (floor - rms) / (-d);
  }

  /** A concrete case: floor 100, ceiling decayed to 40, reading 40 gives
      the full-scale value 1. */
  lemma QuietReadingFullScale()
    ensures NormaliseEpsilonAsWritten(40.0, 100.0, 40.0) == Some(1.0)
  {
    var d := 40.0 - 100.0 + Epsilon;
    DivFacts(60.0 - 59.999999, 59.999999);
    assert (40.0 - 100.0) / d == 60.0 / 59.999999;
    DivFacts(60.0, 59.999999);
  }

  /** The corrected normalisation: the same formula, but an empty or inverted
      range yields 0 as in FastAttackSlowDecay. */
  function NormaliseEpsilon(rms: real, floor: real, ceiling: real): (norm: real)
    ensures 0.0 <= norm <= 1.0
    ensures ceiling <= floor ==> norm == 0.0
    ensures rms <= floor ==> norm == 0.0
    ensures floor < ceiling ==> (norm == 0.0 <==> rms <= floor)
    ensures floor < ceiling ==> (norm == 1.0 <==> ceiling + Epsilon <= rms)
    ensures floor < ceiling && floor < rms < ceiling + Epsilon ==>
      norm * (ceiling - floor + Epsilon) == rms - floor
  {
    if ceiling <= floor then 0.0
    else
      DivFacts(rms - floor, ceiling - floor + Epsilon);
      Clamp((rms - floor) / (ceiling - floor + Epsilon), 0.0, 1.0)
  }

  /** The as-written and the corrected normalisation agree on every
      non-inverted range. */
  lemma NormaliseEpsilonAgrees(rms: real, floor: real, ceiling: real)
    requires floor < ceiling
    ensures NormaliseEpsilonAsWritten(rms, floor, ceiling) == Some(NormaliseEpsilon(rms, floor, ceiling))
  {
  }

  lemma NormaliseEpsilonMonotone(r1: real, r2: real, floor: real, ceiling: real)
    requires r1 <= r2
    ensures NormaliseEpsilon(r1, floor, ceiling) <= NormaliseEpsilon(r2, floor, ceiling)
  {
    if floor < ceiling {
      DivMonotone(r1 - floor, r2 - floor, ceiling - floor + Epsilon);
    }
  }

  /** The loudness scale of ZoneFlashes and NoDecay: `rms_to_db` answers
      the lower display bound for a non-positive RMS and otherwise the
      caller-supplied logarithmic value. */
  function RmsToDb(rms: real, logDb: real, minDb: real): (db: real)
    ensures rms <= 0.0 ==> db == minDb
    ensures 0.0 < rms ==> db == logDb
  {
    if rms <= 0.0 then minDb else logDb
  }

  /** Position of a dB value in the fixed display range, clamped to [0, 1]. */
  function NormaliseDb(db: real, minDb: real, maxDb: real): (norm: real)
    requires minDb < maxDb
    ensures 0.0 <= norm <= 1.0
    ensures norm == 0.0 <==> db <= minDb
    ensures norm == 1.0 <==> maxDb <= db
    ensures minDb < db < maxDb ==> norm * (maxDb - minDb) == db - minDb
  {
    DivFacts(db - minDb, maxDb - minDb);
    Clamp((db - minDb) / (maxDb - minDb), 0.0, 1.0)
  }

  /** A louder dB value never sits lower on the display range. */
  lemma NormaliseDbMonotone(db1: real, db2: real, minDb: real, maxDb: real)
    requires minDb < maxDb && db1 <= db2
    ensures NormaliseDb(db1, minDb, maxDb) <= NormaliseDb(db2, minDb, maxDb)
  {
    DivMonotone(db1 - minDb, db2 - minDb, maxDb - minDb);
  }

  /** The loudness of ZoneFlashes and NoDecay: the reading's dB value
      (the display floor when the RMS is not positive) placed on the fixed
      display range. */
  function DbLevel(rms: real, logDb: real, minDb: real, maxDb: real): (norm: real)
    requires minDb < maxDb
    ensures 0.0 <= norm <= 1.0
    ensures rms <= 0.0 ==> norm == 0.0
    ensures 0.0 < rms ==> (norm == 0.0 <==> logDb <= minDb) && (norm == 1.0 <==> maxDb <= logDb)
    ensures 0.0 < rms && minDb < logDb < maxDb ==> norm * (maxDb - minDb) == logDb - minDb
  {
    NormaliseDb(RmsToDb(rms, logDb, minDb), minDb, maxDb)
  }

  /** For a positive RMS, a higher dB value never lowers the loudness. */
  lemma DbLevelMonotone(rms: real, db1: real, db2: real, minDb: real, maxDb: real)
    requires minDb < maxDb && 0.0 < rms && db1 <= db2
    ensures DbLevel(rms, db1, minDb, maxDb) <= DbLevel(rms, db2, minDb, maxDb)
  {
    NormaliseDbMonotone(db1, db2, minDb, maxDb);
  }

  // ---------------------------------------------------------------------
  // Exponential smoothing and peak hold

  /** Exponential smoothing, written as a step of `alpha` times the gap from
      the previous value toward the new reading; `SmoothSourceForm` shows it
      is `alpha * norm + (1 - alpha) * prev`. */
  function Smooth(alpha: real, norm: real, prev: real): (s: real)
    ensures 0.0 <= alpha <= 1.0 ==> Min(prev, norm) <= s <= Max(prev, norm)
    ensures alpha == 1.0 ==> s == norm
    ensures alpha == 0.0 || norm == prev ==> s == prev
  {
    prev + Scale(norm - prev, alpha)
  }

  lemma SmoothSourceForm(alpha: real, norm: real, prev: real)
    ensures Smooth(alpha, norm, prev) == alpha * norm + (1.0 - alpha) * prev
  {
    assert (norm - prev) * alpha == alpha * norm + (1.0 - alpha) * prev - prev;
  }

  /** The held peak and the time it was last raised. */
  datatype Peak = Peak(value: real, time: real)

  /** One peak-hold step: a rising smoothed value raises the peak and
      restarts the hold clock; after the hold time the peak decays by the
      factor but never below the smoothed value. */
  function PeakHoldStep(p: Peak, smoothed: real, now: real, holdTime: real, decay: real): (q: Peak)
    ensures smoothed <= q.value
    ensures p.value < smoothed ==> q == Peak(smoothed, now)
    ensures smoothed <= p.value && now - p.time <= holdTime ==> q == p
    ensures smoothed <= p.value && holdTime < now - p.time ==>
      q.time == p.time && q.value == Max(Scale(p.value, decay), smoothed)
    ensures 0.0 <= p.value && 0.0 <= decay <= 1.0 ==> q.value <= Max(p.value, smoothed)
  {
    if smoothed > p.value then Peak(smoothed, now)
    else if now - p.time > holdTime then
      var decayed := Scale(p.value, decay);
      Peak(if decayed < smoothed then smoothed else decayed, p.time)
    else p
  }

  // ---------------------------------------------------------------------
  // Fixed-rate rise and fall

  /** SlowAttackFastDecay's step: move toward the reading by at most the
      rise rate (going up) or the fall rate (going down), never past it. */
  function RiseFallStep(level: real, norm: real, rise: real, fall: real): (next: real)
    ensures level < norm ==> next == Min(level + rise, norm)
    ensures norm <= level ==> next == Max(level - fall, norm)
    ensures 0.0 <= rise && 0.0 <= fall ==> Min(level, norm) <= next <= Max(level, norm)
    ensures 0.0 <= rise && 0.0 <= fall ==> -fall <= next - level <= rise
  {
    if norm > level then
      var up := level + rise;
      if up > norm then norm else up
    else
      var down := level - fall;
      if down < norm then norm else down
  }

  /** k cycles of `RiseFallStep` toward a constant reading. */
  function RiseFallIterate(level: real, norm: real, rise: real, fall: real, k: nat): real
    decreases k
  {
    if k == 0 then level else RiseFallIterate(RiseFallStep(level, norm, rise, fall), norm, rise, fall, k - 1)
  }

  /** Held at a constant reading, the level settles on it exactly once the
      rate times the number of cycles covers the distance, and stays. */
  lemma {:induction false} RiseFallSettles(level: real, norm: real, rise: real, fall: real, k: nat)
    requires 0.0 < rise && 0.0 < fall
    requires level <= norm ==> norm - level <= k as real * rise
    requires norm < level ==> level - norm <= k as real * fall
    ensures RiseFallIterate(level, norm, rise, fall, k) == norm
    decreases k
  {
    if k > 0 {
      var next := RiseFallStep(level, norm, rise, fall);
      assert (k - 1) as real * rise == k as real * rise - rise;
      assert (k - 1) as real * fall == k as real * fall - fall;
      if level <= norm {
        assert next == norm || next == level + rise;
      } else {
        assert next == norm || next == level - fall;
      }
      RiseFallSettles(next, norm, rise, fall, k - 1);
    }
  }

  // ---------------------------------------------------------------------
  // Proportional rise-only attack

  /** The "no decay" attack of ZoneFlashes and NoDecay: close a fraction
      `speed` of the gap to a louder reading; ignore quieter ones. */
  function AttackStep(level: real, norm: real, speed: real): (next: real)
    ensures norm <= level ==> next == level
    ensures level < norm ==> norm - next == (1.0 - speed) * (norm - level)
    ensures 0.0 <= speed ==> level <= next
    ensures 0.0 <= speed <= 1.0 ==> next <= Max(level, norm)
    ensures 0.0 < speed < 1.0 && level < norm ==> level < next < norm
  {
    if norm > level then level + Scale(norm - level, speed) else level
  }

  /** k cycles of `AttackStep` toward a constant reading. */
  function AttackIterate(level: real, norm: real, speed: real, k: nat): real
    decreases k
  {
    if k == 0 then level else AttackIterate(AttackStep(level, norm, speed), norm, speed, k - 1)
  }

  /** Held at a constant louder reading, the gap to it shrinks to
      (1 - speed)^k of itself after k cycles. */
  lemma {:induction false} AttackGapShrinks(level: real, norm: real, speed: real, k: nat)
    requires 0.0 <= speed <= 1.0 && level <= norm
    ensures norm - AttackIterate(level, norm, speed, k) == Scale(norm - level, Pow(1.0 - speed, k))
    decreases k
  {
    if k > 0 {
      var b := 1.0 - speed;
      var next := AttackStep(level, norm, speed);
      AttackGapStep(level, norm, speed);
      AttackGapShrinks(next, norm, speed, k - 1);
      ScaleCompose(norm - level, b, Pow(b, k - 1));
      PowUnfold(b, k);
    }
  }

  /** One cycle leaves the (1 - speed) share of the gap. */
  lemma AttackGapStep(level: real, norm: real, speed: real)
    requires 0.0 <= speed <= 1.0 && level <= norm
    ensures level <= AttackStep(level, norm, speed) <= norm
    ensures norm - AttackStep(level, norm, speed) == Scale(norm - level, 1.0 - speed)
  {
    ScaleComplement(norm - level, speed);
  }

  /** Test1's attack: the same proportional step, then clamped so it never
      passes the reading; a rate of 1 or more jumps straight to it. */
  function AttackStepClamped(level: real, norm: real, rate: real): (next: real)
    ensures norm <= level ==> next == level
    ensures next <= Max(level, norm)
    ensures 0.0 <= rate ==> level <= next
    ensures rate <= 1.0 && level < norm ==> norm - next == (1.0 - rate) * (norm - level)
    ensures 1.0 <= rate && level < norm ==> next == norm
  {
    if norm > level then
      var next := level + Scale(norm - level, rate);
      ScaleAtLeast(norm - level, rate);
      if next > norm then norm else next
    else level
  }

  /** For a rate in [0, 1] Test1's clamp never binds: its step equals the
      unclamped attack of the other rise-only variants. */
  lemma AttackClampNeverBinds(level: real, norm: real, rate: real)
    requires 0.0 <= rate <= 1.0
    ensures AttackStepClamped(level, norm, rate) == AttackStep(level, norm, rate)
  {
  }
}
