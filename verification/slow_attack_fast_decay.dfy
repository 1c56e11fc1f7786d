/** SlowAttackFastDecay.py: an auto-ranged level that climbs by at most
    0.02 and falls by at most 0.15 per frame, drawn as a truncating
    39-LED bar. The noise floor is one `read_rms(200)` taken at start-up. */
module SlowAttackFastDecay {
  import opened Prelude
  import opened Display
  import opened Envelope

  const NumLeds: nat := 39
  const RiseRate: real := 0.02
  const FallRate: real := 0.15
  const CeilingDecay: real := 0.999
  /** The initial ceiling is this multiple of the noise floor. */
  const InitialRange: real := 3.0

  datatype State = State(ceiling: real, level: real)

  datatype Output = Output(state: State, frame: Frame)

  function Init(noiseFloor: real): (s: State)
    ensures s.ceiling == 3.0 * noiseFloor && s.level == 0.0
  {
    State(noiseFloor * InitialRange, 0.0)
  }

  predicate Valid(s: State)
  {
    0.0 <= s.level <= 1.0
  }

  /** The step both cycle forms share once the reading is normalised. */
  function Advance(ceiling: real, level: real, norm: real): (o: Output)
    ensures o.state.ceiling == ceiling
    ensures level < norm ==> o.state.level == Min(level + 0.02, norm)
    ensures norm <= level ==> o.state.level == Max(level - 0.15, norm)
    ensures -0.15 <= o.state.level - level <= 0.02
    ensures 0.0 <= level <= 1.0 && 0.0 <= norm <= 1.0 ==> 0.0 <= o.state.level <= 1.0
    ensures o.frame == ShowBarTruncated(NumLeds, o.state.level)
  {
    var next := RiseFallStep(level, norm, RiseRate, FallRate);
    Output(State(ceiling, next), ShowBarTruncated(NumLeds, next))
  }

  /** One pass of the main loop, with the normalisation guarded against an
      empty or inverted range. */
  function Cycle(noiseFloor: real, s: State, rms: real): (o: Output)
    ensures s.ceiling < rms ==> o.state.ceiling == rms
    ensures rms <= s.ceiling ==> o.state.ceiling == s.ceiling * 0.999
    ensures var norm := NormaliseEpsilon(rms, noiseFloor, o.state.ceiling);
      && (s.level < norm ==> o.state.level == Min(s.level + 0.02, norm))
      && (norm <= s.level ==> o.state.level == Max(s.level - 0.15, norm))
      && Min(s.level, norm) <= o.state.level <= Max(s.level, norm)
    ensures -0.15 <= o.state.level - s.level <= 0.02
    ensures Valid(s) ==> Valid(o.state)
    ensures Valid(s) && rms <= noiseFloor ==> o.state.level == Max(s.level - 0.15, 0.0)
    ensures o.frame == ShowBarTruncated(NumLeds, o.state.level)
  {
    var ceiling := UpdateCeiling(s.ceiling, rms, CeilingDecay);
    Advance(ceiling, s.level, NormaliseEpsilon(rms, noiseFloor, ceiling))
  }

  /** The cycle as written: no guard on the range, so a ceiling decayed to
      within 1e-6 below the floor divides by zero (None). */
  function CycleAsWritten(noiseFloor: real, s: State, rms: real): (o: Option<Output>)
    ensures var ceiling := UpdateCeiling(s.ceiling, rms, CeilingDecay);
      o.None? <==> NormaliseEpsilonAsWritten(rms, noiseFloor, ceiling).None?
    ensures o.Some? ==> o.value.state.ceiling == UpdateCeiling(s.ceiling, rms, CeilingDecay)
    ensures o.Some? ==>
      var norm := NormaliseEpsilonAsWritten(rms, noiseFloor, o.value.state.ceiling).value;
      && (s.level < norm ==> o.value.state.level == Min(s.level + 0.02, norm))
      && (norm <= s.level ==> o.value.state.level == Max(s.level - 0.15, norm))
    ensures o.Some? ==> -0.15 <= o.value.state.level - s.level <= 0.02
    ensures o.Some? && Valid(s) ==> Valid(o.value.state)
    ensures o.Some? ==> o.value.frame == ShowBarTruncated(NumLeds, o.value.state.level)
  {
    var ceiling := UpdateCeiling(s.ceiling, rms, CeilingDecay);
    match NormaliseEpsilonAsWritten(rms, noiseFloor, ceiling)
    case None => None
    case Some(norm) => Some(Advance(ceiling, s.level, norm))
  }

  /** Whenever the updated ceiling is above the floor the two forms agree. */
  lemma AsWrittenAgreesOnValidRange(noiseFloor: real, s: State, rms: real)
    requires noiseFloor < UpdateCeiling(s.ceiling, rms, CeilingDecay)
    ensures CycleAsWritten(noiseFloor, s, rms) == Some(Cycle(noiseFloor, s, rms))
  {
  }

  /** As written, a quiet reading in a silent strip lights the bar once the
      ceiling has decayed below the floor; the guarded cycle keeps it dark. */
  lemma QuietRoomRisesAsWritten(noiseFloor: real, s: State, rms: real)
    requires s.level == 0.0
    requires rms < noiseFloor && rms <= s.ceiling
    requires s.ceiling * 0.999 + 0.000001 < noiseFloor
    ensures CycleAsWritten(noiseFloor, s, rms).Some?
    ensures CycleAsWritten(noiseFloor, s, rms).value.state.level > 0.0
    ensures Cycle(noiseFloor, s, rms).state.level == 0.0
  {
    var ceiling := UpdateCeiling(s.ceiling, rms, CeilingDecay);
    assert ceiling == s.ceiling * 0.999;
    QuietReadingLightsBar(rms, noiseFloor, ceiling);
  }

  /** The state after a run of readings. */
  function Run(noiseFloor: real, s: State, readings: seq<real>): State
    decreases |readings|
  {
    if readings == [] then s
    else Run(noiseFloor, Cycle(noiseFloor, s, readings[0]).state, readings[1..])
  }

  /** From the initial 0 the level never leaves [0, 1]. */
  lemma {:induction false} RunKeepsValid(noiseFloor: real, s: State, readings: seq<real>)
    requires Valid(s)
    ensures Valid(Run(noiseFloor, s, readings))
    decreases |readings|
  {
    if readings != [] {
      RunKeepsValid(noiseFloor, Cycle(noiseFloor, s, readings[0]).state, readings[1..]);
    }
  }

  /** Over k cycles the level moves by at most 0.02 k up and 0.15 k down. */
  lemma {:induction false} RunRateLimited(noiseFloor: real, s: State, readings: seq<real>)
    ensures var k := |readings| as real;
      s.level - 0.15 * k <= Run(noiseFloor, s, readings).level <= s.level + 0.02 * k
    decreases |readings|
  {
    if readings != [] {
      RunRateLimited(noiseFloor, Cycle(noiseFloor, s, readings[0]).state, readings[1..]);
    }
  }

  /** Silence (every reading at or below the floor) empties the bar once
      0.15 times the number of frames covers the level: seven frames do it
      from any valid level. */
  lemma {:induction false} SilenceEmptiesBar(noiseFloor: real, s: State, readings: seq<real>)
    requires Valid(s)
    requires forall i :: 0 <= i < |readings| ==> readings[i] <= noiseFloor
    requires s.level <= 0.15 * |readings| as real
    ensures Run(noiseFloor, s, readings).level == 0.0
    decreases |readings|
  {
    if readings != [] {
      var rest := readings[1..];
      assert forall i :: 0 <= i < |rest| ==> rest[i] <= noiseFloor by {
        forall i | 0 <= i < |rest| ensures rest[i] <= noiseFloor {
          assert rest[i] == readings[i + 1];
        }
      }
      SilenceEmptiesBar(noiseFloor, Cycle(noiseFloor, s, readings[0]).state, rest);
    }
  }
}
