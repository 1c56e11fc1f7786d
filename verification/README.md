# dB-Meter: a Dafny model of the VU-meter loop

dB-Meter is a set of MicroPython scripts for a Raspberry Pi Pico that read a
microphone on an ADC pin and draw a green-yellow-red level bar on a strip of
WS2812 ("NeoPixel") LEDs. Each script is one variant of the same loop:

1. sample the microphone and reduce the batch to an RMS value;
2. calibrate a noise floor at start-up;
3. normalise each reading, against an auto-ranging ceiling, a fixed dB scale
   or a potentiometer threshold;
4. run it through an envelope policy (smoothing with peak hold, rate-limited
   rise and fall, or rise-only attack);
5. paint a frame of RGB triples.

This project models that loop as pure functions over Dafny's `real` and `int`.
A frame is a `seq<Color>`, and each script's loop body is a `Cycle` function
from the old state and one cycle's inputs to the new state and the frames
written that cycle. A `Run` function folds `Cycle` over a sequence of
readings, and lemmas over runs state the invariants the scripts keep.

The modules:

- `Prelude`: Python's `min`, `max`, the scripts' `clamp`, `int()` on a float
  (truncation toward zero, `Trunc`) and `round()` (ties to even, `Round`),
  plus product and power helpers.
- `Stats`: the part of `read_rms` before the square root, which is the
  population mean-square deviation of a batch of ADC readings. Also the
  calibration mean and the noise-floor margin.
- `Display`: `color_from_fraction`, the bar renderers (`round` and `int`
  variants), the overload override (full bar ⇒ whole strip red) and
  `clear_strip`.
- `Envelope`: the per-cycle policies the scripts share: the auto-range
  ceiling, the three normalisations, the `rms_to_db` guard, exponential
  smoothing, peak hold, fixed-rate rise/fall and the proportional attack.
- `Zones`: the zone-flash state machine of ZoneFlashes.py.
- `FastAttackSlowDecay`, `ZoneFlashes`, `NoDecay`, `SlowAttackFastDecay`,
  `Test1`: one module per script. Each holds the script's constants, its
  state, its `Cycle` and `Run`, and its invariants.

Inputs that come from hardware or from functions the model does not compute
are parameters:

- the RMS value (the square root of `Stats.MeanSquareDeviation`);
- the logarithmic dB value `20·log10(rms/32768) + 90`;
- the time `time.time()` returns;
- the button state and the raw potentiometer value.

The code and its own comments disagree in one place. The auto-range ceiling
is described as tracking the loudest recent reading. As written, a reading
just below the ceiling is overtaken by that cycle's decay, so the ceiling can
end up below the current reading. The model follows the code
(`Envelope.CeilingCanFallBelowReading` shows it).

In ZoneFlashes.py and NoDecay.py, `update_leds` has a branch that paints the whole strip red at full scale. The 0.08 attack of those scripts only ever closes part of the gap, so the level never reaches 1 and that branch is never drawn (`ZoneFlashes.RunStaysBelowFull`, `NoDecay.RunStaysBelowFull`). The model keeps the branch as written in `Display.UpdateLeds`.

## Model

| member | source | states |
|---|---|---|
| Prelude.Clamp | FastAttackSlowDecay.py:36-37 | With lo ≤ hi the result lies in [lo, hi]; a value already in range comes back unchanged; below lo gives lo and above hi gives hi |
| Prelude.Trunc | SlowAttackFastDecay.py:38 | `int()` of a float truncates toward zero: for x ≥ 0 the largest integer not above x, for x ≤ 0 the smallest integer not below x |
| Prelude.TruncAtLeast | SlowAttackFastDecay.py:38-40 | For x ≥ 0, `int(x) ≥ k` exactly when x ≥ k, so LED k−1 is lit exactly when level·N reaches k |
| Prelude.TruncMonotone | SlowAttackFastDecay.py:38 | `int()` never decreases as its argument grows |
| Prelude.Round | FastAttackSlowDecay.py:61 | `round()` lands within one half of x, and on an exact half it picks the even neighbour |
| Prelude.RoundUnique | FastAttackSlowDecay.py:61 | Any integer within one half of x that is even on a tie equals `Round(x)`, so the contract determines `round()` completely |
| Prelude.RoundMonotone | FastAttackSlowDecay.py:61 | `round()` never decreases as its argument grows |
| Prelude.Scale | FastAttackSlowDecay.py:98 | Multiplying a non-negative value by a decay factor in [0, 1] keeps it in [0, value]; a factor strictly inside (0, 1) strictly shrinks a positive value |
| Prelude.Pow | FastAttackSlowDecay.py:98 | A decay factor in [0, 1] raised to any power stays in [0, 1] |
| Stats.Mean | FastAttackSlowDecay.py:31 | The mean times the batch size is the batch sum |
| Stats.MeanBetween | FastAttackSlowDecay.py:31 | The mean lies between any lower and upper bound of the readings |
| Stats.Variance | FastAttackSlowDecay.py:32 | The mean squared deviation from the mean is never negative, so the square root is always defined |
| Stats.VarianceZeroIff | FastAttackSlowDecay.py:31-32 | The deviation is zero exactly when every reading in the batch is equal |
| Stats.VarianceShiftInvariant | FastAttackSlowDecay.py:31-32 | Adding the same offset to every reading leaves the deviation unchanged, so the microphone's DC bias drops out |
| Stats.MeanSquareDeviation | FastAttackSlowDecay.py:26-33 | The value under the square root in `read_rms` for a non-empty batch of ADC readings is non-negative |
| Stats.MeanSquareDeviationZeroIff | FastAttackSlowDecay.py:26-33 | `read_rms` is zero exactly when all raw ADC readings of the batch are identical |
| Stats.MeanSquareDeviationOffset | FastAttackSlowDecay.py:31-32 | An integer offset added to every raw ADC reading leaves `read_rms` unchanged |
| Stats.NoiseFloor | ZoneFlashes.py:86-87 | The noise floor times the window size is the window's sum times the margin: the margin times the mean |
| Stats.NoiseFloorBetween | ZoneFlashes.py:86-87 | The noise floor is the margin times a value between the quietest and the loudest calibration reading |
| Stats.NoiseFloorOfConstant | ZoneFlashes.py:86-87 | A calibration window of equal readings gives that reading times the margin |
| Display.ColorFromFraction | FastAttackSlowDecay.py:43-58 | Every channel is in 0..255 and blue is 0; green is 255 for f ≤ 0.5 and red is 255 above; the colour is never off |
| Display.ColorOutsideRange | FastAttackSlowDecay.py:45 | Fractions at or below 0 give pure green, at or above 1 pure red; any input gives the colour of its clamped value |
| Display.ColorLandmarks | FastAttackSlowDecay.py:46-58 | f = 0 gives (0,255,0), f = 0.5 gives (255,255,0), f = 1 gives (255,0,0) |
| Display.ColorClosedForm | FastAttackSlowDecay.py:46-58 | Red is int(min(255, 510·x)) and green is int(min(255, 510·(1−x))) for the clamped fraction x: one formula for both halves |
| Display.ColorMirror | FastAttackSlowDecay.py:46-58 | Red at f equals green at 1 − f and vice versa |
| Display.ColorMonotone | FastAttackSlowDecay.py:46-58 | Moving up the bar, red never decreases and green never increases |
| Display.Scaled | SlowAttackFastDecay.py:38 | level·N lies in [0, N] for a level in [0, 1] and reaches N exactly when the level reaches 1 |
| Display.ScaledMonotone | SlowAttackFastDecay.py:38 | A higher level never gives a lower bar height |
| Display.GradientBar | FastAttackSlowDecay.py:62-70 | The frame has N LEDs; LED i is on exactly when i < leds_on, and a lit LED's colour depends only on its index |
| Display.ShowBarRounded | FastAttackSlowDecay.py:60-71 | LED i is lit exactly when i + ½ < level·N, or on a tie when i is odd (round half to even); lit LEDs carry the positional gradient |
| Display.RoundedBarCount | FastAttackSlowDecay.py:61-70 | For a level in [0, 1] exactly `round(level·N)` LEDs are lit |
| Display.ShowBarTruncated | SlowAttackFastDecay.py:37-45 | LED i is lit exactly when (i + 1) ≤ level·N, with the positional gradient; there is no all-red override |
| Display.TruncatedBarLitCount | Test1.py:39-47 | For any level the bar lights `int(level·N)` LEDs, cut to the range 0..N |
| Display.TruncatedBarCount | SlowAttackFastDecay.py:37-45 | For a level in [0, 1] exactly `int(level·N)` LEDs are lit |
| Display.RoundedBarMonotone | FastAttackSlowDecay.py:60-71 | For levels in [0, 1], a louder level never switches an LED of the rounded bar off, keeps every lit LED's colour, and lights at least as many |
| Display.TruncatedBarMonotone | SlowAttackFastDecay.py:37-45 | A louder level never switches an LED off, keeps every lit LED's colour, and lights at least as many |
| Display.OverloadIff | ZoneFlashes.py:58-61 | `int(level·N) ≥ N` exactly when the level is at least 1 |
| Display.UpdateLeds | ZoneFlashes.py:57-74 | At a level of 1 or more every LED is red; below it the frame is the truncating gradient bar |
| Display.OverloadAllRed | NoDecay.py:48-53 | In the overload case all N LEDs are lit, each pure red |
| Display.ClearStrip | Test1.py:49-52 | N LEDs, every one off, none lit |
| Envelope.UpdateCeiling | FastAttackSlowDecay.py:94-98 | A louder reading becomes the ceiling; otherwise the ceiling is multiplied by the decay; the result lies between the decayed and the undecayed maximum of ceiling and reading |
| Envelope.CeilingDecaysGeometrically | FastAttackSlowDecay.py:94-98 | Over k cycles in which reading j is at most that cycle's ceiling ceiling·decay^j, the ceiling becomes ceiling·decay^k |
| Envelope.CeilingCanFallBelowReading | FastAttackSlowDecay.py:94-98 | Ceiling 100, reading 99.99, decay 0.9995 gives a ceiling of 99.95, below the reading |
| Envelope.NormaliseGuarded | FastAttackSlowDecay.py:101-105 | 0 when the ceiling is at or below the floor; otherwise in [0, 1], 0 exactly when the reading is at or below the floor, 1 exactly when it reaches the ceiling, the exact proportional position in between |
| Envelope.NormaliseGuardedMonotone | FastAttackSlowDecay.py:101-105 | A louder reading never normalises lower |
| Envelope.NormaliseEpsilonAsWritten | SlowAttackFastDecay.py:60-61 | Fails (division by zero) exactly when d = ceiling − floor + 1e-6 is 0; otherwise the value is in [0, 1]. For d > 0 it is 0 exactly at or below the floor, 1 exactly from ceiling + 1e-6 up, and norm·d = rms − floor in between. For d < 0 the scale is flipped: 0 exactly at or above the floor, 1 exactly at or below ceiling + 1e-6 |
| Envelope.QuietReadingLightsBar | SlowAttackFastDecay.py:60-61 | As written, with the ceiling more than 1e-6 below the floor, a reading below the floor normalises to a positive value |
| Envelope.QuietReadingFullScale | SlowAttackFastDecay.py:60-61 | As written, floor 100, ceiling 40 and reading 40 normalise to exactly 1, a full-scale reading from a quiet input |
| Envelope.NormaliseEpsilon | SlowAttackFastDecay.py:60-61 | Corrected form: in [0, 1] and 0 for an empty or inverted range. On a valid range it is 0 exactly at or below the floor, 1 exactly from ceiling + 1e-6 up, norm·(ceiling − floor + 1e-6) = rms − floor in between, and equal to the as-written value |
| Envelope.NormaliseEpsilonAgrees | SlowAttackFastDecay.py:60-61 | On a range whose ceiling is above the floor, the as-written and the corrected normalisation give the same value |
| Envelope.NormaliseEpsilonMonotone | SlowAttackFastDecay.py:60-61 | The corrected normalisation never maps a louder reading lower |
| Envelope.RmsToDb | NoDecay.py:39-42 | A non-positive RMS gives the display floor MIN_DB; a positive one gives its logarithmic dB value |
| Envelope.NormaliseDb | ZoneFlashes.py:101-102 | The dB position on the display range lies in [0, 1], is 0 exactly at or below MIN_DB, 1 exactly at or above MAX_DB, and norm·(MAX_DB − MIN_DB) = db − MIN_DB in between |
| Envelope.NormaliseDbMonotone | ZoneFlashes.py:101-102 | A louder dB value never sits lower on the display range |
| Envelope.DbLevel | ZoneFlashes.py:100-102 | The normalised loudness lies in [0, 1]; it is 0 for a non-positive RMS. Otherwise it is 0 or 1 exactly when the dB value is beyond the lower or upper display bound, and the linear position of the dB value in between |
| Envelope.DbLevelMonotone | ZoneFlashes.py:100-102 | For a positive RMS, a higher dB value never gives a lower loudness |
| Envelope.Smooth | FastAttackSlowDecay.py:108 | With alpha in [0, 1] the smoothed value lies between the previous value and the new reading; alpha 1 takes the reading, alpha 0 keeps the previous value |
| Envelope.SmoothSourceForm | FastAttackSlowDecay.py:108 | The smoothing step equals α·norm + (1 − α)·previous |
| Envelope.PeakHoldStep | FastAttackSlowDecay.py:111-119 | The peak is never below the smoothed value; a rising value becomes the peak and restarts its clock; inside the hold window a non-rising value leaves the peak unchanged; after it the peak is max(peak·decay, smoothed); the peak never exceeds max(old peak, smoothed) |
| Envelope.RiseFallStep | SlowAttackFastDecay.py:63-71 | Rising gives min(level + rise, norm), falling gives max(level − fall, norm); the result lies between level and norm and moves by at most rise up and fall down |
| Envelope.RiseFallSettles | SlowAttackFastDecay.py:63-71 | Held at a constant reading, the level reaches it exactly once the rate times the number of cycles covers the distance |
| Envelope.AttackStep | ZoneFlashes.py:105-106 | A reading not above the level leaves it unchanged; a louder reading leaves exactly (1 − speed) of the gap to it; the level never decreases; for a speed in (0, 1) a louder reading moves the level strictly between its old value and the reading |
| Envelope.AttackGapStep | NoDecay.py:92-93 | With a speed in [0, 1] one step toward a louder reading stays between the level and the reading and leaves (1 − speed) of the gap |
| Envelope.AttackGapShrinks | NoDecay.py:92-93 | Held at a constant louder reading, the gap to it after k cycles is (1 − speed)^k of the starting gap |
| Envelope.AttackStepClamped | Test1.py:76-79 | The level never decreases, never passes the reading, and is unchanged by a reading not above it; for a rate up to 1 a louder reading leaves exactly (1 − rate) of the gap, and a rate of 1 or more jumps to the reading |
| Envelope.AttackClampNeverBinds | Test1.py:76-79 | For a rate in [0, 1] the clamp after the attack never binds: the step equals the unclamped attack |
| Zones.ZonesReached | ZoneFlashes.py:19-21 | The number of zone thresholds (0.33, 0.66, 0.95) the level meets, at most 3 |
| Zones.ZoneStep | ZoneFlashes.py:109-117 | A flash fires exactly when the highest zone reached is above the record; the fired zone is that highest zone and becomes the record; otherwise the record is unchanged |
| Zones.ZoneRecordMonotone | ZoneFlashes.py:109-117 | The record never decreases and stays within 0..3 |
| Zones.NoRefire | ZoneFlashes.py:109-117 | A second step at the same level fires nothing and leaves the record alone: a sustained level does not flash again |
| Zones.JumpFiresOnlyRed | ZoneFlashes.py:109-111 | A level at or above 0.95 with the record below 3 fires red alone and sets the record to 3, skipping green and yellow |
| Zones.FlashColor | ZoneFlashes.py:110-116 | Zone 3 flashes red, zone 2 yellow, zone 1 green |
| Zones.FlashFrame | ZoneFlashes.py:37-40 | `flash_all` sets every one of the N LEDs to the flash colour |
| ZoneFlashes.Calibrate | ZoneFlashes.py:86-87 | The noise floor times the number of calibration readings is 1.05 times their sum |
| ZoneFlashes.Init | ZoneFlashes.py:90-91 | Power-on starts at level 0 with the zone record 0, a valid state |
| ZoneFlashes.Loudness | ZoneFlashes.py:100-102 | The normalised loudness lies in [0, 1]; a non-positive RMS gives 0; otherwise it is 0 exactly at or below 30 dB, 1 exactly at or above 80 dB, and (dB − 30)/50 in between |
| ZoneFlashes.CalibrateBetween | ZoneFlashes.py:86-87 | The noise floor is 1.05 times a value between the quietest and loudest calibration reading |
| ZoneFlashes.CalibrateConstant | ZoneFlashes.py:86-87 | A steady calibration window gives that reading times 1.05 |
| ZoneFlashes.Cycle | ZoneFlashes.py:93-120 | Gated readings change nothing and draw nothing; otherwise the level takes the attack step, the zone step runs on the new level, a flash frame precedes the bar when a zone fires, and level and record in range stay in range; when no zone fires the bar is the only frame drawn |
| ZoneFlashes.RunKeepsValid | ZoneFlashes.py:90-119 | Over any run the level stays in [0, 1] and the record in 0..3, and neither decreases |
| ZoneFlashes.FlashesStrictlyIncrease | ZoneFlashes.py:109-117 | The zones fired over a run lie above the starting record, at most 3, each higher than the one before: no zone fires twice |
| ZoneFlashes.AtMostThreeFlashes | ZoneFlashes.py:90-117 | From power-on a run fires at most three flashes, however long it lasts |
| ZoneFlashes.RunStaysBelowFull | ZoneFlashes.py:104-106 | From a level below 1, such as power-on, the level stays below 1 over any run, so the all-red branch of `update_leds` is never drawn |
| NoDecay.Loudness | NoDecay.py:86-89 | The normalised loudness lies in [0, 1]; a non-positive RMS gives 0; otherwise it is 0 exactly at or below 30 dB, 1 exactly at or above 80 dB, and (dB − 30)/50 in between |
| NoDecay.Cycle | NoDecay.py:79-96 | Gated readings change nothing; the level never decreases; the bar is redrawn exactly when the level rises, with the overload-aware renderer; a level in [0, 1] stays there |
| NoDecay.RunBounded | NoDecay.py:77-94 | From a level in [0, 1] (such as the initial 0) the level stays in [0, 1] over any run |
| NoDecay.RunNeverFalls | NoDecay.py:91-94 | The level never decreases over a run |
| NoDecay.NoRedrawIffUnchanged | NoDecay.py:91-94 | A run redraws nothing exactly when it ends at the level it started from |
| NoDecay.RunStaysBelowFull | NoDecay.py:91-94 | From a level in [0, 1), such as the initial 0, the level stays below 1 over any run, so the all-red branch of `update_leds` is never drawn |
| FastAttackSlowDecay.Calibrate | FastAttackSlowDecay.py:80 | `MIN_RMS` times the number of calibration readings is their sum |
| FastAttackSlowDecay.CalibrateBetween | FastAttackSlowDecay.py:77-80 | The noise floor `MIN_RMS` lies between the quietest and loudest calibration reading |
| FastAttackSlowDecay.Init | FastAttackSlowDecay.py:84-87 | The start-up ceiling is three times the floor; smoothed value and peak start at 0 with the peak clock at the start time |
| FastAttackSlowDecay.InitValid | FastAttackSlowDecay.py:84-87 | The start-up state satisfies the invariant for any non-negative floor |
| FastAttackSlowDecay.Cycle | FastAttackSlowDecay.py:91-122 | The ceiling takes a louder reading or decays by 0.9995; the smoothed value is 0.2·norm + 0.8·old, between its old value and the normalised reading; the peak follows the hold rule with 0.8 s and 0.995; 0 ≤ smoothed ≤ peak ≤ 1 and a non-negative ceiling are preserved for any reading; the frame is the rounded bar of the peak |
| FastAttackSlowDecay.RunKeepsValid | FastAttackSlowDecay.py:90-122 | Over any run the smoothed value stays in [0, 1] and never above the peak |
| FastAttackSlowDecay.FrameHeight | FastAttackSlowDecay.py:122 | Each cycle's bar lights `round(peak·39)` LEDs |
| FastAttackSlowDecay.EmptyRangeDecays | FastAttackSlowDecay.py:101-108 | While the ceiling and reading stay at or below the floor, the smoothed value shrinks to 0.8 of itself each cycle |
| SlowAttackFastDecay.Init | SlowAttackFastDecay.py:49-51 | The start-up ceiling is three times the single-reading noise floor and the level is 0 |
| SlowAttackFastDecay.Cycle | SlowAttackFastDecay.py:53-73 | Corrected cycle, with the normalisation guarded (the as-written loop body is `CycleAsWritten`): the ceiling takes a louder reading or decays by 0.999; rising gives min(level + 0.02, norm), falling max(level − 0.15, norm); the level moves by at most 0.02 up and 0.15 down, stays between level and norm and in [0, 1]; in the corrected cycle a quiet reading pulls it toward 0 |
| SlowAttackFastDecay.Advance | SlowAttackFastDecay.py:63-73 | Rising gives min(level + 0.02, norm), falling max(level − 0.15, norm); the step moves by at most 0.02 up and 0.15 down, keeps [0, 1] for a norm in [0, 1], and draws the truncating bar |
| SlowAttackFastDecay.CycleAsWritten | SlowAttackFastDecay.py:53-73 | The unguarded loop body fails exactly when its normalisation divides by zero. Otherwise it takes the updated ceiling, steps by min(level + 0.02, norm) or max(level − 0.15, norm) with the unguarded norm, moves by at most 0.02 up and 0.15 down, keeps the level in [0, 1], and draws the truncating bar |
| SlowAttackFastDecay.AsWrittenAgreesOnValidRange | SlowAttackFastDecay.py:60-61 | When the updated ceiling is above the floor, the as-written and the guarded cycle give the same state and frame |
| SlowAttackFastDecay.QuietRoomRisesAsWritten | SlowAttackFastDecay.py:55-71 | As written, from a dark strip a reading below the floor raises the level once the ceiling has decayed below the floor; the guarded cycle keeps it at 0 |
| SlowAttackFastDecay.RunKeepsValid | SlowAttackFastDecay.py:49-71 | Under the corrected cycle the level stays in [0, 1] over any run |
| SlowAttackFastDecay.RunRateLimited | SlowAttackFastDecay.py:63-71 | Under the corrected cycle, over k cycles the level rises by at most 0.02·k and falls by at most 0.15·k |
| SlowAttackFastDecay.SilenceEmptiesBar | SlowAttackFastDecay.py:60-71 | Under the corrected cycle, readings at or below the floor empty the bar once 0.15 times the number of cycles covers the level |
| Test1.Threshold | Test1.py:68-69 | For a raw potentiometer value in 0..65535 the threshold lies in [1000, 31000], hitting both ends at the extremes |
| Test1.ThresholdMonotone | Test1.py:68-69 | Turning the potentiometer up never lowers the threshold |
| Test1.Normalise | Test1.py:72-73 | The normalised reading lies in [0, 1]; it is 0 exactly when the RMS is at or below the threshold and 1 exactly when 15000 above it, proportional in between |
| Test1.NormaliseMonotone | Test1.py:72-73 | A louder reading never normalises lower |
| Test1.Cycle | Test1.py:58-83 | A press first zeroes the level and adds a cleared frame; the attack then never lowers the level nor passes the reading; [0, 1] is preserved, with or without a press; the bar is the truncating one |
| Test1.RunKeepsValid | Test1.py:56-82 | The level stays in [0, 1] over any run, resets included |
| Test1.NoResetNeverFalls | Test1.py:76-80 | Without a press the level never decreases over a run |
| Test1.QuietReadingHolds | Test1.py:60-80 | A reading at or below the threshold leaves a level in [0, 1] unchanged, or 0 after a press |

## Left out

- NeoPixelTesting.py: a hardware colour-cycling test with no logic of its own.
- ADC sampling, NeoPixel writes, button and pin set-up, `print` and the `KeyboardInterrupt` shutdown: all I/O. Readings, the button state and the potentiometer value are inputs, and frames are outputs.
- `math.sqrt` and `math.log10`. The model stops at the mean-square deviation, and the RMS value and the logarithmic dB value are cycle inputs. Of `rms_to_db`, only the `rms <= 0` guard is computed.
- `db_from_rms` in FastAttackSlowDecay.py: defined but never called.
- Clocks and sleeps. The calibration loop's wall-clock bound is replaced by the batch of readings it collects, which the loop guarantees is non-empty. The time of each FastAttackSlowDecay cycle is an input. The refresh delays and flash durations only pace the loop.
- Floating-point rounding: arithmetic is exact over `real`, and `int()` and `round()` are modelled exactly on those values.
- Display.Frac: `i / (NUM_LEDS - 1)` is unguarded in every script except FastAttackSlowDecay.py. The model returns 0 for a one-LED strip, which none of the scripts uses (they have 39 or 40 LEDs).
- SlowAttackFastDecay.Cycle: this is the corrected loop body from the Findings table. The literal script is `SlowAttackFastDecay.CycleAsWritten`. Its per-cycle contract also states, for the literal script, the [0, 1] bound and the 0.02/0.15 rate limit, because line 61 clamps the norm even on an inverted range. The run lemmas (`RunKeepsValid`, `RunRateLimited`, `SilenceEmptiesBar`) fold only the corrected cycle, which never fails. Only `SilenceEmptiesBar` differs in substance from the script: as written, once the ceiling sinks below the floor, quiet readings raise the level instead (`QuietRoomRisesAsWritten`).

## Findings

| source | as written | input that shows it | evidently intended | confidence | as-written member | corrected member |
|---|---|---|---|---|---|---|
| SlowAttackFastDecay.py:60 | `norm = (rms - noise_floor) / (max_rms - noise_floor + 1e-6)` has no guard for a ceiling at or below the noise floor. The ceiling decays by 0.999 per quiet cycle and the floor is a single start-up reading, so the ceiling can sink below the floor. The denominator then turns negative, and a reading below the floor normalises to a positive value or to 1 | noise floor 100, ceiling 40, reading 40: norm = −60 / −59.999999, clamped to 1, a full bar from a quiet input | the guard FastAttackSlowDecay.py:101-102 applies: an empty or inverted range normalises to 0 | not executed; medium | Envelope.NormaliseEpsilonAsWritten, Envelope.QuietReadingFullScale, SlowAttackFastDecay.QuietRoomRisesAsWritten | Envelope.NormaliseEpsilon, SlowAttackFastDecay.Cycle |
