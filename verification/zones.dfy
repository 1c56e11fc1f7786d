/** ZoneFlashes' zone detector: three thresholds on the level, a record of
    the highest zone already announced (0 = below green, 1 = green,
    2 = yellow, 3 = red), and a full-strip flash the first time each higher
    zone is reached. */
module Zones {
  import opened Prelude
  import opened Display

  const GreenZone: real := 0.33
  const YellowZone: real := 0.66
  const RedTrigger: real := 0.95

  /** Highest zone whose threshold the level meets: an independent
      statement of the thresholds, used as the reference for `ZoneStep`. */
  function ZonesReached(level: real): (z: nat)
    ensures z <= 3
    ensures z >= 1 <==> level >= GreenZone
    ensures z >= 2 <==> level >= YellowZone
    ensures z >= 3 <==> level >= RedTrigger
  {
    (if level >= GreenZone then 1 else 0)
    + (if level >= YellowZone then 1 else 0)
    + (if level >= RedTrigger then 1 else 0)
  }

  /** The zone fired this cycle, if any, and the updated record. */
  datatype ZoneOutcome = ZoneOutcome(flash: Option<nat>, lastZone: nat)

  /** The detector's if/elif chain, checked from red down to green: a zone
      fires when its threshold is met and the record is below it. */
  function ZoneStep(level: real, lastZone: nat): (o: ZoneOutcome)
    ensures o.flash.Some? <==> lastZone < ZonesReached(level)
    ensures o.flash.Some? ==> o.flash.value == ZonesReached(level) == o.lastZone
    ensures o.flash.None? ==> o.lastZone == lastZone
    ensures o.lastZone == if lastZone < ZonesReached(level) then ZonesReached(level) else lastZone
  {
    if level >= RedTrigger && lastZone < 3 then ZoneOutcome(Some(3), 3)
    else if level >= YellowZone && lastZone < 2 then ZoneOutcome(Some(2), 2)
    else if level >= GreenZone && lastZone < 1 then ZoneOutcome(Some(1), 1)
    else ZoneOutcome(None, lastZone)
  }

  /** The record only rises and never leaves 0..3. */
  lemma ZoneRecordMonotone(level: real, lastZone: nat)
    ensures lastZone <= ZoneStep(level, lastZone).lastZone
    ensures lastZone <= 3 ==> ZoneStep(level, lastZone).lastZone <= 3
  {
  }

  /** A sustained level does not flash twice: a second step at the same
      level, from the record the first left, fires nothing. */
  lemma NoRefire(level: real, lastZone: nat)
    ensures ZoneStep(level, ZoneStep(level, lastZone).lastZone).flash == None
    ensures ZoneStep(level, ZoneStep(level, lastZone).lastZone).lastZone == ZoneStep(level, lastZone).lastZone
  {
  }

  /** Jumping straight past the red trigger fires only red. */
  lemma JumpFiresOnlyRed(level: real, lastZone: nat)
    requires level >= RedTrigger && lastZone < 3
    ensures ZoneStep(level, lastZone) == ZoneOutcome(Some(3), 3)
  {
  }

  /** The colour flashed for each zone. */
  function FlashColor(zone: nat): (c: Color)
    requires 1 <= zone <= 3
    ensures c.b == 0 && c.r == (if zone >= 2 then 255 else 0) && c.g == (if zone <= 2 then 255 else 0)
  {
    if zone == 3 then Red else if zone == 2 then Yellow else Green
  }

  /** `flash_all`: every LED of the strip set to one colour. */
  function FlashFrame(n: nat, c: Color): (frame: Frame)
    ensures |frame| == n
    ensures forall i :: 0 <= i < n ==> frame[i] == c
  {
    seq(n, i => c)
  }
}
