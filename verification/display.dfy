/** The display mapper: the green-yellow-red gradient and the LED frames the
    variants compute before writing them to the strip. A frame is the
    sequence of RGB triples the strip would show, index 0 at the bottom. */
module Display {
  import opened Prelude

  datatype Color = Color(r: int, g: int, b: int)

  const Off := Color(0, 0, 0)
  const Green := Color(0, 255, 0)
  const Yellow := Color(255, 255, 0)
  const Red := Color(255, 0, 0)

  type Frame = seq<Color>

  predicate InByteRange(c: Color)
  {
    0 <= c.r <= 255 && 0 <= c.g <= 255 && 0 <= c.b <= 255
  }

  /** `color_from_fraction(f)`: green at 0, yellow at 0.5, red at 1, each
      channel truncated to an integer as `int()` does. */
  function ColorFromFraction(f: real): (c: Color)
    ensures InByteRange(c) && c.b == 0
    ensures f <= 0.5 ==> c.g == 255
    ensures 0.5 < f ==> c.r == 255
    ensures c != Off
  {
    var x := Clamp(f, 0.0, 1.0);
    if x <= 0.5 then
      var t := x / 0.5;
      Color(Trunc(255.0 * t), 255, 0)
    else
      var t := (x - 0.5) / 0.5;
      Color(255, Trunc(255.0 * (1.0 - t)), 0)
  }

  /** Inputs outside [0, 1] get the colour of the nearer end. */
  lemma ColorOutsideRange(f: real)
    ensures f <= 0.0 ==> ColorFromFraction(f) == Green
    ensures 1.0 <= f ==> ColorFromFraction(f) == Red
    ensures ColorFromFraction(f) == ColorFromFraction(Clamp(f, 0.0, 1.0))
  {
  }

  lemma ColorLandmarks()
    ensures ColorFromFraction(0.0) == Green
    ensures ColorFromFraction(0.5) == Yellow
    ensures ColorFromFraction(1.0) == Red
  {
  }

  /** A symmetric closed form of the gradient: red is 510 f and green is
      510 (1 - f), each capped at 255 and truncated. */
  lemma ColorClosedForm(f: real)
    ensures var x := Clamp(f, 0.0, 1.0);
      && ColorFromFraction(f).r == Trunc(Min(255.0, 510.0 * x))
      && ColorFromFraction(f).g == Trunc(Min(255.0, 510.0 * (1.0 - x)))
  {
    var x := Clamp(f, 0.0, 1.0);
    if x <= 0.5 {
      assert 255.0 * (x / 0.5) == 510.0 * x;
    } else {
      assert 255.0 * (1.0 - (x - 0.5) / 0.5) == 510.0 * (1.0 - x);
    }
  }

  /** Red at f equals green at 1 - f: the two halves mirror each other. */
  lemma ColorMirror(f: real)
    requires 0.0 <= f <= 1.0
    ensures ColorFromFraction(f).r == ColorFromFraction(1.0 - f).g
    ensures ColorFromFraction(f).g == ColorFromFraction(1.0 - f).r
  {
    ColorClosedForm(f);
    ColorClosedForm(1.0 - f);
  }

  /** Higher up the bar, red never drops and green never rises. */
  lemma ColorMonotone(f1: real, f2: real)
    requires f1 <= f2
    ensures ColorFromFraction(f1).r <= ColorFromFraction(f2).r
    ensures ColorFromFraction(f1).g >= ColorFromFraction(f2).g
  {
    ColorClosedForm(f1);
    ColorClosedForm(f2);
    var x1, x2 := Clamp(f1, 0.0, 1.0), Clamp(f2, 0.0, 1.0);
    TruncMonotone(Min(255.0, 510.0 * x1), Min(255.0, 510.0 * x2));
    TruncMonotone(Min(255.0, 510.0 * (1.0 - x2)), Min(255.0, 510.0 * (1.0 - x1)));
  }

  /** `level * NUM_LEDS`, the bar height in LEDs before rounding. */
  function Scaled(level: real, n: nat): (x: real)
    ensures 0.0 <= level ==> 0.0 <= x
    ensures level <= 1.0 ==> x <= n as real
    ensures n > 0 ==> (n as real <= x <==> 1.0 <= level)
  {
    var m := n as real;
    assert m - level * m == (1.0 - level) * m;
    assert 0.0 <= level ==> 0.0 <= level * m;
    assert level <= 1.0 ==> 0.0 <= (1.0 - level) * m;
    assert n > 0 && level < 1.0 ==> 0.0 < (1.0 - level) * m;
    level * m
  }

  lemma ScaledMonotone(l1: real, l2: real, n: nat)
    requires l1 <= l2
    ensures Scaled(l1, n) <= Scaled(l2, n)
  {
    var m := n as real;
    assert l2 * m - l1 * m == (l2 - l1) * m;
    assert 0.0 <= (l2 - l1) * m;
  }

  /** Position of LED i along the bar, `i / (NUM_LEDS - 1)`; a one-LED
      strip sits at 0. */
  function Frac(i: int, n: nat): real
  {
    if n > 1 then i as real / (n - 1) as real else 0.0
  }

  /** The first `ledsOn` LEDs in their positional gradient colour, the
      rest off. */
  function GradientBar(n: nat, ledsOn: int): (frame: Frame)
    ensures |frame| == n
    ensures forall i :: 0 <= i < n ==> (frame[i] != Off <==> i < ledsOn)
    ensures forall i :: 0 <= i < n && frame[i] != Off ==> frame[i] == ColorFromFraction(Frac(i, n))
  {
    seq(n, i requires 0 <= i < n => if i < ledsOn then ColorFromFraction(Frac(i, n)) else Off)
  }

  /** Number of LEDs that are not off. */
  function CountLit(frame: Frame): nat
  {
    if frame == [] then 0
    else CountLit(frame[..|frame| - 1]) + (if frame[|frame| - 1] != Off then 1 else 0)
  }

  /** A frame lit exactly on the indices below k has min(max(k, 0), n) LEDs on. */
  lemma {:induction false} CountLitPrefix(frame: Frame, k: int)
    requires forall i :: 0 <= i < |frame| ==> (frame[i] != Off <==> i < k)
    ensures CountLit(frame) == if k < 0 then 0 else if k > |frame| then |frame| else k
  {
    if frame != [] {
      var front := frame[..|frame| - 1];
      assert forall i :: 0 <= i < |front| ==> front[i] == frame[i];
      CountLitPrefix(front, k);
    }
  }

  /** FastAttackSlowDecay's `show_bar`: `round(level * NUM_LEDS)` LEDs lit. */
  function ShowBarRounded(n: nat, level: real): (frame: Frame)
    ensures |frame| == n
    ensures forall i :: 0 <= i < n ==>
      (frame[i] != Off <==>
        (i as real + 0.5 < Scaled(level, n)
         || (i as real + 0.5 == Scaled(level, n) && i % 2 == 1)))
    ensures forall i :: 0 <= i < n && frame[i] != Off ==> frame[i] == ColorFromFraction(Frac(i, n))
  {
    GradientBar(n, Round(Scaled(level, n)))
  }

  /** The truncating `show_bar` of SlowAttackFastDecay and Test1:
      `int(level * NUM_LEDS)` LEDs lit, so LED i is on exactly when the
      level reaches (i + 1) / NUM_LEDS. */
  function ShowBarTruncated(n: nat, level: real): (frame: Frame)
    ensures |frame| == n
    ensures forall i :: 0 <= i < n ==> (frame[i] != Off <==> (i + 1) as real <= Scaled(level, n))
    ensures forall i :: 0 <= i < n && frame[i] != Off ==> frame[i] == ColorFromFraction(Frac(i, n))
  {
    var x := Scaled(level, n);
    var frame := GradientBar(n, Trunc(x));
    assert forall i :: 0 <= i < n ==> (frame[i] != Off <==> (i + 1) as real <= x) by {
      forall i | 0 <= i < n ensures frame[i] != Off <==> (i + 1) as real <= x {
        if x >= 0.0 {
          TruncAtLeast(x, i + 1);
        }
      }
    }
    frame
  }

  /** Whatever the level, the truncating bar lights `int(level * NUM_LEDS)`
      LEDs, cut to the strip's length. */
  lemma TruncatedBarLitCount(n: nat, level: real)
    ensures var k := Trunc(Scaled(level, n));
      CountLit(ShowBarTruncated(n, level)) == if k < 0 then 0 else if k > n then n else k
  {
    var x := Scaled(level, n);
    var frame := ShowBarTruncated(n, level);
    assert forall i :: 0 <= i < n ==> (frame[i] != Off <==> i < Trunc(x)) by {
      forall i | 0 <= i < n ensures frame[i] != Off <==> i < Trunc(x) {
        if x >= 0.0 {
          TruncAtLeast(x, i + 1);
        }
      }
    }
    CountLitPrefix(frame, Trunc(x));
  }

  /** `int(level * NUM_LEDS) >= NUM_LEDS` exactly when the level is at least 1. */
  lemma OverloadIff(n: nat, level: real)
    requires n > 0
    ensures Trunc(Scaled(level, n)) >= n <==> 1.0 <= level
  {
    if Scaled(level, n) >= 0.0 {
      TruncAtLeast(Scaled(level, n), n);
    }
  }

  /** `update_leds` of ZoneFlashes and NoDecay: a full bar turns the whole
      strip solid red; anything less is the truncating gradient bar. */
  function UpdateLeds(n: nat, level: real): (frame: Frame)
    ensures |frame| == n
    ensures 1.0 <= level ==> forall i :: 0 <= i < n ==> frame[i] == Red
    ensures level < 1.0 ==> frame == ShowBarTruncated(n, level)
  {
    var ledsOn := Trunc(Scaled(level, n));
    if n == 0 then []
    else
      OverloadIff(n, level);
      if ledsOn >= n then seq(n, i => Red)
      else ShowBarTruncated(n, level)
  }

  /** Test1's `clear_strip` and every variant's shutdown: all LEDs off. */
  function ClearStrip(n: nat): (frame: Frame)
    ensures |frame| == n
    ensures forall i :: 0 <= i < n ==> frame[i] == Off
    ensures CountLit(frame) == 0
  {
    var frame := seq(n, i => Off);
    CountLitPrefix(frame, 0);
    frame
  }

  /** For a level in [0, 1] the bar lights exactly `int(level * NUM_LEDS)` LEDs. */
  lemma TruncatedBarCount(n: nat, level: real)
    requires 0.0 <= level <= 1.0
    ensures CountLit(ShowBarTruncated(n, level)) == Trunc(Scaled(level, n))
  {
    var x := Scaled(level, n);
    TruncatedBarLitCount(n, level);
    assert 0 <= Trunc(x) <= n by {
      TruncMonotone(x, n as real);
    }
  }

  /** For a level in [0, 1] the rounded bar lights exactly `round(level * NUM_LEDS)` LEDs. */
  lemma RoundedBarCount(n: nat, level: real)
    requires 0.0 <= level <= 1.0
    ensures CountLit(ShowBarRounded(n, level)) == Round(Scaled(level, n))
  {
    var x := Scaled(level, n);
    var k := Round(x);
    assert 0 <= k <= n;
    CountLitPrefix(ShowBarRounded(n, level), k);
  }

  /** A louder level never switches an LED off, and an LED that is on in
      both frames shows the same colour: colour depends on position only. */
  lemma TruncatedBarMonotone(n: nat, l1: real, l2: real)
    requires l1 <= l2
    ensures forall i :: 0 <= i < n && ShowBarTruncated(n, l1)[i] != Off ==>
      ShowBarTruncated(n, l2)[i] == ShowBarTruncated(n, l1)[i]
    ensures CountLit(ShowBarTruncated(n, l1)) <= CountLit(ShowBarTruncated(n, l2))
  {
    ScaledMonotone(l1, l2, n);
    TruncMonotone(Scaled(l1, n), Scaled(l2, n));
    TruncatedBarLitCount(n, l1);
    TruncatedBarLitCount(n, l2);
  }

  /** The rounded bar of FastAttackSlowDecay is monotone too: on [0, 1] a
      louder level never switches an LED off or recolours it, and never
      lights fewer LEDs. */
  lemma RoundedBarMonotone(n: nat, l1: real, l2: real)
    requires 0.0 <= l1 <= l2 <= 1.0
    ensures forall i :: 0 <= i < n && ShowBarRounded(n, l1)[i] != Off ==>
      ShowBarRounded(n, l2)[i] == ShowBarRounded(n, l1)[i]
    ensures CountLit(ShowBarRounded(n, l1)) <= CountLit(ShowBarRounded(n, l2))
  {
    ScaledMonotone(l1, l2, n);
    RoundMonotone(Scaled(l1, n), Scaled(l2, n));
    RoundedBarCount(n, l1);
    RoundedBarCount(n, l2);
  }

  /** In the overload case every one of the n LEDs is red and nothing else. */
  lemma OverloadAllRed(n: nat, level: real)
    requires 1.0 <= level
    ensures CountLit(UpdateLeds(n, level)) == n
    ensures forall i :: 0 <= i < n ==> UpdateLeds(n, level)[i] == Red
  {
    CountLitPrefix(UpdateLeds(n, level), n);
  }
}
