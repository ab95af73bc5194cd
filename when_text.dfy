/**
 * The "when" part of a step line in the current renderer
 * (calculationDurationOrDistanceText and roundNum in internal/intervals/text_gen.go):
 * distance in metres or kilometres, duration in seconds rounded to ten, and the
 * rule that picks between them when both are set.
 */
module WhenText {
  import opened Wrappers
  import opened Decimal
  import opened Float32

  /**
   * The two float renderings the model does not interpret: Go's `%.2g` of a
   * distance in kilometres, and the "04:05" clock of a pace given as a speed in
   * metres per second.
   */
  datatype FloatFormat = FloatFormat(kilometres: real -> string, paceClock: real -> string)

  /** Go's `int(x)` conversion of a float: truncation toward zero. */
  function Trunc(x: real): (t: int)
    ensures x >= 0.0 ==> t as real <= x < t as real + 1.0
    ensures x < 0.0 ==> t as real - 1.0 < x <= t as real
  {
    if x >= 0.0 then x.Floor else -((-x).Floor)
  }

  /** roundNum: `math.Round(x / 10) * 10`, the nearest multiple of ten with halves away from zero. */
  function RoundToTen(x: real): (r: int)
    ensures r % 10 == 0
    ensures x >= 0.0 ==> r >= 0 && r as real - 5.0 <= x < r as real + 5.0
    ensures x < 0.0 ==> r <= 0 && r as real - 5.0 < x <= r as real + 5.0
  {
    if x >= 0.0 then 10 * (x / 10.0 + 0.5).Floor else -10 * (-x / 10.0 + 0.5).Floor
  }

  /** The "04:05" layout applied to the Unix epoch plus `secs`: minutes of the hour and seconds. */
  function Clock(secs: nat): (t: string)
    ensures |t| == 5 && t[2] == ':' && AllDigits(t[..2]) && AllDigits(t[3..])
  {
    var t := Pad2((secs / 60) % 60) + ":" + Pad2(secs % 60);
    assert t[..2] == Pad2((secs / 60) % 60) && t[3..] == Pad2(secs % 60);
    t
  }

  /** Reads an "MM:SS" clock back as seconds. */
  function ClockSeconds(t: string): nat
    requires |t| == 5 && AllDigits(t[..2]) && AllDigits(t[3..])
  {
    ParseNat(t[..2]) * 60 + ParseNat(t[3..])
  }

  /** The clock keeps minutes and seconds only: whole hours are lost. */
  lemma ClockDropsHours(secs: nat)
    ensures ClockSeconds(Clock(secs)) == secs % 3600
  {
    var m, s := (secs / 60) % 60, secs % 60;
    var t := Clock(secs);
    assert t[..2] == Pad2(m) && t[3..] == Pad2(s);
    Pad2RoundTrip(m);
    Pad2RoundTrip(s);
    MinutesAndSeconds(secs);
  }

  lemma MinutesAndSeconds(secs: nat)
    ensures (secs / 60) % 60 * 60 + secs % 60 == secs % 3600
  {
    var h, r := secs / 3600, secs % 3600;
    var m, s := r / 60, r % 60;
    assert r == 60 * m + s && 0 <= s < 60 && 0 <= m < 60;
    assert secs == 60 * (60 * h + m) + s;
    assert secs / 60 == 60 * h + m;
    assert secs % 60 == s;
    assert (60 * h + m) % 60 == m;
  }

  /** Under a kilometre the text reads back as the whole metres; from 1000 m on it is in kilometres. */
  function DistanceText(distance: real, f: FloatFormat): (t: string)
    ensures 0.0 < distance < 1000.0 ==>
      |t| >= 2 && t[|t| - 1] == 'm' && ParseInt(t[..|t| - 1]) == Some(Trunc(distance))
    ensures distance >= 1000.0 ==> |t| >= 2 && t[|t| - 2..] == "km"
  {
    if distance > 0.0 then
      if distance < 1000.0 then
        var metres := IntToString(Trunc(distance));
        IntRoundTrip(Trunc(distance));
        assert (metres + "m")[..|metres|] == metres;
        metres + "m"
      else f.kilometres(distance / 1000.0) + "km"
    else ""
  }

  const NanosPerSecond: nat := 1_000_000_000

  /**
   * The seconds the clock shows for a rounded duration of `secs` seconds:
   * `secs * float32(time.Second)` is a float32 product, so it is rounded to 24
   * significant bits before time.Duration takes it as nanoseconds, and the
   * layout shows only whole seconds. Below 2^24 seconds the clock is exact or
   * one second short, and short exactly when the product rounds down.
   */
  function ShownSeconds(secs: nat): (shown: nat)
    ensures secs < Significand ==> shown == secs || shown + 1 == secs
    ensures secs < Significand ==> (shown == secs <==> ToFloat32(secs * NanosPerSecond) >= secs * NanosPerSecond)
  {
    var n := secs * NanosPerSecond;
    var m := ToFloat32(n);
    if secs < Significand then
      NanosNear(secs, m);
      m / NanosPerSecond
    else
      m / NanosPerSecond
  }

  /** A product within one second of `secs` seconds shows `secs`, or one second less when it falls short. */
  lemma NanosNear(secs: nat, m: nat)
    requires secs < Significand
    requires Significand * (if m >= secs * NanosPerSecond then m - secs * NanosPerSecond else secs * NanosPerSecond - m)
      <= secs * NanosPerSecond
    ensures m / NanosPerSecond == secs || m / NanosPerSecond + 1 == secs
    ensures m / NanosPerSecond == secs <==> m >= secs * NanosPerSecond
  {
    var n := secs * NanosPerSecond;
    assert n < Significand * NanosPerSecond;
    assert n - NanosPerSecond < m < n + NanosPerSecond;
    var q, r := m / NanosPerSecond, m % NanosPerSecond;
    assert m == q * NanosPerSecond + r && 0 <= r < NanosPerSecond;
  }

  /**
   * The under-a-minute test looks at the unrounded duration: below it the text
   * reads back as the rounded seconds, from it on it is an "MM:SS" clock.
   */
  function DurationText(duration: real): (t: string)
    ensures 0.0 < duration < 60.0 ==>
      |t| >= 2 && t[|t| - 1] == 's' && ParseInt(t[..|t| - 1]) == Some(RoundToTen(duration))
    ensures duration >= 60.0 ==> |t| == 8 && t[5..] == "min"
  {
    if duration > 0.0 then
      if duration < 60.0 then
        var secs := IntToString(RoundToTen(duration));
        IntRoundTrip(RoundToTen(duration));
        assert (secs + "s")[..|secs|] == secs;
        secs + "s"
      else Clock(ShownSeconds(RoundToTen(duration))) + "min"
    else ""
  }

  /** A positive distance whose whole metres are a multiple of 100 is shown alone, whatever the duration. */
  function When(distance: real, duration: real, f: FloatFormat): (t: string)
    ensures distance > 0.0 && Trunc(distance) % 100 == 0 ==> t == DistanceText(distance, f)
  {
    var distanceText := DistanceText(distance, f);
    var durationText := DurationText(duration);
    if distanceText == "" then durationText
    else if durationText == "" then distanceText
    else if Trunc(distance) % 100 == 0 then distanceText
    else durationText + " / " + distanceText
  }

  /** Nothing is shown exactly when neither distance nor duration is positive. */
  lemma WhenEmpty(distance: real, duration: real, f: FloatFormat)
    ensures When(distance, duration, f) == "" <==> distance <= 0.0 && duration <= 0.0
  {
    assert distance > 0.0 ==> DistanceText(distance, f) != "";
    assert duration > 0.0 ==> DurationText(duration) != "";
  }

  /** With both set, the distance alone is shown exactly when its whole metres are a multiple of 100. */
  lemma DistanceWins(distance: real, duration: real, f: FloatFormat)
    requires distance > 0.0 && duration > 0.0
    ensures When(distance, duration, f) == DistanceText(distance, f) <==> Trunc(distance) % 100 == 0
    ensures Trunc(distance) % 100 != 0 ==>
      When(distance, duration, f) == DurationText(duration) + " / " + DistanceText(distance, f)
  {
    assert DistanceText(distance, f) != "";
    assert DurationText(duration) != "";
  }

  /** With only one of them set, that one is shown. */
  lemma OnlyOneSet(distance: real, duration: real, f: FloatFormat)
    ensures distance > 0.0 && duration <= 0.0 ==> When(distance, duration, f) == DistanceText(distance, f)
    ensures distance <= 0.0 && duration > 0.0 ==> When(distance, duration, f) == DurationText(duration)
  {
    assert distance > 0.0 ==> DistanceText(distance, f) != "";
  }

  /**
   * A duration of a minute or more reads back as the seconds the float32
   * product shows, modulo whole hours: the rounded seconds, or one less.
   */
  lemma LongDurationReadsBack(duration: real)
    requires duration >= 60.0
    ensures var t := DurationText(duration);
      |t| == 8 && t[5..] == "min" && ClockSeconds(t[..5]) == ShownSeconds(RoundToTen(duration)) % 3600
    ensures var t := DurationText(duration); var r := RoundToTen(duration);
      r < Significand ==> ClockSeconds(t[..5]) == r % 3600 || ClockSeconds(t[..5]) == (r - 1) % 3600
  {
    var r := RoundToTen(duration);
    var shown := ShownSeconds(r);
    var t := DurationText(duration);
    assert t == Clock(shown) + "min";
    assert t[..5] == Clock(shown);
    ClockDropsHours(shown);
  }

  /** 70 s and 240 s: the float32 product rounds up, so the clock is exact. */
  lemma ProductRoundsUp()
    ensures ShownSeconds(70) == 70
    ensures ShownSeconds(240) == 240
  {
    assert Ulp(70000000000) == 8192 by {
      assert UlpFrom(70000000000, 1) == UlpFrom(70000000000, 8192);
    }
    assert ToFloat32(70000000000) == 70000001024;
    assert Ulp(240000000000) == 16384 by {
      assert UlpFrom(240000000000, 1) == UlpFrom(240000000000, 16384);
    }
    assert ToFloat32(240000000000) == 240000008192;
  }

  /** 90 s and 3600 s: the float32 product rounds down, so the clock shows one second less. */
  lemma ProductRoundsDown()
    ensures ShownSeconds(90) == 89
    ensures ShownSeconds(3600) == 3599
  {
    assert Ulp(90000000000) == 8192 by {
      assert UlpFrom(90000000000, 1) == UlpFrom(90000000000, 8192);
    }
    assert ToFloat32(90000000000) == 89999998976;
    HourProduct();
  }

  /** One hour in nanoseconds lies between float32 values 2^18 apart and rounds down. */
  lemma HourProduct()
    ensures ToFloat32(3600000000000) == 3599999959040
  {
    assert Ulp(3600000000000) == 262144 by {
      assert UlpFrom(3600000000000, 1) == UlpFrom(3600000000000, 16384);
    }
  }

  /** Under a minute the rounded seconds are printed, from 0 up to 60. */
  lemma ShortDuration(duration: real)
    requires 0.0 < duration < 60.0
    ensures DurationText(duration) == IntToString(RoundToTen(duration)) + "s"
    ensures 0 <= RoundToTen(duration) <= 60
    ensures RoundToTen(duration) == 60 <==> duration >= 55.0
  {
  }

  /** Short distances are whole metres; from 1000 m on the kilometre text is used. */
  lemma ExampleDistances(f: FloatFormat)
    ensures When(999.0, 0.0, f) == "999m"
    ensures When(1000.0, 0.0, f) == f.kilometres(1.0) + "km"
  {
    assert Trunc(999.0) == 999;
    assert IntToString(999) == "999" by {
      assert NatToString(9) == "9";
      assert NatToString(99) == NatToString(9) + "9";
      assert NatToString(999) == NatToString(99) + "9";
    }
  }

  /** 65 s rounds to 70 s, shown as a clock; 45 s rounds to 50 s. */
  lemma ExampleDurations(f: FloatFormat)
    ensures When(0.0, 65.0, f) == "01:10min"
    ensures When(0.0, 45.0, f) == "50s"
  {
    assert DistanceText(0.0, f) == "";
    SeventySeconds();
    FiftySeconds();
  }

  lemma SeventySeconds()
    ensures DurationText(65.0) == "01:10min"
  {
    assert RoundToTen(65.0) == 70;
    ProductRoundsUp();
    ClockOfSeventy();
  }

  lemma ClockOfSeventy()
    ensures Clock(70) == "01:10"
  {
    assert (70 / 60) % 60 == 1 && 70 % 60 == 10;
    assert Pad2(1) == "01";
    assert Pad2(10) == "10" by {
      assert NatToString(10) == NatToString(1) + "0";
    }
    assert Clock(70) == Pad2(1) + ":" + Pad2(10);
  }

  lemma FiftySeconds()
    ensures DurationText(45.0) == "50s"
  {
    assert RoundToTen(45.0) == 50;
    assert IntToString(50) == "50" by {
      assert NatToString(50) == NatToString(5) + "0";
    }
  }

  /** A round distance hides the duration; otherwise both are shown. */
  lemma ExampleBoth(f: FloatFormat)
    ensures When(1000.0, 240.0, f) == f.kilometres(1.0) + "km"
    ensures When(950.0, 240.0, f) == "04:00min / 950m"
  {
    FourMinutes();
    NineHundredFiftyMetres(f);
    assert Trunc(1000.0) % 100 == 0;
    assert Trunc(950.0) % 100 != 0;
  }

  lemma FourMinutes()
    ensures DurationText(240.0) == "04:00min"
  {
    assert RoundToTen(240.0) == 240;
    ProductRoundsUp();
    assert (240 / 60) % 60 == 4 && 240 % 60 == 0;
    assert Clock(240) == Pad2(4) + ":" + Pad2(0);
  }

  lemma NineHundredFiftyMetres(f: FloatFormat)
    ensures DistanceText(950.0, f) == "950m"
  {
    assert Trunc(950.0) == 950;
    assert NatToString(95) == NatToString(9) + "5";
    assert NatToString(950) == NatToString(95) + "0";
  }

  /**
   * The unrounded cut-off shows 55 seconds as "60s"; the float32 product makes
   * 90 seconds "01:29min" and one hour "59:59min"; 100.5 m counts as a round
   * distance because only its whole metres are tested.
   */
  lemma RoundingQuirks(f: FloatFormat)
    ensures When(0.0, 55.0, f) == "60s"
    ensures When(0.0, 90.0, f) == "01:29min"
    ensures When(0.0, 3600.0, f) == "59:59min"
    ensures When(0.0, 3.0, f) == "0s"
    ensures When(100.5, 240.0, f) == DistanceText(100.5, f) == "100m"
  {
    FiftyFiveSeconds();
    NinetySeconds();
    OneHour();
    assert DurationText(3.0) == "0s" by {
      assert RoundToTen(3.0) == 0;
    }
    OnlyOneSet(0.0, 55.0, f);
    OnlyOneSet(0.0, 90.0, f);
    OnlyOneSet(0.0, 3600.0, f);
    OnlyOneSet(0.0, 3.0, f);
    HundredAndAHalfMetres(f);
  }

  lemma FiftyFiveSeconds()
    ensures DurationText(55.0) == "60s"
  {
    assert RoundToTen(55.0) == 60;
    assert IntToString(60) == "60" by {
      assert NatToString(60) == NatToString(6) + "0";
    }
  }

  lemma NinetySeconds()
    ensures DurationText(90.0) == "01:29min"
  {
    assert RoundToTen(90.0) == 90;
    ProductRoundsDown();
    assert (89 / 60) % 60 == 1 && 89 % 60 == 29;
    assert Pad2(29) == "29" by {
      assert NatToString(29) == NatToString(2) + "9";
    }
    assert Clock(89) == Pad2(1) + ":" + Pad2(29);
  }

  lemma OneHour()
    ensures DurationText(3600.0) == "59:59min"
  {
    assert RoundToTen(3600.0) == 3600;
    ProductRoundsDown();
    assert (3599 / 60) % 60 == 59 && 3599 % 60 == 59;
    assert Pad2(59) == "59" by {
      assert NatToString(59) == NatToString(5) + "9";
    }
    assert Clock(3599) == Pad2(59) + ":" + Pad2(59);
  }

  lemma HundredAndAHalfMetres(f: FloatFormat)
    ensures When(100.5, 240.0, f) == DistanceText(100.5, f) == "100m"
  {
    assert Trunc(100.5) == 100;
    assert IntToString(100) == "100" by {
      assert NatToString(10) == NatToString(1) + "0";
      assert NatToString(100) == NatToString(10) + "0";
    }
    FourMinutes();
  }
}
