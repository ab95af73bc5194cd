/**
 * One line for a heart-rate or pace step: "<when> @ <zone> (<detail>)" or
 * "<when> @ Pace <zone> (<detail>)". Both renderers build these lines the same
 * way (generateHeartRateDescriptionLine, generatePaceDescriptionLine and the
 * single/range helpers); only the "when" text differs, so it is a parameter here.
 */
module StepLines {
  import opened Wrappers
  import opened Decimal
  import opened Text
  import opened WorkoutTypes
  import opened Zones
  import opened WhenText

  /** The zone part and the parenthesised detail of a line. */
  datatype Target = Target(zone: string, detail: string)

  function ZoneName(zone: int): string {
    "Z" + IntToString(zone)
  }

  /** "Z<a>" when both ends of a range fall in the same zone, "Z<a>-Z<b>" otherwise. */
  function ZoneLabel(a: int, b: int): string {
    if a == b then ZoneName(a) else ZoneName(a) + "-" + ZoneName(b)
  }

  /** Beats per minute for a percentage of the source heart rate, as float32 arithmetic would give exactly. */
  function Bpm(percent: real, sourceHeartRate: int): real {
    percent / 100.0 * sourceHeartRate as real
  }

  /**
   * The heart-rate zone and detail; `None` for units the renderer does not know.
   * A zone always starts with "Z"; an "hr_zone" target has no detail.
   */
  function HeartRateTarget(hr: WorkoutStepUnit, settings: AthleteSportSettings): (t: Option<Target>)
    ensures t.Some? <==> hr.units in {"hr_zone", "%hr", "%lthr"}
    ensures t.Some? ==> |t.value.zone| >= 2 && t.value.zone[0] == 'Z'
    ensures hr.units == "hr_zone" ==> t.Some? && t.value.detail == ""
  {
    if hr.units == "hr_zone" then Some(Target(ZoneName(Trunc(hr.value)), ""))
    else if hr.units == "%hr" || hr.units == "%lthr" then
      var source := if hr.units == "%hr" then settings.maximumHeartRate else settings.thresholdHeartRate;
      if hr.value > 0.0 then
        var bpm := Bpm(hr.value, source);
        Some(Target(ZoneName(HeartRateZone(bpm, settings)), IntToString(Trunc(bpm))))
      else
        var low, high := Bpm(hr.start, source), Bpm(hr.end, source);
        Some(Target(
          ZoneLabel(HeartRateZone(low, settings), HeartRateZone(high, settings)),
          IntToString(Trunc(low)) + "-" + IntToString(Trunc(high)) + " bpm"))
    else None
  }

  /** Speed in metres per second for a percentage of threshold pace. */
  function PaceSpeed(percent: real, settings: AthleteSportSettings): real {
    percent / 100.0 * settings.thresholdPace
  }

  /**
   * The pace zone and detail; `None` for units the renderer does not know.
   * For "pace_zone" the source reads the step's heart-rate target, which is
   * always absent on a pace step, so that unit is excluded. A zone always
   * starts with "Z" and the detail always ends in " min/km".
   */
  function PaceTarget(pace: WorkoutStepUnit, settings: AthleteSportSettings, f: FloatFormat): (t: Option<Target>)
    requires pace.units != "pace_zone"
    ensures t.Some? <==> pace.units == "%pace"
    ensures t.Some? ==> |t.value.zone| >= 2 && t.value.zone[0] == 'Z'
    ensures t.Some? ==> |t.value.detail| >= 7 && t.value.detail[|t.value.detail| - 7..] == " min/km"
  {
    if pace.units == "%pace" then
      if pace.value > 0.0 then
        Some(Target(
          ZoneName(PaceZone(pace.value, settings)),
          f.paceClock(PaceSpeed(pace.value, settings)) + " min/km"))
      else
        Some(Target(
          ZoneLabel(PaceZone(pace.start, settings), PaceZone(pace.end, settings)),
          f.paceClock(PaceSpeed(pace.start, settings)) + "-" +
          f.paceClock(PaceSpeed(pace.end, settings)) + " min/km"))
    else None
  }

  /** A heart-rate line opens with the when-text and " @ ". */
  function HeartRateLine(when: string, hr: WorkoutStepUnit, settings: AthleteSportSettings): (line: string)
    ensures line != "" ==> |when| + 3 <= |line| && line[..|when| + 3] == when + " @ "
  {
    match HeartRateTarget(hr, settings)
    case None => ""
    case Some(t) => when + " @ " + t.zone + " (" + t.detail + ")"
  }

  /** A pace line opens with the when-text and " @ Pace ". */
  function PaceLine(when: string, pace: WorkoutStepUnit, settings: AthleteSportSettings, f: FloatFormat): (line: string)
    requires pace.units != "pace_zone"
    ensures line != "" ==> |when| + 8 <= |line| && line[..|when| + 8] == when + " @ Pace "
  {
    match PaceTarget(pace, settings, f)
    case None => ""
    case Some(t) => when + " @ Pace " + t.zone + " (" + t.detail + ")"
  }

  /**
   * generateHeartRateDescriptionLine with the single and range helpers; the
   * zone scans run as loops. `HeartRateLine` is its specification, stated with
   * `HeartRateZone` where this method runs the scan.
   */
  method GenerateHeartRateLine(when: string, hr: WorkoutStepUnit, settings: AthleteSportSettings) returns (line: string)
    ensures line == HeartRateLine(when, hr, settings)
  {
    var zone, detail;
    if hr.units == "hr_zone" {
      zone, detail := ZoneName(Trunc(hr.value)), "";
    } else if hr.units == "%hr" || hr.units == "%lthr" {
      var source := if hr.units == "%hr" then settings.maximumHeartRate else settings.thresholdHeartRate;
      var bounds := HeartRateBounds(settings.heartRateZones);
      if hr.value > 0.0 {
        var bpm := Bpm(hr.value, source);
        var z := FindZone(bpm, bounds);
        zone, detail := ZoneName(z), IntToString(Trunc(bpm));
      } else {
        var low, high := Bpm(hr.start, source), Bpm(hr.end, source);
        var a := FindZone(low, bounds);
        var b := FindZone(high, bounds);
        zone := ZoneLabel(a, b);
        detail := IntToString(Trunc(low)) + "-" + IntToString(Trunc(high)) + " bpm";
      }
    } else {
      return "";
    }
    line := when + " @ " + zone + " (" + detail + ")";
  }

  /**
   * generatePaceDescriptionLine for the units a pace step can carry without a
   * nil dereference; `PaceLine` is its specification.
   */
  method GeneratePaceLine(when: string, pace: WorkoutStepUnit, settings: AthleteSportSettings, f: FloatFormat)
    returns (line: string)
    requires pace.units != "pace_zone"
    ensures line == PaceLine(when, pace, settings, f)
  {
    var zone, detail;
    if pace.units == "%pace" {
      if pace.value > 0.0 {
        var z := FindZone(pace.value, settings.paceZones);
        zone := ZoneName(z);
        detail := f.paceClock(PaceSpeed(pace.value, settings)) + " min/km";
      } else {
        var a := FindZone(pace.start, settings.paceZones);
        var b := FindZone(pace.end, settings.paceZones);
        zone := ZoneLabel(a, b);
        detail := f.paceClock(PaceSpeed(pace.start, settings)) + "-" +
          f.paceClock(PaceSpeed(pace.end, settings)) + " min/km";
      }
    } else {
      return "";
    }
    line := when + " @ Pace " + zone + " (" + detail + ")";
  }

  /** The float renderings never produce a line break. */
  ghost predicate NewlineFree(f: FloatFormat) {
    (forall x :: NoNewline(f.kilometres(x))) && (forall x :: NoNewline(f.paceClock(x)))
  }

  /** A range label names one zone exactly when both ends fall in the same zone. */
  lemma ZoneLabelSingle(a: int, b: int)
    ensures ZoneLabel(a, b) == ZoneName(a) <==> a == b
    ensures a != b ==> ZoneLabel(a, b) == ZoneName(a) + "-" + ZoneName(b)
  {
    if a != b {
      assert |ZoneLabel(a, b)| > |ZoneName(a)|;
    }
  }

  /** A heart-rate line is empty exactly for units other than "hr_zone", "%hr" and "%lthr". */
  lemma HeartRateLineEmpty(when: string, hr: WorkoutStepUnit, settings: AthleteSportSettings)
    ensures HeartRateLine(when, hr, settings) == "" <==> hr.units !in {"hr_zone", "%hr", "%lthr"}
  {
    if hr.units in {"hr_zone", "%hr", "%lthr"} {
      assert |HeartRateLine(when, hr, settings)| > 0;
    }
  }

  /** A pace line is empty exactly for units other than "%pace". */
  lemma PaceLineEmpty(when: string, pace: WorkoutStepUnit, settings: AthleteSportSettings, f: FloatFormat)
    requires pace.units != "pace_zone"
    ensures PaceLine(when, pace, settings, f) == "" <==> pace.units != "%pace"
  {
    if pace.units == "%pace" {
      assert |PaceLine(when, pace, settings, f)| > 0;
    }
  }

  /**
   * "%hr" and "%lthr" differ only in the source heart rate they scale: "%hr"
   * of the maximum is "%lthr" of a threshold equal to that maximum, in single
   * and range mode alike.
   */
  lemma SourceHeartRateOnly(hr: WorkoutStepUnit, settings: AthleteSportSettings)
    requires hr.units == "%hr"
    ensures HeartRateTarget(hr, settings) ==
      HeartRateTarget(hr.(units := "%lthr"), settings.(thresholdHeartRate := settings.maximumHeartRate))
  {
  }

  /** In single mode the detail is the truncated beats per minute, and the zone classifies those beats. */
  lemma SingleHeartRate(hr: WorkoutStepUnit, settings: AthleteSportSettings)
    requires hr.units in {"%hr", "%lthr"} && hr.value > 0.0
    ensures var source := if hr.units == "%hr" then settings.maximumHeartRate else settings.thresholdHeartRate;
      var bpm := Bpm(hr.value, source);
      HeartRateTarget(hr, settings) == Some(Target(ZoneName(HeartRateZone(bpm, settings)), IntToString(Trunc(bpm))))
      && ParseInt(HeartRateTarget(hr, settings).value.detail) == Some(Trunc(bpm))
  {
    var source := if hr.units == "%hr" then settings.maximumHeartRate else settings.thresholdHeartRate;
    IntRoundTrip(Trunc(Bpm(hr.value, source)));
  }

  /** Pace zones classify the percentage: the threshold pace changes only the detail. */
  lemma PaceZoneIgnoresThreshold(pace: WorkoutStepUnit, s1: AthleteSportSettings, s2: AthleteSportSettings, f: FloatFormat)
    requires pace.units == "%pace"
    requires s1.paceZones == s2.paceZones
    ensures PaceTarget(pace, s1, f).Some? && PaceTarget(pace, s2, f).Some?
    ensures PaceTarget(pace, s1, f).value.zone == PaceTarget(pace, s2, f).value.zone
  {
  }

  /** With newline-free float renderings and "when" text, a step line is a single line. */
  lemma LinesAreSingle(when: string, hr: WorkoutStepUnit, pace: WorkoutStepUnit, settings: AthleteSportSettings, f: FloatFormat)
    requires NewlineFree(f) && NoNewline(when)
    requires pace.units != "pace_zone"
    ensures NoNewline(HeartRateLine(when, hr, settings))
    ensures NoNewline(PaceLine(when, pace, settings, f))
  {
    HeartRateTargetSingle(hr, settings);
    PaceTargetSingle(pace, settings, f);
  }

  lemma HeartRateTargetSingle(hr: WorkoutStepUnit, settings: AthleteSportSettings)
    ensures HeartRateTarget(hr, settings).Some? ==>
      NoNewline(HeartRateTarget(hr, settings).value.zone) && NoNewline(HeartRateTarget(hr, settings).value.detail)
  {
  }

  lemma PaceTargetSingle(pace: WorkoutStepUnit, settings: AthleteSportSettings, f: FloatFormat)
    requires NewlineFree(f) && pace.units != "pace_zone"
    ensures PaceTarget(pace, settings, f).Some? ==>
      NoNewline(PaceTarget(pace, settings, f).value.zone) && NoNewline(PaceTarget(pace, settings, f).value.detail)
  {
    assert NoNewline(f.paceClock(PaceSpeed(pace.start, settings)));
    assert NoNewline(f.paceClock(PaceSpeed(pace.end, settings)));
    assert NoNewline(f.paceClock(PaceSpeed(pace.value, settings)));
  }

  /** The clock is digits around a colon, so it holds no line break. */
  lemma ClockNoNewline(secs: nat)
    ensures NoNewline(Clock(secs))
  {
    var t := Clock(secs);
    forall i | 0 <= i < 5
      ensures t[i] != '\n'
    {
      if i < 2 {
        assert t[i] == t[..2][i];
      } else if i > 2 {
        assert t[i] == t[3..][i - 3];
      }
    }
  }

  /** With newline-free float renderings, the "when" text of the current renderer is a single line. */
  lemma WhenSingleLine(distance: real, duration: real, f: FloatFormat)
    requires NewlineFree(f)
    ensures NoNewline(When(distance, duration, f))
  {
    assert NoNewline(DistanceText(distance, f)) by {
      assert NoNewline(f.kilometres(distance / 1000.0));
    }
    assert NoNewline(DurationText(duration)) by {
      if duration >= 60.0 {
        ClockNoNewline(RoundToTen(duration));
      }
    }
  }

  /** The worked example: 90 % of a 180 bpm threshold is 162 bpm, zone 4 of [120, 140, 160, 170, 190]. */
  lemma ThresholdExample()
    ensures HeartRateTarget(
      WorkoutStepUnit(0.0, 0.0, "%lthr", 90.0),
      AthleteSportSettings(190, 180, [120, 140, 160, 170, 190], 3.0, [])) == Some(Target("Z4", "162"))
  {
    var settings := AthleteSportSettings(190, 180, [120, 140, 160, 170, 190], 3.0, []);
    assert Bpm(90.0, 180) == 162.0;
    assert Trunc(162.0) == 162;
    ThresholdExampleZone(settings);
    assert ZoneName(4) == "Z4";
    assert IntToString(162) == "162" by {
      assert NatToString(16) == NatToString(1) + "6";
      assert NatToString(162) == NatToString(16) + "2";
    }
  }

  lemma ThresholdExampleZone(settings: AthleteSportSettings)
    requires settings.heartRateZones == [120, 140, 160, 170, 190]
    ensures HeartRateZone(162.0, settings) == 4
  {
    var bounds := HeartRateBounds(settings.heartRateZones);
    assert bounds == [120.0, 140.0, 160.0, 170.0, 190.0];
    var b3 := [170.0, 190.0];
    var b2 := [160.0] + b3;
    var b1 := [140.0] + b2;
    assert bounds == [120.0] + b1 && bounds[1..] == b1 && b1[1..] == b2 && b2[1..] == b3;
    assert FirstAtLeast(162.0, b3) == 0;
    assert FirstAtLeast(162.0, b2) == 1;
    assert FirstAtLeast(162.0, b1) == 2;
    assert FirstAtLeast(162.0, bounds) == 3;
  }
}
