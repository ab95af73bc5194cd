/**
 * The older renderer (intervals/text_gen.go): top-level steps only, integer
 * distance and duration, and a newline before every emitted line whose step is
 * not the first, so a skipped first step leaves a leading newline.
 */
module LegacyRender {
  import opened Wrappers
  import opened Decimal
  import opened Text
  import opened WorkoutTypes
  import opened WhenText
  import opened StepLines

  /** A step of the older package: whole metres and whole seconds; no repeat groups. */
  datatype LegacyStep = LegacyStep(
    distance: int,
    duration: int,
    heartRate: Option<WorkoutStepUnit>,
    pace: Option<WorkoutStepUnit>)

  /** Go's `/` on integers, which truncates toward zero. */
  function Quot(a: int, b: int): (q: int)
    requires b > 0
    ensures a >= 0 ==> 0 <= a - q * b < b
    ensures a < 0 ==> -b < a - q * b <= 0
  {
    if a >= 0 then a / b else -((-a) / b)
  }

  /** Go's `%` on integers: the remainder takes the sign of the dividend. */
  function Rem(a: int, b: int): (r: int)
    requires b > 0
    ensures a == Quot(a, b) * b + r
    ensures a >= 0 ==> 0 <= r < b
    ensures a < 0 ==> -b < r <= 0
  {
    a - Quot(a, b) * b
  }

  function LegacyDistanceText(distance: int): string {
    if distance > 0 then
      if distance < 1000 then IntToString(distance) + "m"
      else IntToString(Quot(distance, 1000)) + "km"
    else ""
  }

  /** Whole minutes carry the same "m" suffix as metres. */
  function LegacyDurationText(duration: int): string {
    if duration > 0 then
      if duration < 60 then IntToString(duration) + "s"
      else IntToString(Quot(duration, 60)) + "m"
    else ""
  }

  /** A positive distance that is a multiple of 100 m is shown alone, whatever the duration. */
  function LegacyWhen(distance: int, duration: int): (t: string)
    ensures distance > 0 && Rem(distance, 100) == 0 ==> t == LegacyDistanceText(distance)
  {
    var distanceText := LegacyDistanceText(distance);
    var durationText := LegacyDurationText(duration);
    if distanceText == "" then durationText
    else if durationText == "" then distanceText
    else if Rem(distance, 100) == 0 then distanceText
    else durationText + " / " + distanceText
  }

  /** A pace step with "pace_zone" units dereferences the absent heart-rate target. */
  predicate LegacyRenderable(s: LegacyStep) {
    s.heartRate.None? && s.pace.Some? ==> s.pace.value.units != "pace_zone"
  }

  /** The line a top-level step contributes, or `None` for a step with neither target. */
  function Entry(s: LegacyStep, settings: AthleteSportSettings, f: FloatFormat): (e: Option<string>)
    requires LegacyRenderable(s)
    ensures e.Some? <==> s.heartRate.Some? || s.pace.Some?
  {
    if s.heartRate.Some? then Some(HeartRateLine(LegacyWhen(s.distance, s.duration), s.heartRate.value, settings))
    else if s.pace.Some? then Some(PaceLine(LegacyWhen(s.distance, s.duration), s.pace.value, settings, f))
    else None
  }

  /** The entry of every step, in step order. */
  function Entries(steps: seq<LegacyStep>, settings: AthleteSportSettings, f: FloatFormat): (es: seq<Option<string>>)
    requires forall k :: 0 <= k < |steps| ==> LegacyRenderable(steps[k])
    ensures |es| == |steps| && forall k :: 0 <= k < |steps| ==> es[k] == Entry(steps[k], settings, f)
  {
    seq(|steps|, k requires 0 <= k < |steps| => Entry(steps[k], settings, f))
  }

  /** The lines that are present, in order. */
  function Present(es: seq<Option<string>>): (ls: seq<string>)
    ensures |ls| <= |es|
    ensures |es| > 0 && es[0].Some? ==> |ls| > 0
  {
    if |es| == 0 then []
    else
      var init := Present(es[..|es| - 1]);
      match es[|es| - 1]
      case None => init
      case Some(l) => init + [l]
  }

  /** The text the loop accumulates: each present line, preceded by a newline unless it is entry 0. */
  function Assemble(es: seq<Option<string>>): string {
    if |es| == 0 then ""
    else
      var init := Assemble(es[..|es| - 1]);
      match es[|es| - 1]
      case None => init
      case Some(l) => init + (if |es| > 1 then "\n" else "") + l
  }

  /** The emitted lines, in step order. */
  function Emitted(steps: seq<LegacyStep>, settings: AthleteSportSettings, f: FloatFormat): seq<string>
    requires forall k :: 0 <= k < |steps| ==> LegacyRenderable(steps[k])
  {
    Present(Entries(steps, settings, f))
  }

  function LegacySummary(steps: seq<LegacyStep>, settings: AthleteSportSettings, f: FloatFormat): string
    requires forall k :: 0 <= k < |steps| ==> LegacyRenderable(steps[k])
  {
    Assemble(Entries(steps, settings, f))
  }

  /** GenerateDescription of the older package, over the list its workout document holds. */
  method LegacyGenerateDescription(steps: seq<LegacyStep>, settings: AthleteSportSettings, f: FloatFormat)
    returns (summary: string)
    requires forall k :: 0 <= k < |steps| ==> LegacyRenderable(steps[k])
    ensures summary == LegacySummary(steps, settings, f)
  {
    ghost var es := Entries(steps, settings, f);
    summary := "";
    for i := 0 to |steps|
      invariant summary == Assemble(es[..i])
    {
      var s := steps[i];
      assert es[..i + 1][..i] == es[..i];
      if s.heartRate.Some? {
        if i > 0 {
          summary := summary + "\n";
        }
        var line := GenerateHeartRateLine(LegacyWhen(s.distance, s.duration), s.heartRate.value, settings);
        summary := summary + line;
      } else if s.pace.Some? {
        if i > 0 {
          summary := summary + "\n";
        }
        var line := GeneratePaceLine(LegacyWhen(s.distance, s.duration), s.pace.value, settings, f);
        summary := summary + line;
      }
    }
    assert es[..|steps|] == es;
  }

  /** One more entry: a present line follows the text so far, after a newline unless it is entry 0. */
  lemma AssembleSnoc(es: seq<Option<string>>, e: Option<string>)
    ensures Assemble(es + [e]) == if e.None? then Assemble(es) else Assemble(es) + (if |es| > 0 then "\n" else "") + e.value
    ensures Present(es + [e]) == if e.None? then Present(es) else Present(es) + [e.value]
  {
    assert (es + [e])[..|es|] == es;
  }

  /** The accumulated text is the present lines joined, with a leading newline iff entry 0 is absent and a later one is present. */
  lemma {:induction false} AssembleShape(es: seq<Option<string>>)
    ensures Assemble(es) == LeadingNewline(es) + Join(Present(es), "\n")
  {
    if |es| > 1 {
      var init, e := es[..|es| - 1], es[|es| - 1];
      assert es == init + [e];
      AssembleShape(init);
      AssembleShapeStep(init, e);
    }
  }

  /** The newline the loop leaves at the front: entry 0 is absent and some later entry is present. */
  function LeadingNewline(es: seq<Option<string>>): string {
    if |es| > 0 && es[0].None? && |Present(es)| > 0 then "\n" else ""
  }

  /** The inductive step of AssembleShape: one more entry keeps the shape. */
  lemma AssembleShapeStep(init: seq<Option<string>>, e: Option<string>)
    requires |init| > 0
    requires Assemble(init) == LeadingNewline(init) + Join(Present(init), "\n")
    ensures Assemble(init + [e]) == LeadingNewline(init + [e]) + Join(Present(init + [e]), "\n")
  {
    var es, p := init + [e], Present(init);
    AssembleSnoc(init, e);
    assert es[0] == init[0];
    match e
    case None =>
      assert LeadingNewline(es) == LeadingNewline(init);
    case Some(l) =>
      assert Present(es) == p + [l];
      assert Assemble(es) == Assemble(init) + "\n" + l;
      if |p| == 0 {
        assert init[0].None?;
        assert LeadingNewline(es) == "\n" && Join(p + [l], "\n") == l;
      } else {
        var lead, joined := LeadingNewline(init), Join(p, "\n");
        JoinSnoc(p, l, "\n");
        assert Join(p + [l], "\n") == joined + "\n" + l;
        assert LeadingNewline(es) == lead;
        assert Assemble(es) == lead + joined + "\n" + l;
        Regroup(lead, joined, "\n", l);
      }
  }

  /**
   * The summary is the emitted lines joined by newlines, with one extra leading
   * newline exactly when the first step emits nothing and a later step does.
   */
  lemma LegacySummaryShape(steps: seq<LegacyStep>, settings: AthleteSportSettings, f: FloatFormat)
    requires forall k :: 0 <= k < |steps| ==> LegacyRenderable(steps[k])
    ensures var emitted := Emitted(steps, settings, f);
      |emitted| <= |steps|
      && (|steps| > 0 && Entry(steps[0], settings, f).Some? ==> |emitted| > 0)
      && LegacySummary(steps, settings, f) ==
      (if |steps| > 0 && Entry(steps[0], settings, f).None? && |emitted| > 0 then "\n" else "") + Join(emitted, "\n")
  {
    AssembleShape(Entries(steps, settings, f));
  }

  /** Steps with neither target add nothing; the older renderer never looks at repeat groups, so they are the same case. */
  lemma SkippedStepsAddNothing(steps: seq<LegacyStep>, x: LegacyStep, settings: AthleteSportSettings, f: FloatFormat)
    requires forall k :: 0 <= k < |steps| ==> LegacyRenderable(steps[k])
    requires x.heartRate.None? && x.pace.None?
    ensures LegacySummary(steps + [x], settings, f) == LegacySummary(steps, settings, f)
  {
    var es := Entries(steps + [x], settings, f);
    assert es[|steps|] == Entry(x, settings, f) == None;
    assert es[..|steps|] == Entries(steps, settings, f);
  }

  /** A skipped first step followed by a heart-rate step: the summary starts with a newline. */
  lemma LeadingNewlineExample(skipped: LegacyStep, x: LegacyStep, settings: AthleteSportSettings, f: FloatFormat)
    requires skipped.heartRate.None? && skipped.pace.None? && x.heartRate.Some?
    ensures LegacySummary([skipped, x], settings, f) ==
      "\n" + HeartRateLine(LegacyWhen(x.distance, x.duration), x.heartRate.value, settings)
  {
    var line := HeartRateLine(LegacyWhen(x.distance, x.duration), x.heartRate.value, settings);
    var es := Entries([skipped, x], settings, f);
    assert es[0] == None && es[1] == Some(line);
    assert es == ([] + [None]) + [Some(line)];
    AssembleSnoc([], None);
    AssembleSnoc([] + [None], Some(line));
  }

  /** Nothing is shown exactly when neither distance nor duration is positive. */
  lemma LegacyWhenEmpty(distance: int, duration: int)
    ensures LegacyWhen(distance, duration) == "" <==> distance <= 0 && duration <= 0
  {
    assert distance > 0 ==> LegacyDistanceText(distance) != "";
    assert duration > 0 ==> LegacyDurationText(duration) != "";
  }

  /** With both set, the distance alone is shown exactly when it is a multiple of 100 metres. */
  lemma LegacyDistanceWins(distance: int, duration: int)
    requires distance > 0 && duration > 0
    ensures LegacyWhen(distance, duration) == LegacyDistanceText(distance) <==> distance % 100 == 0
    ensures distance % 100 != 0 ==>
      LegacyWhen(distance, duration) == LegacyDurationText(duration) + " / " + LegacyDistanceText(distance)
  {
    assert LegacyDistanceText(distance) != "";
    assert LegacyDurationText(duration) != "";
  }

  /** Kilometres and minutes are whole: the text reads back as the truncated quotient. */
  lemma LegacyReadsBack(distance: int, duration: int)
    ensures distance >= 1000 ==> var t := LegacyDistanceText(distance);
      t[|t| - 2..] == "km" && ParseInt(t[..|t| - 2]) == Some(distance / 1000)
    ensures 0 < distance < 1000 ==> var t := LegacyDistanceText(distance);
      t[|t| - 1..] == "m" && ParseInt(t[..|t| - 1]) == Some(distance)
    ensures duration >= 60 ==> var t := LegacyDurationText(duration);
      t[|t| - 1..] == "m" && ParseInt(t[..|t| - 1]) == Some(duration / 60)
    ensures 0 < duration < 60 ==> var t := LegacyDurationText(duration);
      t[|t| - 1..] == "s" && ParseInt(t[..|t| - 1]) == Some(duration)
  {
    if distance >= 1000 {
      var q := IntToString(distance / 1000);
      assert LegacyDistanceText(distance)[..|q|] == q;
      IntRoundTrip(distance / 1000);
    } else if distance > 0 {
      var q := IntToString(distance);
      assert LegacyDistanceText(distance)[..|q|] == q;
      IntRoundTrip(distance);
    }
    if duration >= 60 {
      var q := IntToString(duration / 60);
      assert LegacyDurationText(duration)[..|q|] == q;
      IntRoundTrip(duration / 60);
    } else if duration > 0 {
      var q := IntToString(duration);
      assert LegacyDurationText(duration)[..|q|] == q;
      IntRoundTrip(duration);
    }
  }

  /** 1999 m shows as "1km", and two metres read the same as two minutes. */
  lemma LegacyExamples()
    ensures LegacyWhen(1999, 0) == "1km"
    ensures LegacyWhen(2, 0) == LegacyWhen(0, 120) == "2m"
  {
    assert IntToString(1) == "1" && IntToString(2) == "2";
  }
}
