/**
 * The current workout-summary renderer (internal/intervals/text_gen.go): every
 * top-level step becomes one entry of the summary, entries are separated by
 * newlines, and a repeat group is a "<n>X:" header followed by one "- " bullet
 * per child.
 */
module Render {
  import opened Decimal
  import opened Text
  import opened WorkoutTypes
  import opened WhenText
  import opened StepLines

  /** A pace step with "pace_zone" units makes the renderer dereference the absent heart-rate target. */
  predicate Renderable(s: Step) {
    match s
    case RepeatGroup(_, cs) => forall k :: 0 <= k < |cs| ==> Renderable(cs[k])
    case PaceStep(_, _, pace) => pace.units != "pace_zone"
    case _ => true
  }

  /** The text of one step; a repeat group nests its children's text without extra indentation. */
  function RenderStep(s: Step, settings: AthleteSportSettings, f: FloatFormat): (r: string)
    requires Renderable(s)
    ensures s.RepeatGroup? ==>
      var header := IntToString(s.repetitions) + "X:\n";
      |header| <= |r| && r[..|header|] == header
    decreases s
  {
    match s
    case RepeatGroup(n, cs) =>
      IntToString(n) + "X:\n" +
      Join(seq(|cs|, k requires 0 <= k < |cs| => "- " + RenderStep(cs[k], settings, f)), "\n")
    case HeartRateStep(distance, duration, hr) => HeartRateLine(When(distance, duration, f), hr, settings)
    case PaceStep(distance, duration, pace) => PaceLine(When(distance, duration, f), pace, settings, f)
    case UnrecognisedStep => ""
  }

  function Renderings(steps: seq<Step>, settings: AthleteSportSettings, f: FloatFormat): (rs: seq<string>)
    requires forall k :: 0 <= k < |steps| ==> Renderable(steps[k])
    ensures |rs| == |steps| && forall k :: 0 <= k < |steps| ==> rs[k] == RenderStep(steps[k], settings, f)
  {
    seq(|steps|, k requires 0 <= k < |steps| => RenderStep(steps[k], settings, f))
  }

  function Bulleted(rs: seq<string>): (bs: seq<string>)
    ensures |bs| == |rs| && forall k :: 0 <= k < |rs| ==> bs[k] == "- " + rs[k]
  {
    seq(|rs|, k requires 0 <= k < |rs| => "- " + rs[k])
  }

  /**
   * The summary of a list of steps: their renderings separated by newlines.
   * No steps give an empty summary, and a single step's summary is its text alone.
   */
  function Summary(steps: seq<Step>, settings: AthleteSportSettings, f: FloatFormat): (summary: string)
    requires forall k :: 0 <= k < |steps| ==> Renderable(steps[k])
    ensures |steps| == 0 ==> summary == ""
    ensures |steps| == 1 ==> summary == RenderStep(steps[0], settings, f)
  {
    Join(Renderings(steps, settings, f), "\n")
  }

  /** Every step whose repeat group the renderer descends into is renderable. */
  predicate Accepted(w: WorkoutStep) {
    StepsPresent(w) && Renderable(Classify(w))
  }

  /** generateSummaryLineOrBlock: dispatch on the decoded step, repeat group first. */
  method GenerateSummaryLineOrBlock(w: WorkoutStep, settings: AthleteSportSettings, f: FloatFormat)
    returns (result: string)
    requires Accepted(w)
    ensures result == RenderStep(Classify(w), settings, f)
    decreases w, 1
  {
    if w.repetitions > 0 && |w.steps.items| > 0 {
      result := GenerateRepeatBlock(w, settings, f);
    } else if w.heartRate.Some? {
      result := GenerateHeartRateLine(When(w.distance, w.duration, f), w.heartRate.value, settings);
    } else if w.pace.Some? {
      result := GeneratePaceLine(When(w.distance, w.duration, f), w.pace.value, settings, f);
    } else {
      result := "";
    }
  }

  /** The repeat branch of generateSummaryLineOrBlock: the header, then the bullets accumulated in a loop. */
  method GenerateRepeatBlock(w: WorkoutStep, settings: AthleteSportSettings, f: FloatFormat)
    returns (result: string)
    requires Accepted(w) && w.repetitions > 0 && |w.steps.items| > 0
    ensures result == RenderStep(Classify(w), settings, f)
    decreases w, 0
  {
    var cs := w.steps.items;
    ghost var items := Bulleted(Renderings(Classify(w).children, settings, f));
    var header := IntToString(w.repetitions) + "X:\n";
    result := header;
    var i := 0;
    while i < |cs|
      invariant 0 <= i <= |cs|
      invariant result == header + Join(items[..i], "\n") + (if 0 < i < |cs| then "\n" else "")
    {
      RepeatChild(w, i, settings, f);
      assert cs[i] in cs;
      var line := GenerateSummaryLineOrBlock(cs[i], settings, f);
      RepeatLoopStep(header, items, i, result);
      result := result + ("- " + line);
      if i != |cs| - 1 {
        result := result + "\n";
      }
      i := i + 1;
    }
    assert items[..|cs|] == items;
    RepeatText(w.repetitions, Classify(w).children, settings, f);
    assert header == IntToString(w.repetitions) + "X:" + "\n";
  }

  /** Child i of an accepted repeat step is accepted, and its bullet is its own rendering. */
  lemma RepeatChild(w: WorkoutStep, i: int, settings: AthleteSportSettings, f: FloatFormat)
    requires Accepted(w) && w.repetitions > 0 && 0 <= i < |w.steps.items|
    ensures Accepted(w.steps.items[i])
    ensures Bulleted(Renderings(Classify(w).children, settings, f))[i] ==
      "- " + RenderStep(Classify(w.steps.items[i]), settings, f)
  {
    var c := w.steps.items[i];
    assert c in w.steps.items;
    assert Classify(w).children[i] == Classify(c);
  }

  /** One round of the repeat loop: entry i, then a newline unless it is the last. */
  lemma RepeatLoopStep(header: string, items: seq<string>, i: int, result: string)
    requires 0 <= i < |items|
    requires result == header + Join(items[..i], "\n") + (if 0 < i < |items| then "\n" else "")
    ensures result + items[i] == header + Join(items[..i + 1], "\n")
    ensures i != |items| - 1 ==> result + items[i] + "\n" == header + Join(items[..i + 1], "\n") + "\n"
  {
    AccumulateStep(header, items, i);
  }

  /** One round of the accumulating loops: the separator before entry i, then entry i. */
  lemma AccumulateStep(prefix: string, items: seq<string>, i: int)
    requires 0 <= i < |items|
    ensures prefix + Join(items[..i], "\n") + (if 0 < i then "\n" else "") + items[i] ==
      prefix + Join(items[..i + 1], "\n")
  {
    JoinStep(items, i);
  }

  lemma JoinStep(items: seq<string>, i: int)
    requires 0 <= i < |items|
    ensures Join(items[..i], "\n") + (if 0 < i then "\n" else "") + items[i] == Join(items[..i + 1], "\n")
  {
    JoinSnoc(items[..i], items[i], "\n");
    assert items[..i + 1] == items[..i] + [items[i]];
  }

  /** Workout.GenerateDescription: the top-level entries, a newline before every entry but the first. */
  method GenerateDescription(w: Workout, settings: AthleteSportSettings, f: FloatFormat) returns (summary: string)
    requires w.workoutDoc.Some? && w.workoutDoc.value.steps.StepList?
    requires forall k :: 0 <= k < |w.workoutDoc.value.steps.items| ==>
      StepsPresent(w.workoutDoc.value.steps.items[k]) && Renderable(Classify(w.workoutDoc.value.steps.items[k]))
    ensures summary == Summary(ClassifyAll(w.workoutDoc.value.steps.items), settings, f)
  {
    var steps := w.workoutDoc.value.steps.items;
    ghost var rs := Renderings(ClassifyAll(steps), settings, f);
    summary := "";
    for i := 0 to |steps|
      invariant summary == Join(rs[..i], "\n")
    {
      if i > 0 {
        summary := summary + "\n";
      }
      assert Accepted(steps[i]);
      var line := GenerateSummaryLineOrBlock(steps[i], settings, f);
      JoinStep(rs, i);
      summary := summary + line;
    }
    assert rs[..|steps|] == rs;
  }

  /** The lines of the summary are the lines of every entry, in order. */
  lemma SummaryLines(steps: seq<Step>, settings: AthleteSportSettings, f: FloatFormat)
    requires |steps| >= 1
    requires forall k :: 0 <= k < |steps| ==> Renderable(steps[k])
    ensures Lines(Summary(steps, settings, f)) == AllLines(Renderings(steps, settings, f))
  {
    LinesOfJoin(Renderings(steps, settings, f));
  }

  /** A step that is not a repeat group renders as a single line (possibly empty). */
  lemma LeafSingleLine(s: Step, settings: AthleteSportSettings, f: FloatFormat)
    requires Renderable(s) && !s.RepeatGroup?
    requires NewlineFree(f)
    ensures NoNewline(RenderStep(s, settings, f))
  {
    match s
    case HeartRateStep(distance, duration, hr) =>
      WhenSingleLine(distance, duration, f);
      LinesAreSingle(When(distance, duration, f), hr, WorkoutStepUnit(0.0, 0.0, "", 0.0), settings, f);
    case PaceStep(distance, duration, pace) =>
      WhenSingleLine(distance, duration, f);
      LinesAreSingle(When(distance, duration, f), WorkoutStepUnit(0.0, 0.0, "", 0.0), pace, settings, f);
    case UnrecognisedStep =>
  }

  /**
   * Without repeat groups the summary has exactly one line per top-level step,
   * empty entries included, and line k is the rendering of step k.
   */
  lemma FlatSummary(steps: seq<Step>, settings: AthleteSportSettings, f: FloatFormat)
    requires |steps| >= 1 && NewlineFree(f)
    requires forall k :: 0 <= k < |steps| ==> Renderable(steps[k]) && !steps[k].RepeatGroup?
    ensures Lines(Summary(steps, settings, f)) == Renderings(steps, settings, f)
    ensures |Lines(Summary(steps, settings, f))| == |steps|
  {
    var rs := Renderings(steps, settings, f);
    forall k | 0 <= k < |rs|
      ensures NoNewline(rs[k])
    {
      LeafSingleLine(steps[k], settings, f);
    }
    SplitJoin(rs);
  }

  /** A repeat group is its header line, then the lines of every child with "- " before each child's first line. */
  lemma RepeatLines(n: int, cs: seq<Step>, settings: AthleteSportSettings, f: FloatFormat)
    requires |cs| >= 1
    requires Renderable(RepeatGroup(n, cs))
    ensures Lines(RenderStep(RepeatGroup(n, cs), settings, f)) ==
      [IntToString(n) + "X:"] + AllLines(Bulleted(Renderings(cs, settings, f)))
  {
    var bs := Bulleted(Renderings(cs, settings, f));
    var header := IntToString(n) + "X:";
    RepeatText(n, cs, settings, f);
    assert RenderStep(RepeatGroup(n, cs), settings, f) == header + "\n" + Join(bs, "\n");
    LinesAppend(header, Join(bs, "\n"));
    LinesOfJoin(bs);
    LinesOfLine(header);
  }

  /** The text of a repeat group, with its bullets named. */
  lemma RepeatText(n: int, cs: seq<Step>, settings: AthleteSportSettings, f: FloatFormat)
    requires Renderable(RepeatGroup(n, cs))
    ensures RenderStep(RepeatGroup(n, cs), settings, f) ==
      IntToString(n) + "X:" + "\n" + Join(Bulleted(Renderings(cs, settings, f)), "\n")
  {
    var bs := Bulleted(Renderings(cs, settings, f));
    var direct := seq(|cs|, k requires 0 <= k < |cs| => "- " + RenderStep(cs[k], settings, f));
    forall k | 0 <= k < |cs|
      ensures bs[k] == direct[k]
    {
    }
    assert bs == direct;
    assert RenderStep(RepeatGroup(n, cs), settings, f) == IntToString(n) + "X:\n" + Join(direct, "\n");
    assert IntToString(n) + "X:\n" == IntToString(n) + "X:" + "\n";
  }

  /** A repeat group of single-line children: header, then exactly one bullet line per child. */
  lemma RepeatOfLeaves(n: int, cs: seq<Step>, settings: AthleteSportSettings, f: FloatFormat)
    requires |cs| >= 1 && NewlineFree(f)
    requires forall k :: 0 <= k < |cs| ==> Renderable(cs[k]) && !cs[k].RepeatGroup?
    ensures var ls := Lines(RenderStep(RepeatGroup(n, cs), settings, f));
      |ls| == |cs| + 1 && ls[0] == IntToString(n) + "X:" &&
      forall k :: 0 <= k < |cs| ==> ls[k + 1] == "- " + RenderStep(cs[k], settings, f)
  {
    var header := IntToString(n) + "X:";
    var bs := Bulleted(Renderings(cs, settings, f));
    forall k | 0 <= k < |bs|
      ensures NoNewline(bs[k])
    {
      LeafSingleLine(cs[k], settings, f);
      assert bs[k] == "- " + RenderStep(cs[k], settings, f);
    }
    RepeatText(n, cs, settings, f);
    HeaderAndLines(header, bs);
  }

  /** The first-line rule of RepeatLines, one child at a time: only the child's first line gets the bullet. */
  lemma BulletOnFirstLineOnly(r: string)
    ensures Lines("- " + r) == ["- " + Lines(r)[0]] + Lines(r)[1..]
  {
    LinesPrefix("- ", r);
  }

  /**
   * Nested groups are not indented: "<n>X:", then "- <m>X:", then the inner
   * group's bullet at the same depth as the outer group's next bullet.
   */
  lemma NestedExample(n: int, m: int, a: Step, b: Step, settings: AthleteSportSettings, f: FloatFormat)
    requires Renderable(a) && Renderable(b)
    ensures RenderStep(RepeatGroup(n, [RepeatGroup(m, [a]), b]), settings, f) ==
      IntToString(n) + "X:\n- " + IntToString(m) + "X:\n- " + RenderStep(a, settings, f) + "\n- " + RenderStep(b, settings, f)
  {
    var inner := RepeatGroup(m, [a]);
    OneChildText(m, a, settings, f);
    TwoChildText(n, inner, b, settings, f);
    NestedBullets(IntToString(n), IntToString(m), RenderStep(a, settings, f), RenderStep(b, settings, f));
  }

  /** A group of two children: the header, a newline and the two bulleted children on their own lines. */
  lemma TwoChildText(n: int, c: Step, d: Step, settings: AthleteSportSettings, f: FloatFormat)
    requires Renderable(c) && Renderable(d)
    ensures RenderStep(RepeatGroup(n, [c, d]), settings, f) ==
      (IntToString(n) + "X:" + "\n") + (("- " + RenderStep(c, settings, f)) + "\n" + ("- " + RenderStep(d, settings, f)))
  {
    var rc, rd := RenderStep(c, settings, f), RenderStep(d, settings, f);
    RepeatText(n, [c, d], settings, f);
    var bs := Bulleted(Renderings([c, d], settings, f));
    assert |bs| == 2 && bs[0] == "- " + rc && bs[1] == "- " + rd;
    assert bs[..1] == [bs[0]];
    assert Join(bs, "\n") == Join(bs[..1], "\n") + "\n" + bs[1];
  }

  /** A group of one child: the header, a newline and the bulleted child. */
  lemma OneChildText(m: int, a: Step, settings: AthleteSportSettings, f: FloatFormat)
    requires Renderable(a)
    ensures RenderStep(RepeatGroup(m, [a]), settings, f) == IntToString(m) + "X:\n- " + RenderStep(a, settings, f)
  {
    var ra := RenderStep(a, settings, f);
    RepeatText(m, [a], settings, f);
    var bs := Bulleted(Renderings([a], settings, f));
    assert bs == ["- " + ra];
    assert Join(bs, "\n") == "- " + ra;
    OneBullet(IntToString(m), ra);
  }

  /**
   * The renderer's precedence on a decoded step: a repeat group with children
   * wins over heart-rate and pace targets, a heart-rate target over a pace target.
   */
  lemma DispatchOrder(w: WorkoutStep, settings: AthleteSportSettings, f: FloatFormat)
    requires Accepted(w)
    ensures w.repetitions > 0 && |w.steps.items| > 0 ==>
      RenderStep(Classify(w), settings, f) ==
      IntToString(w.repetitions) + "X:\n" + Join(Bulleted(Renderings(ClassifyAll(w.steps.items), settings, f)), "\n")
    ensures !(w.repetitions > 0 && |w.steps.items| > 0) && w.heartRate.Some? ==>
      RenderStep(Classify(w), settings, f) == HeartRateLine(When(w.distance, w.duration, f), w.heartRate.value, settings)
    ensures !(w.repetitions > 0 && |w.steps.items| > 0) && w.heartRate.None? && w.pace.Some? ==>
      w.pace.value.units != "pace_zone" &&
      RenderStep(Classify(w), settings, f) == PaceLine(When(w.distance, w.duration, f), w.pace.value, settings, f)
    ensures !(w.repetitions > 0 && |w.steps.items| > 0) && w.heartRate.None? && w.pace.None? ==>
      RenderStep(Classify(w), settings, f) == ""
  {
    if w.repetitions > 0 && |w.steps.items| > 0 {
      var s := Classify(w);
      var cs := w.steps.items;
      var bs := Bulleted(Renderings(ClassifyAll(cs), settings, f));
      assert s.children == ClassifyAll(cs);
      assert bs == seq(|cs|, k requires 0 <= k < |cs| => "- " + RenderStep(s.children[k], settings, f));
    }
  }
}
