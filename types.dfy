/**
 * The intervals.icu documents the renderer and the matcher read
 * (internal/intervals/types.go). float32 fields are exact reals here.
 */
module WorkoutTypes {
  import opened Wrappers

  /**
   * An athlete's sport settings. `thresholdPace` is in metres per second;
   * `paceZones` are upper bounds in percent of `thresholdPace` (77.5 means 77.5 %);
   * `heartRateZones` are upper bounds in beats per minute.
   */
  datatype AthleteSportSettings = AthleteSportSettings(
    maximumHeartRate: int,
    thresholdHeartRate: int,
    heartRateZones: seq<int>,
    thresholdPace: real,
    paceZones: seq<real>)

  /** The intensity of a step: a single `value`, or a `start`..`end` range when `value` is not positive. */
  datatype WorkoutStepUnit = WorkoutStepUnit(start: real, end: real, units: string, value: real)

  /**
   * A step as decoded from JSON: heart rate, pace and child steps are optional,
   * and leaf and repeat-group fields may coexist.
   */
  datatype WorkoutStep = WorkoutStep(
    distance: real,
    duration: real,
    text: string,
    heartRate: Option<WorkoutStepUnit>,
    pace: Option<WorkoutStepUnit>,
    steps: StepList,
    repetitions: int)

  /** The `*[]WorkoutStep` pointer of a step: nil, or a (possibly empty) list. */
  datatype StepList = NilSteps | StepList(items: seq<WorkoutStep>)

  datatype WorkoutDoc = WorkoutDoc(steps: StepList, distance: real, duration: real)

  datatype Workout = Workout(id: int, name: string, workoutDoc: Option<WorkoutDoc>)

  /** A point in time: seconds since the Unix epoch and the offset of the zone it was written in. */
  datatype Instant = Instant(unixSeconds: int, utcOffsetSeconds: int)

  /** An intervals.icu activity; `pairedEventId` refers to a `Workout.id`. */
  datatype Activity = Activity(
    stravaId: string,
    pairedEventId: int,
    startDate: Instant,
    distance: real,
    movingTime: real)

  /** What a decoded step is, once the renderer's precedence has been applied. */
  datatype Step =
    | RepeatGroup(repetitions: int, children: seq<Step>)
    | HeartRateStep(distance: real, duration: real, heartRate: WorkoutStepUnit)
    | PaceStep(distance: real, duration: real, pace: WorkoutStepUnit)
    | UnrecognisedStep

  /**
   * The renderer dereferences `Steps` of every step it visits whose repetition
   * count is positive; a nil `Steps` there is a nil-pointer panic.
   */
  predicate StepsPresent(w: WorkoutStep) {
    w.repetitions > 0 ==>
      w.steps.StepList? && forall c | c in w.steps.items :: StepsPresent(c)
  }

  /** A repeat group in the sum type always has a positive count and at least one child. */
  predicate WellShaped(s: Step) {
    match s
    case RepeatGroup(n, cs) =>
      n > 0 && |cs| > 0 && forall k :: 0 <= k < |cs| ==> WellShaped(cs[k])
    case _ => true
  }

  /**
   * The dispatch order of the renderer: a repeat group (positive count and
   * non-empty children) first, then a heart-rate target, then a pace target.
   */
  function Classify(w: WorkoutStep): (s: Step)
    requires StepsPresent(w)
    ensures s.RepeatGroup? <==> w.repetitions > 0 && |w.steps.items| > 0
    ensures s.HeartRateStep? <==> !s.RepeatGroup? && w.heartRate.Some?
    ensures s.PaceStep? <==> !s.RepeatGroup? && w.heartRate.None? && w.pace.Some?
    ensures s.RepeatGroup? ==> s.repetitions == w.repetitions && |s.children| == |w.steps.items|
  {
    if w.repetitions > 0 && |w.steps.items| > 0 then
      var cs := w.steps.items;
      RepeatGroup(w.repetitions, seq(|cs|, k requires 0 <= k < |cs| => assert cs[k] in cs; Classify(cs[k])))
    else if w.heartRate.Some? then HeartRateStep(w.distance, w.duration, w.heartRate.value)
    else if w.pace.Some? then PaceStep(w.distance, w.duration, w.pace.value)
    else UnrecognisedStep
  }

  function ClassifyAll(ws: seq<WorkoutStep>): (ss: seq<Step>)
    requires forall k :: 0 <= k < |ws| ==> StepsPresent(ws[k])
    ensures |ss| == |ws| && forall k :: 0 <= k < |ws| ==> ss[k] == Classify(ws[k])
  {
    seq(|ws|, k requires 0 <= k < |ws| => Classify(ws[k]))
  }

  /** Classifying a decoded tree yields only well-shaped repeat groups, however deep. */
  lemma {:induction false} ClassifyWellShaped(w: WorkoutStep)
    requires StepsPresent(w)
    ensures WellShaped(Classify(w))
    decreases w
  {
    var s := Classify(w);
    if s.RepeatGroup? {
      var cs := w.steps.items;
      forall k | 0 <= k < |cs|
        ensures WellShaped(s.children[k])
      {
        assert cs[k] in cs;
        ClassifyWellShaped(cs[k]);
      }
    }
  }
}
