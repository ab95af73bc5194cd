/**
 * The selection logic of the intervals.icu client (internal/intervals/client.go):
 * which planned workout belongs to an activity, which listed activity is the
 * Strava one, and when the activity lookup is retried. The HTTP calls are
 * replaced by their decoded results.
 */
module Matching {
  import opened Wrappers
  import opened Decimal
  import opened WorkoutTypes
  import opened Retry

  const SecondsPerDay: int := 86400

  /**
   * The workout search window: midnight UTC of the calendar date the start
   * time shows in its own zone, to the next midnight UTC, as Unix seconds.
   */
  function WorkoutWindow(start: Instant): (window: (int, int))
    ensures window.0 % SecondsPerDay == 0 && window.1 == window.0 + SecondsPerDay
    ensures window.0 <= start.unixSeconds + start.utcOffsetSeconds < window.1
  {
    var day := (start.unixSeconds + start.utcOffsetSeconds) / SecondsPerDay;
    (day * SecondsPerDay, (day + 1) * SecondsPerDay)
  }

  /** A start time written in UTC always lies inside its window. */
  lemma UtcStartInWindow(start: Instant)
    requires start.utcOffsetSeconds == 0
    ensures WorkoutWindow(start).0 <= start.unixSeconds < WorkoutWindow(start).1
  {
  }

  /** A start time written with a positive offset can fall before its window: 00:30 at UTC+2 is 22:30 UTC the day before. */
  lemma OffsetStartOutsideWindow()
    ensures var start := Instant(SecondsPerDay - 5400, 7200);
      start.unixSeconds < WorkoutWindow(start).0
  {
    assert (SecondsPerDay - 5400 + 7200) / SecondsPerDay == 1;
  }

  function Abs(x: real): real {
    if x < 0.0 then -x else x
  }

  /**
   * Either the distance or the duration is strictly within 5 % of the planned
   * one; an activity that covers exactly a positive planned distance qualifies.
   */
  predicate WithinTolerance(doc: WorkoutDoc, activity: Activity)
    ensures doc.distance > 0.0 && activity.distance == doc.distance ==> WithinTolerance(doc, activity)
  {
    Abs(doc.distance - activity.distance) < doc.distance * 0.05 ||
    Abs(doc.duration - activity.movingTime) < doc.duration * 0.05
  }

  /** Index of the first workout paired with the activity, or `|workouts|`. */
  function IndexOfPaired(workouts: seq<Workout>, activity: Activity): (i: nat)
    ensures i <= |workouts|
    ensures forall k :: 0 <= k < i ==> workouts[k].id != activity.pairedEventId
    ensures i < |workouts| ==> workouts[i].id == activity.pairedEventId
  {
    if |workouts| == 0 then 0
    else if workouts[0].id == activity.pairedEventId then 0
    else 1 + IndexOfPaired(workouts[1..], activity)
  }

  /**
   * The tolerance scan reads the workout document of every workout up to the
   * first match (all of them when none matches); a missing one is a nil dereference.
   */
  predicate ScanSafe(workouts: seq<Workout>, activity: Activity) {
    |workouts| == 0 ||
    (workouts[0].workoutDoc.Some? &&
      (WithinTolerance(workouts[0].workoutDoc.value, activity) || ScanSafe(workouts[1..], activity)))
  }

  /** Index of the first workout within tolerance, or `|workouts|`. */
  function IndexWithinTolerance(workouts: seq<Workout>, activity: Activity): (j: nat)
    requires ScanSafe(workouts, activity)
    ensures j <= |workouts|
    ensures forall k :: 0 <= k < j ==>
      workouts[k].workoutDoc.Some? && !WithinTolerance(workouts[k].workoutDoc.value, activity)
    ensures j < |workouts| ==>
      workouts[j].workoutDoc.Some? && WithinTolerance(workouts[j].workoutDoc.value, activity)
  {
    if |workouts| == 0 then 0
    else if WithinTolerance(workouts[0].workoutDoc.value, activity) then 0
    else
      var j := 1 + IndexWithinTolerance(workouts[1..], activity);
      assert forall k :: 1 <= k < j ==> workouts[k] == workouts[1..][k - 1];
      j
  }

  const NoWorkoutError: string := "couldn't find workout for activity"

  /** What the source needs to run: either a paired workout exists, or the tolerance scan can read every document it reaches. */
  predicate Matchable(workouts: seq<Workout>, activity: Activity) {
    IndexOfPaired(workouts, activity) < |workouts| || ScanSafe(workouts, activity)
  }

  /** The workout FindWorkoutForActivity returns: paired id first, then the 5 % tolerance, else an error. */
  function MatchWorkout(workouts: seq<Workout>, activity: Activity): (r: Result<Workout, string>)
    requires Matchable(workouts, activity)
    ensures r.Success? ==> r.value in workouts
    ensures (exists k :: 0 <= k < |workouts| && workouts[k].id == activity.pairedEventId) ==>
      r.Success? && r.value.id == activity.pairedEventId
    ensures r.Failure? <==>
      (forall k :: 0 <= k < |workouts| ==>
        workouts[k].id != activity.pairedEventId &&
        workouts[k].workoutDoc.Some? && !WithinTolerance(workouts[k].workoutDoc.value, activity))
    ensures (exists k :: 0 <= k < |workouts| && workouts[k].id == activity.pairedEventId) ==>
      exists i :: 0 <= i < |workouts| && r == Success(workouts[i]) && workouts[i].id == activity.pairedEventId &&
        forall k :: 0 <= k < i ==> workouts[k].id != activity.pairedEventId
    ensures r.Success? && (forall k :: 0 <= k < |workouts| ==> workouts[k].id != activity.pairedEventId) ==>
      exists i :: 0 <= i < |workouts| && r.value == workouts[i] &&
        workouts[i].workoutDoc.Some? && WithinTolerance(workouts[i].workoutDoc.value, activity) &&
        forall k :: 0 <= k < i ==>
          workouts[k].workoutDoc.Some? && !WithinTolerance(workouts[k].workoutDoc.value, activity)
    ensures r.Failure? ==> r.error == NoWorkoutError
  {
    var i := IndexOfPaired(workouts, activity);
    if i < |workouts| then Success(workouts[i])
    else
      var j := IndexWithinTolerance(workouts, activity);
      if j < |workouts| then Success(workouts[j]) else Failure(NoWorkoutError)
  }

  /** The selection part of FindWorkoutForActivity: two scans with early return. */
  method FindWorkoutForActivity(workouts: seq<Workout>, activity: Activity) returns (r: Result<Workout, string>)
    requires Matchable(workouts, activity)
    ensures r == MatchWorkout(workouts, activity)
  {
    for i := 0 to |workouts|
      invariant forall k :: 0 <= k < i ==> workouts[k].id != activity.pairedEventId
    {
      if workouts[i].id == activity.pairedEventId {
        return Success(workouts[i]);
      }
    }
    assert IndexOfPaired(workouts, activity) == |workouts|;
    assert workouts[0..] == workouts;
    for i := 0 to |workouts|
      invariant ScanSafe(workouts[i..], activity)
      invariant forall k :: 0 <= k < i ==>
        workouts[k].workoutDoc.Some? && !WithinTolerance(workouts[k].workoutDoc.value, activity)
    {
      assert workouts[i..][0] == workouts[i];
      var doc := workouts[i].workoutDoc.value;
      if Abs(doc.distance - activity.distance) < doc.distance * 0.05 ||
         Abs(doc.duration - activity.movingTime) < doc.duration * 0.05 {
        return Success(workouts[i]);
      }
      assert workouts[i..][1..] == workouts[i + 1..];
    }
    return Failure(NoWorkoutError);
  }

  /** The tolerance is strict: a zero planned distance never matches on distance, and an empty plan never matches. */
  lemma ZeroPlanNeverMatches(doc: WorkoutDoc, activity: Activity)
    ensures doc.distance == 0.0 ==> !(Abs(doc.distance - activity.distance) < doc.distance * 0.05)
    ensures doc.distance == 0.0 && doc.duration == 0.0 ==> !WithinTolerance(doc, activity)
  {
  }

  /** 10 km planned: 10.4 km is within 5 %, 10.5 km is not (the bound is strict), on distance alone. */
  lemma ToleranceExample(activity: Activity)
    requires activity.movingTime == 0.0
    ensures activity.distance == 10400.0 ==> WithinTolerance(WorkoutDoc(NilSteps, 10000.0, 0.0), activity)
    ensures activity.distance == 10500.0 ==> !WithinTolerance(WorkoutDoc(NilSteps, 10000.0, 0.0), activity)
  {
  }

  /** A decoded response of the activity search; `activities` is `None` when the body does not decode. */
  datatype ActivitiesResponse = ActivitiesResponse(status: int, activities: Option<seq<Activity>>)

  predicate Is2xx(status: int) {
    200 <= status < 300
  }

  predicate Lists(activities: seq<Activity>, stravaActivityId: int) {
    exists k :: 0 <= k < |activities| && activities[k].stravaId == IntToString(stravaActivityId)
  }

  /**
   * FindActivity's retry predicate: retry unless a 2xx body lists the activity
   * or does not decode. Every non-2xx response is retried.
   */
  predicate ShouldRetryFindActivity(response: ActivitiesResponse, stravaActivityId: int)
    ensures !Is2xx(response.status) ==> ShouldRetryFindActivity(response, stravaActivityId)
  {
    if Is2xx(response.status) then
      match response.activities
      case None => false
      case Some(activities) => !Lists(activities, stravaActivityId)
    else true
  }

  const FindActivityMaxRetries: int := 10
  const NoActivityError: string := "couldn't find matching activity"
  /** Stands for the JSON decoder's error. */
  const DecodeError: string := "cannot decode activities"

  function IndexOfStravaId(activities: seq<Activity>, idText: string): (i: nat)
    ensures i <= |activities|
    ensures forall k :: 0 <= k < i ==> activities[k].stravaId != idText
    ensures i < |activities| ==> activities[i].stravaId == idText
  {
    if |activities| == 0 then 0
    else if activities[0].stravaId == idText then 0
    else
      var rest := activities[1..];
      var j := IndexOfStravaId(rest, idText);
      assert forall k :: 1 <= k <= j && k < |activities| ==> activities[k] == rest[k - 1];
      1 + j
  }

  /** The first listed activity whose Strava id is the decimal text of the id sought, else an error. */
  function MatchActivity(activities: seq<Activity>, stravaActivityId: int): (r: Result<Activity, string>)
    ensures r.Success? <==> Lists(activities, stravaActivityId)
    ensures r.Success? ==> r.value in activities && ParseInt(r.value.stravaId) == Some(stravaActivityId)
    ensures r.Success? ==>
      exists i :: 0 <= i < |activities| && r.value == activities[i] &&
        activities[i].stravaId == IntToString(stravaActivityId) &&
        forall k :: 0 <= k < i ==> activities[k].stravaId != IntToString(stravaActivityId)
    ensures r.Failure? ==> r.error == NoActivityError
  {
    var i := IndexOfStravaId(activities, IntToString(stravaActivityId));
    if i < |activities| then
      IntRoundTrip(stravaActivityId);
      Success(activities[i])
    else Failure(NoActivityError)
  }

  /** The final scan of FindActivity. */
  method FindMatchingActivity(activities: seq<Activity>, stravaActivityId: int) returns (r: Result<Activity, string>)
    ensures r == MatchActivity(activities, stravaActivityId)
  {
    var idText := IntToString(stravaActivityId);
    for i := 0 to |activities|
      invariant forall k :: 0 <= k < i ==> activities[k].stravaId != idText
    {
      if activities[i].stravaId == idText {
        return Success(activities[i]);
      }
    }
    return Failure(NoActivityError);
  }

  /**
   * FindActivity: the search runs under the retry loop with ten retries and a
   * hook that never fails; the response it stops on is decoded and scanned.
   * `responses[k]` is what call k returns.
   */
  method FindActivity(responses: seq<ActivitiesResponse>, stravaActivityId: int)
    returns (r: Result<Activity, string>, calls: nat)
    requires |responses| > FindActivityMaxRetries
    ensures 1 <= calls <= FindActivityMaxRetries + 1
    ensures forall k :: 0 <= k < calls - 1 ==> ShouldRetryFindActivity(responses[k], stravaActivityId)
    ensures r.Success? <==>
      !ShouldRetryFindActivity(responses[calls - 1], stravaActivityId) && responses[calls - 1].activities.Some?
    ensures r.Success? ==> r == MatchActivity(responses[calls - 1].activities.value, stravaActivityId)
    ensures ShouldRetryFindActivity(responses[calls - 1], stravaActivityId) ==>
      calls == FindActivityMaxRetries + 1 && r == Failure(MaxRetryExceeded)
  {
    var attempts := seq(|responses|, k requires 0 <= k < |responses| =>
      Attempt(responses[k], ShouldRetryFindActivity(responses[k], stravaActivityId), None));
    assert forall k :: 0 <= k < |attempts| ==>
      attempts[k].retry == ShouldRetryFindActivity(responses[k], stravaActivityId) && attempts[k].hookError.None?;
    var outcome, n, delays := SendWithExpRetry(attempts, FindActivityMaxRetries);
    calls := n;
    assert outcome.Returned? <==> !ShouldRetryFindActivity(responses[calls - 1], stravaActivityId);
    assert outcome.Returned? ==> outcome.outcome == responses[calls - 1];
    match outcome
    case Failed(e) =>
      r := Failure(e);
    case Returned(response) =>
      match response.activities
      case None =>
        r := Failure(DecodeError);
      case Some(activities) =>
        StopImpliesMatch(response, stravaActivityId);
        r := FindMatchingActivity(activities, stravaActivityId);
        assert r.Success?;
  }

  /** Stopping on a body that decodes means the activity is in it, so the final scan succeeds. */
  lemma StopImpliesMatch(response: ActivitiesResponse, stravaActivityId: int)
    requires !ShouldRetryFindActivity(response, stravaActivityId) && response.activities.Some?
    ensures Is2xx(response.status)
    ensures MatchActivity(response.activities.value, stravaActivityId).Success?
  {
  }
}
