/**
 * The sync rule of the two entry points (cmd/main.go and main.go): the webhook
 * request dispatch, the skip rule that makes a sync happen once, and how the
 * summary is appended to the Strava description.
 */
module Sync {
  import opened Wrappers
  import opened Text
  import opened Webhook

  /** The separator of cmd/main.go. */
  const SummarySeparator: string := "---Workout Summary---"

  /** The separator of main.go, which carries its own line breaks. */
  const LegacySummarySeparator: string := "\n--------\nWorkout Summary\n--------\n"

  /** The new description of cmd/main.go: the separator opens an empty description and follows a line break otherwise. */
  function ComposeDescription(description: string, summary: string): (d: string)
    ensures description == "" ==> d == SummarySeparator + "\n" + summary
    ensures description != "" ==> d == description + "\n" + SummarySeparator + "\n" + summary
    ensures d[..|description|] == description
    ensures Contains(d, SummarySeparator)
  {
    if description == "" then
      ContainsInfix([], SummarySeparator, "\n" + summary);
      SummarySeparator + "\n" + summary
    else
      var d := description + "\n" + SummarySeparator + "\n" + summary;
      assert d == (description + "\n") + SummarySeparator + ("\n" + summary);
      ContainsInfix(description + "\n", SummarySeparator, "\n" + summary);
      d
  }

  /** What syncActivities of cmd/main.go writes back: nothing when the description already holds a summary. */
  function SyncDescription(description: string, summary: string): (update: Option<string>)
    ensures update.None? <==> Contains(description, SummarySeparator)
    ensures update.Some? ==> update.value == ComposeDescription(description, summary)
  {
    if Contains(description, SummarySeparator) then None else Some(ComposeDescription(description, summary))
  }

  /** A second sync of the same activity changes nothing, whatever summary it computes. */
  lemma SyncIdempotent(description: string, summary: string, again: string)
    requires SyncDescription(description, summary).Some?
    ensures SyncDescription(SyncDescription(description, summary).value, again).None?
  {
  }

  /** The original description survives as a prefix, and the summary ends the result. */
  lemma SyncKeepsDescription(description: string, summary: string)
    requires SyncDescription(description, summary).Some?
    ensures var d := SyncDescription(description, summary).value;
      d[..|description|] == description && d[|d| - |summary|..] == summary
  {
    var d := SyncDescription(description, summary).value;
    if description == "" {
      assert d == (SummarySeparator + "\n") + summary;
    } else {
      assert d == (description + "\n" + SummarySeparator + "\n") + summary;
    }
  }

  /** The new description of main.go: description, separator and summary run together. */
  function LegacyComposeDescription(description: string, summary: string): (d: string)
    ensures |d| == |description| + |LegacySummarySeparator| + |summary|
    ensures d[..|description|] == description
    ensures d[|description|..|description| + |LegacySummarySeparator|] == LegacySummarySeparator
    ensures d[|description| + |LegacySummarySeparator|..] == summary
  {
    description + LegacySummarySeparator + summary
  }

  /** What syncActivities of main.go writes back. */
  function LegacySyncDescription(description: string, summary: string): (update: Option<string>)
    ensures update.None? <==> Contains(description, LegacySummarySeparator)
    ensures update.Some? ==> update.value == LegacyComposeDescription(description, summary)
  {
    if Contains(description, LegacySummarySeparator) then None
    else Some(LegacyComposeDescription(description, summary))
  }

  /** main.go's sync is idempotent too. */
  lemma LegacySyncIdempotent(description: string, summary: string, again: string)
    requires LegacySyncDescription(description, summary).Some?
    ensures LegacySyncDescription(LegacySyncDescription(description, summary).value, again).None?
  {
    ContainsInfix(description, LegacySummarySeparator, summary);
  }

  /** The intervals.icu activity search of cmd/main.go: one hour either side of the local start time, in seconds. */
  function SearchWindow(startLocal: int): (window: (int, int))
    ensures window.0 < startLocal < window.1
    ensures startLocal - window.0 == window.1 - startLocal == 3600
  {
    (startLocal - 3600, startLocal + 3600)
  }

  /** The search of main.go starts and ends at the start time itself. */
  function LegacySearchWindow(startLocal: int): (window: (int, int))
    ensures window.0 == window.1 == startLocal
  {
    (startLocal, startLocal)
  }

  /** The effect of one request on the webhook endpoint. */
  datatype WebhookAction =
    | Registration(response: Response)
    | StartSync(activityId: int)
    | Ignored(status: Option<int>)

  /**
   * handleWebhookRequest, the same in both entry points: GET is the handshake,
   * POST starts a sync when the event passes the filter, other methods do nothing.
   */
  function HandleWebhookRequest(
    httpMethod: string, query: RegistrationQuery, body: Option<WebhookEvent>,
    verifyToken: string, athleteId: string): (a: WebhookAction)
    ensures a.Registration? <==> httpMethod == "GET"
    ensures a.Registration? ==> a.response == HandleWebhookRegistrationRequest(query, verifyToken)
    ensures a.StartSync? <==> httpMethod == "POST" && ShouldProcessWebhook(body, athleteId).shouldProcess
    ensures a.StartSync? ==> a.activityId == body.value.objectId
    ensures a.Ignored? ==> a.status == (if httpMethod == "POST" && body.None? then Some(400) else None)
  {
    if httpMethod == "GET" then Registration(HandleWebhookRegistrationRequest(query, verifyToken))
    else if httpMethod == "POST" then
      var d := ShouldProcessWebhook(body, athleteId);
      if d.shouldProcess then StartSync(d.activityId) else Ignored(d.status)
    else Ignored(None)
  }
}
