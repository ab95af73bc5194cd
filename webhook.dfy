/**
 * The Strava webhook endpoint (internal/strava/webhook_handler.go): the
 * subscription handshake and the filter that decides whether an event starts a
 * sync. The configured verify token and athlete id are parameters; the query
 * string and the decoded JSON body are inputs (`None` when the body does not decode).
 */
module Webhook {
  import opened Wrappers
  import opened Decimal

  /** What the handler writes: a status and a body; writing a body without a status means 200. */
  datatype Response = Response(status: int, body: string)

  /** The query parameters of the handshake; a parameter that is absent reads as "". */
  datatype RegistrationQuery = RegistrationQuery(mode: string, verifyToken: string, challenge: string)

  /** A Strava event notification; owner and object ids are 64-bit in the source and `int` is wide enough. */
  datatype WebhookEvent = WebhookEvent(aspectType: string, objectType: string, objectId: int, ownerId: int)

  /** The (shouldProcess, activityId) pair, and the status written on the way (400 for an undecodable body). */
  datatype Decision = Decision(shouldProcess: bool, activityId: int, status: Option<int>)

  const ChallengePrefix: string := "{\"hub.challenge\":\""
  const ChallengeSuffix: string := "\"}"

  /** The handshake body: the challenge is pasted between the quotes without escaping. */
  function ChallengeBody(challenge: string): string {
    ChallengePrefix + challenge + ChallengeSuffix
  }

  /** Reads the challenge back out of a handshake body. */
  function ChallengeOf(body: string): Option<string> {
    if |body| >= |ChallengePrefix| + |ChallengeSuffix|
      && body[..|ChallengePrefix|] == ChallengePrefix
      && body[|body| - |ChallengeSuffix|..] == ChallengeSuffix
    then Some(body[|ChallengePrefix|..|body| - |ChallengeSuffix|])
    else None
  }

  /** HandleWebhookRegistrationRequest: echo the challenge only for a subscribe request carrying the configured token. */
  function HandleWebhookRegistrationRequest(query: RegistrationQuery, configuredToken: string): (r: Response)
    ensures r.status == 200 <==> query.mode == "subscribe" && query.verifyToken == configuredToken
    ensures r.status == 200 ==> ChallengeOf(r.body) == Some(query.challenge)
    ensures r.status != 200 ==> r.status == 403 && r.body == ""
  {
    if query.mode == "subscribe" && query.verifyToken == configuredToken then
      ChallengeRoundTrip(query.challenge);
      Response(200, ChallengeBody(query.challenge))
    else Response(403, "")
  }

  /** The challenge comes back verbatim, whatever characters it holds (quotes included). */
  lemma ChallengeRoundTrip(challenge: string)
    ensures ChallengeOf(ChallengeBody(challenge)) == Some(challenge)
  {
    var b := ChallengeBody(challenge);
    assert b[..|ChallengePrefix|] == ChallengePrefix;
    assert b[|b| - |ChallengeSuffix|..] == ChallengeSuffix;
    assert b[|ChallengePrefix|..|b| - |ChallengeSuffix|] == challenge;
  }

  /** Nothing is escaped: a challenge holding a quote puts that quote into the body unchanged. */
  lemma ChallengeNotEscaped()
    ensures ChallengeBody("a\"b") == "{\"hub.challenge\":\"a\"b\"}"
  {
  }

  /** With no token configured, a subscribe request without a token is accepted. */
  lemma UnsetTokenAcceptsMissingToken(challenge: string)
    ensures HandleWebhookRegistrationRequest(RegistrationQuery("subscribe", "", challenge), "").status == 200
  {
  }

  function IsActivityChange(event: WebhookEvent): bool {
    (event.aspectType == "create" || event.aspectType == "update") && event.objectType == "activity"
  }

  /** ShouldProcessWebhook: only creates and updates of activities owned by the configured athlete. */
  function ShouldProcessWebhook(decoded: Option<WebhookEvent>, athleteId: string): (d: Decision)
    ensures d.shouldProcess <==>
      decoded.Some? && IntToString(decoded.value.ownerId) == athleteId && IsActivityChange(decoded.value)
    ensures d.shouldProcess ==> d.activityId == decoded.value.objectId
    ensures !d.shouldProcess ==> d.activityId == 0
    ensures d.status == (if decoded.None? then Some(400) else None)
  {
    match decoded
    case None => Decision(false, 0, Some(400))
    case Some(event) =>
      if IntToString(event.ownerId) == athleteId && IsActivityChange(event) then Decision(true, event.objectId, None)
      else Decision(false, 0, None)
  }

  /** An accepted event belongs to exactly the athlete whose id the configuration spells in canonical decimal. */
  lemma AcceptedOwner(decoded: Option<WebhookEvent>, athleteId: string)
    requires ShouldProcessWebhook(decoded, athleteId).shouldProcess
    ensures ParseInt(athleteId) == Some(decoded.value.ownerId)
    ensures forall other: WebhookEvent :: IsActivityChange(other) ==>
      (ShouldProcessWebhook(Some(other), athleteId).shouldProcess <==> other.ownerId == decoded.value.ownerId)
  {
    IntRoundTrip(decoded.value.ownerId);
    forall other: WebhookEvent | IsActivityChange(other)
      ensures ShouldProcessWebhook(Some(other), athleteId).shouldProcess <==> other.ownerId == decoded.value.ownerId
    {
      if IntToString(other.ownerId) == athleteId {
        IntToStringInjective(other.ownerId, decoded.value.ownerId);
      }
    }
  }

  /**
   * A configured id of two or more characters starting with '0' matches no
   * owner at all: the comparison is on decimal text, which never has a leading zero.
   */
  lemma LeadingZeroNeverMatches(athleteId: string, event: WebhookEvent)
    requires |athleteId| >= 2 && athleteId[0] == '0'
    ensures !ShouldProcessWebhook(Some(event), athleteId).shouldProcess
  {
    var s := IntToString(event.ownerId);
    if event.ownerId < 0 {
      assert s[0] == '-';
    } else if event.ownerId < 10 {
      assert |s| == 1;
    } else {
      assert s[0] != '0';
    }
  }
}
