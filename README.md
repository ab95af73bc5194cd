# strava-intervals-sync, modelled in Dafny

strava-intervals-sync listens for Strava activity webhooks. For each new or
updated activity it finds the intervals.icu activity and the planned workout
that go with it. It renders the workout as a plain-text summary using the
athlete's heart-rate and pace zone tables, then appends that summary to the
Strava description.

The model covers the following:

- **The current summary renderer** (internal/intervals/text_gen.go).
  - The decoded step record is classified into a sum type (`WorkoutTypes.Step`: repeat group, heart-rate step, pace step, unrecognised step). The renderer's precedence is applied at that point.
  - Each step is rendered recursively. Repeat groups become "`<n>X:`" plus "`- `" bullets.
  - Zones are found with a "first upper bound ≥ value" scan that falls back to zone 1.
  - Zone labels and details cover single and range targets.
  - The "when" text covers metres or kilometres, durations rounded to ten seconds, and the rule that a round distance hides the duration.
  - The loops of the source (the top-level loop, the repeat-group loop and the zone scans) are methods. Each is proved equal to a specification function, and the properties are proved about those functions.
- **The older renderer** (intervals/text_gen.go). It handles top-level heart-rate and pace steps only, with integer distance and duration. A newline comes before every emitted line whose step index is not 0.
- **The webhook endpoint** (internal/strava/webhook_handler.go): the subscription handshake and the event filter.
- **The selection logic of the intervals.icu client** (internal/intervals/client.go):
  - the workout search window;
  - the paired-id-then-5 %-tolerance workout match;
  - the activity lookup and its retry predicate.
- **The retry loop** (internal/util/http.go). Its three callbacks are replaced by a script of outcomes, and its waits are returned as a list of delays.
- **The sync rule of both entry points** (cmd/main.go, main.go): request dispatch, the "already summarised" skip rule and how the new description is composed.

Some numbers and text are not interpreted:

- float32 values are exact `real`s, except the float32 product that turns a rounded duration into nanoseconds. That product is rounded to 24 significant bits (`Float32`).
- Go's `int(x)` is truncation toward zero.
- `%.2g` kilometre text and the "04:05" pace clock are function parameters (`WhenText.FloatFormat`).

Behaviour the source has and the model keeps as it is:

- **Zone fallback.** A value above every bound is zone 1, not the top zone (`Zones.FallbackBreaksMonotonicity`).
- **Under-a-minute check.** It looks at the unrounded duration, so 55 s shows as "60s" and 3 s as "0s" (`WhenText.RoundingQuirks`).
- **Duration clock.** It keeps minutes and seconds only (`WhenText.ClockDropsHours`). The nanoseconds come from a float32 product, which can fall just short of the whole second, so the clock can show one second less: 90 s shows as "01:29min" and 3600 s as "59:59min", while 70 s and 240 s are exact (`WhenText.RoundingQuirks`, `WhenText.ProductRoundsDown`, `WhenText.ProductRoundsUp`).
- **Two inputs make the source panic.** The model excludes them with preconditions:
  - a pace step in "pace_zone" units, whose branch reads the absent heart-rate target (`Render.Renderable`, `LegacyRender.LegacyRenderable`);
  - a step with a positive repetition count and no step list (`WorkoutTypes.StepsPresent`).
- **Skipped first step.** In the older renderer it leaves a leading newline (`LegacyRender.LegacySummaryShape`).

Further facts about the code that the model keeps:

- The under-60 s test reads the raw duration, before rounding (internal/intervals/text_gen.go:178).
- Zones are monotone in the value only up to the last bound of an ascending table. The zone-1 fallback breaks monotonicity above it (`Zones.ZoneMonotoneAscending`, `Zones.FallbackBreaksMonotonicity`).
- The renderer can abort: the two panics above are real code paths.
- A distance counts as round when `int(distance) % 100` is zero, so 100.5 m counts as round (`WhenText.RoundingQuirks`).

## Model

| member | source | states |
|---|---|---|
| WorkoutTypes.Classify | internal/intervals/text_gen.go:32-47 | A decoded step is a repeat group iff its count is positive and its list non-empty; otherwise a heart-rate step iff it has a heart-rate target; otherwise a pace step iff it has a pace target; else unrecognised. A group keeps the count and one child per listed step. |
| WorkoutTypes.ClassifyWellShaped | internal/intervals/types.go:49-57 | Every repeat group produced from a decoded tree, at any depth, has a positive count and at least one child. |
| Zones.FirstAtLeast | internal/intervals/text_gen.go:81-85 | The index found is the first bound at least the value: every earlier bound is below it. |
| Zones.ZoneOf | internal/intervals/text_gen.go:80-89 | The zone is at least 1, and at most the table length unless it is the fallback 1. |
| Zones.FindZone | internal/intervals/text_gen.go:80-89 | The scan returns 1 + the index of the first bound ≥ the value, with all earlier bounds below the value; it returns 1 when no bound qualifies (the empty table included); it agrees with `ZoneOf`. |
| Zones.HeartRateZone | internal/intervals/text_gen.go:80-89 | Definition: the heart-rate zone scans the integer table as floats. Its zone lies between 1 and the number of configured zones, or is the fallback 1; further properties in `Zones.ZoneBand` and `Zones.ZoneMonotoneAscending`. |
| Zones.PaceZone | internal/intervals/text_gen.go:155-164 | Definition: the pace zone scans the pace table with the percentage. Its zone lies between 1 and the number of configured zones, or is the fallback 1; further properties in `StepLines.PaceZoneIgnoresThreshold`. |
| Zones.ZoneMonotone | internal/intervals/text_gen.go:155-164 | A larger value never gets a lower zone as long as some bound is at least the larger value. |
| Zones.ZoneMonotoneAscending | internal/intervals/text_gen.go:80-89 | For an ascending table, the zone is monotone for values up to the last bound. |
| Zones.ZoneBand | internal/intervals/text_gen.go:80-89 | For an ascending table, the zone is k iff the value lies in band k (above bound k-1, at most bound k); zone 1 also takes values above the last bound. |
| Zones.FallbackBreaksMonotonicity | internal/intervals/text_gen.go:87-88 | With bounds [10, 20], 20 is zone 2 and 21 falls back to zone 1. |
| WhenText.Trunc | internal/intervals/text_gen.go:172 | `int(x)` truncates toward zero. |
| WhenText.RoundToTen | internal/intervals/text_gen.go:203-205 | roundNum gives a multiple of ten within five of the value, halves rounded away from zero. |
| WhenText.Clock | internal/intervals/text_gen.go:181-182 | The duration clock is two digits, a colon and two digits. |
| WhenText.ClockDropsHours | internal/intervals/text_gen.go:182 | Reading the clock back gives the seconds modulo one hour. |
| WhenText.WhenEmpty | internal/intervals/text_gen.go:166-189 | The when-text is empty iff neither distance nor duration is positive. |
| WhenText.DistanceWins | internal/intervals/text_gen.go:190-200 | With both set, the distance text alone is shown iff the truncated distance is a multiple of 100; otherwise "<duration> / <distance>". |
| WhenText.OnlyOneSet | internal/intervals/text_gen.go:186-189 | With only one of distance and duration set, that one's text is shown. |
| Float32.Ulp | internal/intervals/text_gen.go:181 | The spacing u ≥ 1 of float32 values around a whole number n: 2^24 spacings exceed n, and when u > 1 they are at most 2n. Below 2^24 the spacing is 1. |
| Float32.RoundToMultiple | internal/intervals/text_gen.go:181 | The result is the multiple of u nearest to n, within u/2 of it; a tie goes to the even multiple. |
| Float32.ToFloat32 | internal/intervals/text_gen.go:181 | A whole number converted to float32 is off by at most 2^-24 of itself, and is exact below 2^24. |
| WhenText.ShownSeconds | internal/intervals/text_gen.go:181-182 | Below 2^24 s, the clock shows the rounded seconds or one second less, and exactly the rounded seconds iff the float32 product of the seconds and 10^9 ns rounds up or is exact. |
| WhenText.ProductRoundsUp | internal/intervals/text_gen.go:181 | 70 s and 240 s in nanoseconds round up in float32, so their clock is exact. |
| WhenText.ProductRoundsDown | internal/intervals/text_gen.go:181 | 90 s and 3600 s in nanoseconds round down in float32, so their clock shows 89 s and 3599 s. |
| WhenText.DistanceText | internal/intervals/text_gen.go:170-176 | Definition of the distance text. Under 1000 m the text is a number plus "m", and the number reads back as the truncated metres; from 1000 m on it ends in "km"; further properties in `WhenText.WhenEmpty` and `WhenText.ExampleDistances`. |
| WhenText.DurationText | internal/intervals/text_gen.go:177-184 | Definition of the duration text. Under a minute (raw duration) it is a number plus "s" that reads back as the rounded seconds; from a minute on it is eight characters ending in "min"; further properties in `WhenText.ShortDuration` and `WhenText.LongDurationReadsBack`. |
| WhenText.When | internal/intervals/text_gen.go:166-201 | Definition of the when-text. A positive distance whose truncated metres are a multiple of 100 is shown alone, whatever the duration; further properties in `WhenText.WhenEmpty`, `WhenText.DistanceWins` and `WhenText.OnlyOneSet`. |
| WhenText.LongDurationReadsBack | internal/intervals/text_gen.go:177-183 | A duration of a minute or more shows as "MM:SSmin". Its clock reads back as the seconds shown modulo an hour. Below 2^24 s that is the rounded seconds or one less, modulo an hour. |
| WhenText.ShortDuration | internal/intervals/text_gen.go:178-179 | Under a minute the text is the rounded seconds plus "s", between 0 and 60, and exactly 60 from 55 s on. |
| WhenText.ExampleDistances | internal/intervals/text_gen.go:170-175 | 999 m shows as "999m"; 1000 m uses the kilometre text. |
| WhenText.ExampleDurations | internal/intervals/text_gen.go:177-183 | 65 s shows as "01:10min", 45 s as "50s". |
| WhenText.ExampleBoth | internal/intervals/text_gen.go:186-200 | 1000 m with 240 s shows the kilometres only; 950 m with 240 s shows "04:00min / 950m". |
| WhenText.RoundingQuirks | internal/intervals/text_gen.go:172-196 | 55 s shows as "60s", 90 s as "01:29min", 3600 s as "59:59min" and 3 s as "0s". 100.5 m with 240 s shows "100m" alone, because only the whole metres are tested for roundness. |
| StepLines.HeartRateTarget | internal/intervals/text_gen.go:56-108 | Definition of the heart-rate zone and detail. A target exists iff the unit is "hr_zone", "%hr" or "%lthr"; its zone starts with "Z"; an "hr_zone" target has an empty detail, so its line ends in "()"; further properties in `StepLines.SingleHeartRate` and `StepLines.SourceHeartRateOnly`. |
| StepLines.PaceTarget | internal/intervals/text_gen.go:118-149 | Definition of the pace zone and detail. A target exists iff the unit is "%pace"; its zone starts with "Z" and its detail ends in " min/km"; further properties in `StepLines.PaceZoneIgnoresThreshold`. |
| StepLines.HeartRateLine | internal/intervals/text_gen.go:50-77 | Definition of the heart-rate line. A non-empty line opens with the when-text and " @ "; further properties in `StepLines.HeartRateLineEmpty` and `StepLines.GenerateHeartRateLine`. |
| StepLines.PaceLine | internal/intervals/text_gen.go:112-152 | Definition of the pace line. A non-empty line opens with the when-text and " @ Pace "; further properties in `StepLines.PaceLineEmpty` and `StepLines.GeneratePaceLine`. |
| StepLines.GenerateHeartRateLine | internal/intervals/text_gen.go:50-110 | The heart-rate line builder, with its zone scans run as loops, yields exactly the specified heart-rate line. |
| StepLines.GeneratePaceLine | internal/intervals/text_gen.go:112-164 | The pace line builder, with its zone scans run as loops, yields exactly the specified pace line. |
| StepLines.ZoneLabelSingle | internal/intervals/text_gen.go:103-108 | A range label is "Z<a>" iff both ends fall in the same zone, "Z<a>-Z<b>" otherwise. |
| StepLines.HeartRateLineEmpty | internal/intervals/text_gen.go:56-77 | A heart-rate line is empty iff the unit is not "hr_zone", "%hr" or "%lthr". |
| StepLines.PaceLineEmpty | internal/intervals/text_gen.go:118-152 | A pace line is empty iff the unit is not "%pace". |
| StepLines.SourceHeartRateOnly | internal/intervals/text_gen.go:61-72 | For any settings, a "%hr" target (single or range) is the "%lthr" target computed with the threshold set to the maximum heart rate: "%hr" scales the maximum, "%lthr" the threshold. |
| StepLines.SingleHeartRate | internal/intervals/text_gen.go:91-95 | In single mode the detail is the truncated bpm (value/100 × source), it reads back as that number, and the zone classifies that bpm. |
| StepLines.PaceZoneIgnoresThreshold | internal/intervals/text_gen.go:127 | Pace zones classify the percentage: the threshold pace changes the detail, never the zone. |
| StepLines.LinesAreSingle | internal/intervals/text_gen.go:77 | With newline-free float renderings, a heart-rate or pace line holds no newline. |
| StepLines.ClockNoNewline | internal/intervals/text_gen.go:182 | The duration clock holds no newline. |
| StepLines.WhenSingleLine | internal/intervals/text_gen.go:166-201 | With newline-free float renderings, the when-text holds no newline. |
| StepLines.ThresholdExample | internal/intervals/text_gen.go:91-95 | 90 % of a 180 bpm threshold with bounds [120, 140, 160, 170, 190] gives zone "Z4" and detail "162". |
| Render.RenderStep | internal/intervals/text_gen.go:30-48 | Definition of a step's text. A repeat group's text opens with "<n>X:" and a newline; further properties in `Render.RepeatLines`, `Render.LeafSingleLine` and `Render.DispatchOrder`. |
| Render.Summary | internal/intervals/text_gen.go:11-22 | Definition of the summary. No steps give an empty summary, and one step gives its text alone; further properties in `Render.SummaryLines` and `Render.FlatSummary`. |
| Render.GenerateSummaryLineOrBlock | internal/intervals/text_gen.go:30-48 | Rendering a decoded step gives exactly the specified rendering of its classification. |
| Render.GenerateRepeatBlock | internal/intervals/text_gen.go:32-39 | The repeat loop yields "<n>X:\n" and then the children's renderings, each behind "- ", separated by newlines with none after the last. |
| Render.GenerateDescription | internal/intervals/text_gen.go:11-22 | The summary is the renderings of the top-level steps joined by newlines. |
| Render.SummaryLines | internal/intervals/text_gen.go:11-22 | The summary's lines are the lines of every top-level rendering, in order. |
| Render.LeafSingleLine | internal/intervals/text_gen.go:40-47 | A step that is not a repeat group renders as one line, possibly empty. |
| Render.FlatSummary | internal/intervals/text_gen.go:14-19 | Without repeat groups the summary has exactly one line per top-level step, empty ones included, and line k is step k's rendering. |
| Render.RepeatLines | internal/intervals/text_gen.go:33-39 | A repeat group's lines are "<n>X:" and then the lines of each bulleted child. |
| Render.RepeatOfLeaves | internal/intervals/text_gen.go:32-39 | A group of single-line children has one header line and then exactly one "- " line per child, in order. |
| Render.BulletOnFirstLineOnly | internal/intervals/text_gen.go:35 | The bullet goes before a child's first line only; later lines of a nested child get no indentation. |
| Render.NestedExample | internal/intervals/text_gen.go:32-39 | A group of n holding a one-child group of m and a step b renders as "<n>X:\n- <m>X:\n- <a>\n- <b>": the nested bullet sits at the same depth as the outer one. |
| Render.DispatchOrder | internal/intervals/text_gen.go:32-47 | On a decoded step: a group with children wins over heart rate and pace, heart rate wins over pace, and a step with none renders as "". |
| LegacyRender.Quot | intervals/text_gen.go:156 | Go's integer division truncates toward zero: a − q·b lies in [0, b) for a ≥ 0 and in (−b, 0] for a < 0. |
| LegacyRender.Rem | intervals/text_gen.go:177 | Go's remainder takes the sign of the dividend and pairs with truncating division. |
| LegacyRender.Entry | intervals/text_gen.go:14-26 | A top-level step emits a line iff it has a heart-rate or a pace target. |
| LegacyRender.Present | intervals/text_gen.go:12-27 | There are at most as many present lines as entries, and at least one when the first entry is present. |
| LegacyRender.AssembleShape | intervals/text_gen.go:12-27 | The accumulated text is the present lines joined by newlines, with a leading newline iff entry 0 is absent and a later entry is present. |
| LegacyRender.LegacyGenerateDescription | intervals/text_gen.go:9-30 | The loop yields exactly the specified legacy summary. |
| LegacyRender.LegacySummaryShape | intervals/text_gen.go:12-27 | The summary is the emitted lines joined by newlines, plus one leading newline iff the first step emits nothing and a later one does. |
| LegacyRender.SkippedStepsAddNothing | intervals/text_gen.go:24-26 | A step with neither target adds nothing to the summary. |
| LegacyRender.LeadingNewlineExample | intervals/text_gen.go:14-18 | For any skipped first step and any heart-rate second step, the summary is a newline followed by the second step's line. |
| LegacyRender.LegacyWhen | intervals/text_gen.go:148-181 | Definition of the older when-text. A positive distance that is a multiple of 100 m is shown alone, whatever the duration; further properties in `LegacyRender.LegacyWhenEmpty`, `LegacyRender.LegacyDistanceWins` and `LegacyRender.LegacyReadsBack`. |
| LegacyRender.LegacyWhenEmpty | intervals/text_gen.go:148-170 | The when-text is empty iff neither distance nor duration is positive. |
| LegacyRender.LegacyDistanceWins | intervals/text_gen.go:171-181 | With both set, the distance alone is shown iff it is a multiple of 100 m; otherwise "<duration> / <distance>". |
| LegacyRender.LegacyReadsBack | intervals/text_gen.go:152-165 | The number in the text reads back as the metres, the whole kilometres, the seconds or the whole minutes, with suffix "m", "km", "s" and "m". |
| LegacyRender.LegacyExamples | intervals/text_gen.go:152-165 | 1999 m shows as "1km"; 2 m and 120 s both show as "2m". |
| Webhook.HandleWebhookRegistrationRequest | internal/strava/webhook_handler.go:11-28 | The status is 200 iff the mode is "subscribe" and the token equals the configured one; the body then carries the challenge; otherwise the status is 403 with an empty body. |
| Webhook.ChallengeRoundTrip | internal/strava/webhook_handler.go:19 | The challenge is read back verbatim from the handshake body, whatever it contains. |
| Webhook.ChallengeNotEscaped | internal/strava/webhook_handler.go:19 | A quote in the challenge goes into the body unescaped. |
| Webhook.UnsetTokenAcceptsMissingToken | internal/strava/webhook_handler.go:15-18 | With no token configured, a subscribe request without a token is accepted. |
| Webhook.ShouldProcessWebhook | internal/strava/webhook_handler.go:30-45 | An event is processed iff it decodes, its owner id's decimal text is the configured athlete id, the aspect is "create" or "update" and the object is "activity". The id returned is then the object id, otherwise 0. Status 400 is written iff the body does not decode. |
| Webhook.AcceptedOwner | internal/strava/webhook_handler.go:38 | An accepted owner id is what the configured id parses to, and exactly the events of that owner pass the owner test. |
| Webhook.LeadingZeroNeverMatches | internal/strava/webhook_handler.go:38 | A configured id of two or more characters that starts with "0" matches no event at all, because the owner test compares decimal text, which has no leading zero. |
| Retry.FirstStop | internal/util/http.go:18-28 | The index found is the first attempt that is not flagged or whose hook fails; every attempt before it is flagged with a succeeding hook. |
| Retry.SendWithExpRetry | internal/util/http.go:14-36 | The result is the first unflagged call's outcome, or the first hook error, or "max retry exceeded". There are at most maxRetries + 1 calls and none for a negative maxRetries. The wait after flagged attempt k is 2^k seconds, the last flagged attempt included. |
| Retry.TotalDelayOfDoublings | internal/util/http.go:30-32 | After j flagged attempts the loop has waited 2^j − 1 seconds in all. |
| Matching.WorkoutWindow | internal/intervals/client.go:112-114 | The workout window starts at a UTC midnight, lasts one day, and contains the start's local clock time. |
| Matching.UtcStartInWindow | internal/intervals/client.go:112-114 | A start time in UTC lies inside its window. |
| Matching.OffsetStartOutsideWindow | internal/intervals/client.go:112-114 | 00:30 at UTC+2 falls before its window. |
| Matching.IndexOfPaired | internal/intervals/client.go:147-151 | The index found is the first workout whose id is the paired event id. |
| Matching.IndexWithinTolerance | internal/intervals/client.go:155-160 | The index found is the first workout within tolerance; every earlier workout is outside it. |
| Matching.MatchWorkout | internal/intervals/client.go:147-162 | When some workout is paired with the activity, the result is the first paired workout in the list. When none is paired, a result is the first workout within tolerance, and every earlier workout has a document and is outside tolerance. The match fails iff no workout is paired and none is within tolerance, and then with "couldn't find workout for activity". |
| Matching.FindWorkoutForActivity | internal/intervals/client.go:147-162 | The two scans with early return yield exactly the specified match. |
| Matching.WithinTolerance | internal/intervals/client.go:155-157 | Definition of the 5 % test. An activity that covers exactly a positive planned distance is within tolerance; further properties in `Matching.ZeroPlanNeverMatches` and `Matching.ToleranceExample`. |
| Matching.ZeroPlanNeverMatches | internal/intervals/client.go:156-157 | Because "<" is strict, a zero planned distance never matches on distance, and a plan with both zero never matches. |
| Matching.ToleranceExample | internal/intervals/client.go:156 | With 10 km planned, 10.4 km is within tolerance and 10.5 km is not. |
| Matching.IndexOfStravaId | internal/intervals/client.go:69-73 | The index found is the first activity whose Strava id equals the id text sought (every earlier one differs), or the list length when none does. |
| Matching.MatchActivity | internal/intervals/client.go:69-75 | The lookup succeeds iff some listed activity carries the id's decimal text. The result is the first such activity, every earlier one has a different id, and its id parses back to the id sought. Otherwise the error is "couldn't find matching activity". |
| Matching.FindMatchingActivity | internal/intervals/client.go:69-75 | The scan yields exactly the specified lookup. |
| Matching.FindActivity | internal/intervals/client.go:17-76 | There are at most 11 calls, and every call before the last is retried. Success means the last response was a 2xx body that decodes and lists the activity. Exhaustion gives "max retry exceeded". |
| Matching.ShouldRetryFindActivity | internal/intervals/client.go:32-52 | Definition of the retry predicate. Every non-2xx response is retried; further properties in `Matching.StopImpliesMatch` and `Matching.FindActivity`. |
| Matching.StopImpliesMatch | internal/intervals/client.go:32-52 | If the retry predicate stops on a body that decodes, the response is 2xx and the final scan finds the activity. |
| Sync.ComposeDescription | cmd/main.go:107-112 | An empty description becomes separator + "\n" + summary; any other becomes description + "\n" + separator + "\n" + summary. The result keeps the description as a prefix and contains the separator. |
| Sync.SyncDescription | cmd/main.go:81-84 | Nothing is written iff the description already contains "---Workout Summary---". |
| Sync.SyncIdempotent | cmd/main.go:81-84 | Syncing the written description again writes nothing, whatever summary is computed. |
| Sync.SyncKeepsDescription | cmd/main.go:111 | The written description starts with the original one and ends with the summary. |
| Sync.LegacyComposeDescription | main.go:107-109 | The new description is the old one, then the separator, then the summary. |
| Sync.LegacySyncDescription | main.go:81-84 | Nothing is written iff the description already contains the separator. |
| Sync.LegacySyncIdempotent | main.go:81-84 | Syncing the written description again writes nothing. |
| Sync.SearchWindow | cmd/main.go:86-87 | The activity search runs from one hour before the local start to one hour after. |
| Sync.LegacySearchWindow | main.go:86-87 | The activity search of the older entry point starts and ends at the start time. |
| Sync.HandleWebhookRequest | cmd/main.go:59-70 | GET is the handshake; POST starts a sync iff the filter accepts the event, with its object id; other methods do nothing. main.go:59-70 dispatches the same way. |

## Left out

- HTTP calls, JSON decoding, environment variables and logging. Decoded lists and events are inputs, and the configured verify token and athlete id are parameters.
- Transport errors of the activity search. `sendRequest` can return no response, and the retry predicate would then read the status of a nil response. Every scripted response here exists.
- Matching.FindActivity: the response body is decoded a second time (internal/intervals/client.go:63) after the retry predicate has already decoded it (internal/intervals/client.go:35). Read as written, the second decode finds the stream used up, so the lookup most likely fails even when the activity is listed; this reading is not executed. The model gives the second decode the same list. The decoder's error text is the constant `DecodeError`.
- Sync.HandleWebhookRequest: main.go calls `HandleWebhookRegistrationRequest` and `ShouldProcessWebhook` of the older strava package, whose exported versions are not part of this model (strava/webhooks.go holds only an unexported handler). The model assumes they behave like the ones in internal/strava/webhook_handler.go.
- float32 arithmetic is modelled on exact reals, except the duration product `roundNum(duration) × float32(time.Second)`, which is rounded to 24 significant bits (`Float32.ToFloat32`). Not modelled: the rounding of `value/100 × source`, of the float32 distance and duration inputs, and of the 0.05 tolerance factor (taken as exactly 1/20). roundNum's conversion back to float32 is taken as exact, which holds below 2^24 s. The int64 overflow of `time.Duration` for durations beyond about 292 years is not modelled.
- WhenText.FloatFormat: `%.2g` kilometre text and the pace clock (pace conversion, `time.Duration` and "04:05" layout) are uninterpreted function parameters. Properties about them assume only that they hold no newline (`StepLines.NewlineFree`).
- The "pace_zone" branch of both renderers and a repeat count with a nil step list: the source panics on these, and the model excludes them by precondition.
- A nil workout document or nil step list at the top level (both renderers) and a nil workout document reached by the tolerance scan: the source panics, and the model excludes them by precondition (`Matching.Matchable`).
- LegacyRender.LegacyGenerateDescription takes the list of steps, not the workout. The types file of the older package is not part of this model, so `LegacyStep` holds the integer fields its renderer implies.
- The `text` field of a step and the zone-name lists of the sport settings are not read by any modelled code. The zone-name lists are not in the model.
- The comment in internal/intervals/types.go that a step always has a distance or a duration is not enforced by the type. `WhenText.WhenEmpty` shows that such a step gets an empty when-text.
- Retry.SendWithExpRetry: the sleep is returned as a delay in seconds. The float32 nanosecond conversion of large delays is not modelled.
- The sequential I/O of syncActivities (fetching the Strava activity, the lookups, the sport settings and the update call, with their early returns), goroutines, server start and shutdown, and signal handling. Only the skip rule, the composition and the search windows are modelled.
- Sync.SearchWindow: times are seconds on the local clock, and the date-time text the request sends is not modelled.
- internal/strava/auth.go, internal/strava/webhook_init.go, internal/strava/activities.go, strava/activities.go, strava/webhooks.go, intervals/client.go and strava/persistence/persistence_util.go are network and file glue. They are not part of this model.
