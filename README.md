# pills-me decision logic in Dafny

pills-me is a supplement tracker. Users record their supplements with a daily schedule of time-of-day slots (MORNING, LUNCH, DINNER, BEFORE_SLEEP). They mark doses taken, get push reminders and low-inventory notices, sign in with passkeys, and upload lab reports whose OCR'd biomarker names are matched against a reference list. A small BLE sniffer decodes heart-rate notifications.

This project models the logic under that plumbing and proves properties of it. It has one Dafny module per source file, plus four shared modules.

| module | file | models |
|---|---|---|
| `Common` | common.dfy | the database enums, `Option`, JavaScript values and truthiness, slot hours, notification preferences |
| `Strings` | strings.dfy | JavaScript's `trim`, `split` on one character, `join`, prefix and suffix tests, ASCII case mapping, decimal printing |
| `JsText` | js_text.dfy | `String(v)` and the element texts `Array.prototype.join` uses |
| `Grouping` | grouping.dfy | group-by in insertion order (a `Map` filled in a loop, or a `reduce`) |
| `LocalClock` | clock.dfy | the next local `h:00` instant after now |
| `HeartRate` | heart_rate.dfy | `parse_hr_packet` over the session lists, and `print_stats` |
| `RateLimiter` | rate_limiter.dfy | the fixed-window store as a class over a `map`, and `getClientIP` |
| `Base64` | base64.dfy | `btoa`/`atob` per RFC 4648, and the URL alphabet of section 5 of RFC 4648 |
| `Session` | session.dfy | the signed session token, and the `Set-Cookie` value of section 4.1 of RFC 6265 |
| `AuthMe` | auth_me.dfy | the session cookie lookup and the day streak of `GET /api/auth/me` |
| `NotificationTime` | notifications_time.dfy | the fifteen-minute reminder windows and the slots touched by a range of instants |
| `Notifications` | notifications.dfy | the sorted list of next reminders, the slot labels, and the permission short-circuits |
| `ServiceWorker` | service_worker.dfy | push and click routing, and the reminder timer map of the service worker |
| `PushActions` | push_actions.dfy | the notification url and payload defaults, send accounting, and subscription status |
| `PushStatus` | push_status.dfy | the combined subscription status flags |
| `Refill` | refill.dfy | the refill cron route: secret check, low-inventory filter, per-owner notices |
| `ThresholdViz` | threshold_viz.dfy | band lookup, position in a band, and segment widths and dot position of the threshold bar |
| `BiomarkerMatching` | biomarker_matching.dfy | name normalisation, exact and synonym match, fuzzy index items and threshold, the caches |
| `SaveBiomarkers` | save_biomarkers.dfy | `POST /api/biomarkers`: candidates, matched/unmatched partition, inserts, counts, report statuses |
| `NutrientLimits` | nutrient_limits.dfy | the upper-limit table, the demographic fallback lookup, and the effective upper limit |
| `Nutrients` | nutrients.dfy | the nutrient table lookups and the unit conversions over reals |
| `SeedLimits` | seed_limits.dfy | the seed rows for the limits table and their batches of fifty |
| `Validation` | validation.dfy | both supplement input validators and `isValidDateString` |
| `SupplementUtils` | supplement_utils.dfy | active-on-date, slot buckets, adherence rows, stats, slot order |
| `AdherenceToggle` | adherence_toggle.dfy | the toggle route over its three tables, with the inventory update |
| `SupplementsList` | supplements_list.dfy | the supplement list route grouped by status |
| `EnvValidation` | env_validation.dfy | the environment validators, `validateEnvironmentVariables`, and `getEnvVar` |
| `WebAuthnConfig` | webauthn_config.dfy | the relying-party configuration and the option defaults |
| `DateFormat` | date_format.dfy | the ordinal suffix and the guarded date formatters |
| `Navigation` | navigation.dfy | the active-tab resolution and the initials |

Some code works by changing state in place. That code is imperative Dafny:
- the heart-rate session lists;
- the rate-limit store;
- the reminder timer map;
- the biomarker caches;
- the adherence tables;
- the loops that build results.

Each such method is specified by a function, and the source's promises are proved about that function. Foreign code and the clock enter as parameters:
- HMAC, JSON and UTF-8;
- `Intl` time zones and `new Date(text)`;
- `new URL`;
- Fuse.js scoring;
- the database and web-push outcomes;
- `Date.now()` and `Math.random()`.

Numbers that JavaScript keeps as floats are `real` here. Integers are unbounded, except where the source truncates.

## Model

| member | source | states |
|---|---|---|
| Common.ParseTimeOfDay | lib/supplements.ts:60-65 | a label is read as a slot exactly when it is one of the four enum labels, and then names that slot |
| Common.TimeOfDayNameRoundTrip | lib/supplements.ts:60-65 | every slot's label is read back as that slot |
| Common.SlotHour | lib/utils/notifications-time.ts:6-11 | every slot's reminder hour is an hour of the day (8, 12, 18, 22) |
| Grouping.Keys | app/api/push/refill/route.ts:115-136 | the keys of the grouping map never repeat |
| Grouping.KeysMembers | app/api/push/refill/route.ts:125-136 | a key is in the map exactly when some row has it |
| Grouping.KeysInFirstSeenOrder | app/api/supplements/list/route.ts:54-83 | keys are listed in order of first appearance: the keys of a prefix of the rows are a prefix of the keys |
| Grouping.Group | app/api/push/refill/route.ts:125-136 | a key's list holds at most one entry per row |
| Grouping.GroupHasRow | app/api/push/refill/route.ts:126-135 | every row's projection is pushed onto its key's list |
| Grouping.GroupMembers | app/api/push/refill/route.ts:126-135 | a key's list holds exactly the projections of the rows with that key |
| Grouping.GroupInRowOrder | app/api/supplements/list/route.ts:56-72 | rows keep their order within a list: a prefix of the rows gives a prefix of the list |
| Grouping.GroupNonEmptyIffKey | app/api/push/refill/route.ts:126-135 | a key's list is non-empty exactly when the key is in the map |
| Grouping.Groups | app/api/push/refill/route.ts:115-136 | the map holds exactly the keys of the rows, each with a non-empty list |
| Grouping.GroupBy | app/api/push/refill/route.ts:125-136 | the loop ends with exactly the keys in first-seen order and exactly the lists `Groups` describes |
| Grouping.GroupsPartitionRows | app/api/supplements/list/route.ts:54-73 | every row lands in exactly one list: the list sizes add up to the number of rows |
| LocalClock.DayStart | public/sw.js:273-274 | the start of the local day is at most the instant and less than a day before it, on a day boundary |
| LocalClock.NextAt | public/sw.js:269-282 | the next reminder instant is after now, at most a day later, and at the requested hour |
| LocalClock.NextAtFirst | public/sw.js:269-282 | no instant at that hour lies strictly between now and the computed one |
| LocalClock.SameHourDaysApart | public/sw.js:277-279 | two distinct instants at the same hour are at least a day apart |
| SupplementsList.StatusOf | app/api/supplements/list/route.ts:12-86 | the answer is 200 exactly when the list was produced |
| SupplementsList.Query | app/api/supplements/list/route.ts:22-38 | the query returns no more rows than the table holds |
| SupplementsList.QueryMembers | app/api/supplements/list/route.ts:36-37 | the query returns exactly the caller's rows that are not soft-deleted |
| SupplementsList.ItemOf | app/api/supplements/list/route.ts:62-70 | each entry copies the row's id, name, dates and source fields |
| SupplementsList.ByStatus | app/api/supplements/list/route.ts:75-84 | there is one group per distinct status |
| SupplementsList.GroupsDistinctAndNonEmpty | app/api/supplements/list/route.ts:54-84 | groups follow the order of first appearance of their statuses, no status has two groups, and no group is empty |
| SupplementsList.GroupForEveryStatus | app/api/supplements/list/route.ts:54-84 | there is a group for a status exactly when some row has it |
| SupplementsList.GroupHoldsItsRows | app/api/supplements/list/route.ts:56-72 | a group holds exactly the entries of the rows with its status |
| SupplementsList.GroupKeepsRowOrder | app/api/supplements/list/route.ts:38-70 | within a group, the entries keep the query's newest-first order |
| SupplementsList.EveryRowOnce | app/api/supplements/list/route.ts:54-84 | the group sizes add up to the number of rows: each row appears once |
| SupplementsList.ListSupplements | app/api/supplements/list/route.ts:8-97 | no session gives 401, a failed query gives 500 with the database's message, otherwise the answer is the grouping of the visible rows |
| HeartRate.LittleEndian | tests/whoop_ble_sniffer/sniff_whoop.py:28 | a slice of at most two bytes reads as a value below 65536, and one byte reads as itself |
| HeartRate.RrFrom | tests/whoop_ble_sniffer/sniff_whoop.py:37-41 | the loop reads one interval per remaining byte pair, each below 65536 |
| HeartRate.DecodeEncode | tests/whoop_ble_sniffer/sniff_whoop.py:22-41 | decoding a well-formed notification (8- or 16-bit heart rate, RR words) gives back its heart rate and intervals |
| HeartRate.DecodeBounds | tests/whoop_ble_sniffer/sniff_whoop.py:27-41 | a decoded heart rate is below 65536, every RR interval is below 64 s, and a packet with the RR flag yields one interval per byte pair after the heart-rate field |
| HeartRate.DecodeFails | tests/whoop_ble_sniffer/sniff_whoop.py:23-31 | a payload fails exactly when it is empty or an 8-bit packet of one byte |
| HeartRate.Min | tests/whoop_ble_sniffer/sniff_whoop.py:47 | `min` is a member of the list and below every element |
| HeartRate.Max | tests/whoop_ble_sniffer/sniff_whoop.py:48 | `max` is a member of the list and above every element |
| HeartRate.HeartRateStats | tests/whoop_ble_sniffer/sniff_whoop.py:45-49 | the heart-rate summary exists exactly when a heart rate was recorded |
| HeartRate.HeartRateStatsOrdered | tests/whoop_ble_sniffer/sniff_whoop.py:45-49 | min and max are recorded values bounding all others, and the mean lies between them |
| HeartRate.RmssdSquared | tests/whoop_ble_sniffer/sniff_whoop.py:51-57 | the HRV figure exists exactly when more than one RR interval was recorded, and is never negative |
| HeartRate.RmssdZeroIffSteady | tests/whoop_ble_sniffer/sniff_whoop.py:51-55 | RMSSD is zero exactly when every recorded interval is the same |
| HeartRate.HeartRateSession.constructor | tests/whoop_ble_sniffer/sniff_whoop.py:19-20 | a session starts with empty heart-rate and RR lists |
| HeartRate.HeartRateSession.ParseHrPacket | tests/whoop_ble_sniffer/sniff_whoop.py:22-42 | the loop appends exactly the decoded packet's heart rate and RR intervals to the session lists; a payload Python fails on changes nothing |
| HeartRate.HeartRateSession.Stats | tests/whoop_ble_sniffer/sniff_whoop.py:44-57 | the report has heart-rate stats exactly when the heart-rate list is non-empty, and an HRV figure exactly when there are at least two intervals |
| RateLimiter.ConfigFor | lib/rate-limiter.ts:23-32 | both limit types allow at least one request per fifteen-minute window |
| RateLimiter.KeyTypeOfKey | lib/rate-limiter.ts:90 | the key `<limitType>:<ip>` is recognised as a key of that limit type by its prefix |
| RateLimiter.GetClientIp | lib/rate-limiter.ts:55-76 | the first `x-forwarded-for` hop trimmed when that header is set, else `x-real-ip`, else `cf-connecting-ip`, else "unknown" |
| RateLimiter.ForwardedForFirstHop | lib/rate-limiter.ts:57-61 | behind a chain of proxies the client is the first address of `x-forwarded-for` |
| RateLimiter.CeilSeconds | lib/rate-limiter.ts:118 | the retry delay is the least number of whole seconds covering the remaining milliseconds |
| RateLimiter.Decide | lib/rate-limiter.ts:99-134 | no entry or an ended window: success with `max - 1` left and a fresh window of count 1; an entry at the limit: refusal with nothing left, the entry kept, and `retryAfter` the seconds until the window ends; otherwise the count goes up by one and the remainder is `max - count` |
| RateLimiter.DecideKeepsBound | lib/rate-limiter.ts:99-134 | an entry's count stays between 1 and the limit, and a success never reports a negative remainder |
| RateLimiter.SuccessesWithinWindow | lib/rate-limiter.ts:116-134 | within one window an entry allows at most `max - count` more successes |
| RateLimiter.AtMostMaxPerWindow | lib/rate-limiter.ts:99-134 | a client gets at most `maxRequests` successes among the calls of one window |
| RateLimiter.Unexpired | lib/rate-limiter.ts:44-48 | an entry survives the sweep exactly when `now` is not past its reset time, unchanged |
| RateLimiter.StoreKeepsWellKept | lib/rate-limiter.ts:107-128 | storing an entry within its key's limit keeps every entry within its limit |
| RateLimiter.RateLimitStore.constructor | lib/rate-limiter.ts:36 | the store starts empty |
| RateLimiter.RateLimitStore.CleanupExpiredEntries | lib/rate-limiter.ts:42-49 | the loop deletes exactly the entries whose window ended before `now` and keeps the rest unchanged |
| RateLimiter.RateLimitStore.CheckRateLimit | lib/rate-limiter.ts:84-135 | after the optional sweep, the answer and the client's new entry are what `Decide` gives for the client's key; no other entry changes |
| RateLimiter.RateLimitStore.CountRequest | lib/rate-limiter.ts:98-134 | the answer and the stored entry are what `Decide` gives for the entry under the key; no other entry changes |
| RateLimiter.RateLimitStore.GetRateLimitStatus | lib/rate-limiter.ts:141-170 | an untracked client has count 0 and the whole limit left; a tracked one reports its entry; `remaining` is `max(0, limit - count)`; the store is only read |
| RateLimiter.RateLimitStore.StatusBelowLimit | lib/rate-limiter.ts:164-169 | a tracked client has used at least one request of its limit |
| RateLimiter.RateLimitStore.ResetRateLimit | lib/rate-limiter.ts:175-182 | exactly the client's entry under that limit type is removed |
| RateLimiter.RateLimitStore.GetRateLimiterStats | lib/rate-limiter.ts:187-208 | the totals are the store's size and the numbers of keys starting with `auth:` and `general:` |
| RateLimiter.RateLimitStore.StatsPartition | lib/rate-limiter.ts:195-206 | every entry is an auth or a general one, so the two counts add up to the total |
| Base64.StdValueOfChar | lib/session.ts:33-43 | every base64 digit reads back as the value it was written for |
| Base64.Btoa | lib/session.ts:33 | `btoa` output is padded to a multiple of four characters |
| Base64.Atob | lib/session.ts:43 | what `atob` returns is a binary string (every character below 256) |
| Base64.AtobBtoa | lib/session.ts:33-43 | `atob` undoes `btoa` on every binary string |
| Base64.RegroupSextets | lib/session.ts:33-43 | regrouping the six-bit values of a byte string gives the bytes back |
| Base64.Latin1BytesOf | lib/session.ts:27-45 | the binary string built one byte per character gives the bytes back |
| Base64.ToUrl | lib/session.ts:35 | the URL alphabet swaps `+` and `/` character by character and keeps the length |
| Base64.FromUrl | lib/session.ts:40 | the reverse swap, character by character, keeping the length |
| Base64.StripTrailingEquals | lib/session.ts:35 | the result is a prefix of the input with no `=` at its end |
| Base64.EncodeUrl | lib/session.ts:25-36 | the encoding is the standard digits in the URL alphabet, using only URL-safe characters (no `+`, `/` or `=`) |
| Base64.EncodeUrlDigits | lib/session.ts:31-35 | stripping the padding after the swap leaves exactly the unpadded digits, swapped |
| Base64.RepadDigits | lib/session.ts:40-41 | `"===".slice((len + 3) % 4)` restores exactly the padding `btoa` wrote |
| Base64.DecodeEncodeUrl | lib/session.ts:25-49 | decoding an encoded byte string gives the bytes back |
| Base64.NoDotInEncodeUrl | lib/session.ts:35-85 | an encoded part never contains the `.` that separates a token's parts |
| Base64.Base64urlEncode | lib/session.ts:25-36 | the byte loop and `btoa` produce exactly the URL encoding of the bytes |
| Base64.Base64urlDecode | lib/session.ts:38-49 | the restore, `atob` and the byte loop produce exactly the decoding of the input, or nothing where `atob` throws |
| Session.GetSecret | lib/session.ts:13-19 | the secret is returned exactly when it is set and non-empty; otherwise the call throws with its message |
| Session.Signature | lib/session.ts:66-71 | a signature (base64url of the HMAC) never contains a `.` |
| Session.NowSeconds | lib/session.ts:77-102 | the current second is the floor of the millisecond clock over 1000 |
| Session.IssuedPayload | lib/session.ts:77-82 | the payload names the user, and `exp` is `iat` plus the maximum age |
| Session.PayloadPart | lib/session.ts:83 | the payload part of a token never contains a `.` |
| Session.CreateSessionToken | lib/session.ts:73-86 | issuing throws exactly when the secret is not set; otherwise the token splits at `.` into exactly the payload part and its signature |
| Session.ReadPayload | lib/session.ts:96-105 | a payload is accepted exactly when it decodes to an object whose `uid` is a string and whose `exp` is a number after the current second, and it is then that uid, exp and object |
| Session.VerifySessionToken | lib/session.ts:88-108 | verification throws exactly when the token has two parts and the secret is not set, with the secret's message; a token without exactly two parts or with a wrong signature is null; a signed one reads as its payload part does |
| Session.AcceptedTokenIsSigned | lib/session.ts:91-104 | an accepted token has exactly two parts, the second the signature of the first under the set secret, and an unexpired `exp` |
| Session.IssuedTokenIsSigned | lib/session.ts:83-95 | an issued token passes the split and the signature check, so it verifies as what its payload part reads as |
| Session.ReadPayloadPart | lib/session.ts:83-104 | the payload part of a payload reads back as that payload while it is unexpired, and as nothing after |
| Session.IssuedTokenVerifies | lib/session.ts:73-108 | before it expires, an issued token verifies as the user and `exp` it was issued with |
| Session.IssuedTokenExpires | lib/session.ts:81-103 | once its `exp` is reached, an issued token verifies as null |
| Session.AnyHttps | lib/session.ts:117-120 | true exactly when some trimmed origin starts with `https://` |
| Session.ShouldSecure | lib/session.ts:114-120 | production always secures; without an origin list only production does; a single origin secures exactly when, trimmed, it starts with `https://` |
| Session.SessionCookie | lib/session.ts:110-132 | the cookie is exactly `pm_session=<token>; Path=/; HttpOnly; SameSite=Lax; Max-Age=<n>`, followed by `; Secure` exactly when it should be secure; so its first `;`-piece is the cookie itself |
| Session.CookieHead | lib/session.ts:121-131 | a join of the parts with `"; "` starts with the first part and its separator |
| Session.CookieEnd | lib/session.ts:126-131 | the joined parts end with `; Secure` exactly when `Secure` was pushed, and with the `Max-Age` part otherwise |
| Session.CookieText | lib/session.ts:121-131 | the five or six cookie parts joined with `"; "` are the cookie text written out |
| AuthMe.Cookies | app/api/auth/me/route.ts:7-9 | the cookies are the header's `;`-pieces, trimmed, one per piece |
| AuthMe.FindSessionCookie | app/api/auth/me/route.ts:10 | the search finds the first cookie that starts with `pm_session=`, or reports there is none |
| AuthMe.SessionToken | app/api/auth/me/route.ts:7-14 | there is a token exactly when some cookie starts with `pm_session=`, and it is the second `=`-piece of the first such cookie |
| AuthMe.SessionCookieOfToken | app/api/auth/me/route.ts:9-14 | `pm_session=<t>` survives the trim and its value is `t` |
| AuthMe.TokenOfSingleCookie | app/api/auth/me/route.ts:7-14 | a header holding only `pm_session=<t>` yields `t` |
| AuthMe.TokenAfterOtherCookie | app/api/auth/me/route.ts:7-14 | another cookie before the session cookie does not hide it |
| AuthMe.SecondCookieRead | app/api/auth/me/route.ts:7-14 | a session cookie after a cookie of another name is the one read |
| AuthMe.SessionTokenAt | app/api/auth/me/route.ts:10-14 | the token is the value of the cookie the search finds |
| AuthMe.StatusOf | app/api/auth/me/route.ts:12-17 | the early answers are 401 for a missing or invalid session and 400 for a thrown error |
| AuthMe.Authenticate | app/api/auth/me/route.ts:7-18 | 401 "Not authenticated" exactly when there is no session cookie; with a cookie, a thrown verification is the 400 answer with its message, a token that verifies to nothing or to an empty uid is 401 "Invalid session", and one that verifies to a non-empty uid authenticates that uid |
| AuthMe.UniqueDays | app/api/auth/me/route.ts:51-55 | the set loop collects exactly the records' UTC days, each once |
| AuthMe.InsertDescending | app/api/auth/me/route.ts:58-60 | inserting a day keeps the list newest first and adds exactly that day |
| AuthMe.SortDescending | app/api/auth/me/route.ts:58-60 | the sort puts the days newest first and is a permutation of them |
| AuthMe.SortedDistinctIsStrict | app/api/auth/me/route.ts:51-60 | sorting distinct days keeps them distinct and the same set, so newer days come strictly first |
| AuthMe.CurrentStreak | app/api/auth/me/route.ts:63-82 | the loop counts at least one day; every counted day is exactly one day after the next; the count stops at the first gap |
| AuthMe.RunCountsBack | app/api/auth/me/route.ts:67-82 | the counted run goes back one day at a time from the newest day |
| AuthMe.RunStopsAtGap | app/api/auth/me/route.ts:75-81 | the day before the run is not among the days |
| AuthMe.StreakOfSortedDays | app/api/auth/me/route.ts:49-82 | the first sorted day is the newest record, every day of the run back from it is on record, and the day before the run is not |
| AuthMe.DayStreak | app/api/auth/me/route.ts:47-104 | without records the streak is 0; with records it is 0 unless the newest day is `today` or the day before, and then it is the number of consecutive recorded days ending at the newest one; `today` is the server's local day at or east of UTC, and that day plus one west of UTC |
| AuthMe.StreakAnswer | app/api/auth/me/route.ts:84-102 | the answer from the newest day and its run means what `DayStreak` promises |
| Notifications.ReminderFor | lib/utils/notifications.ts:164-182 | a schedule yields a reminder exactly when its slot is one of the four known ones; the reminder carries the supplement's id and name and the slot, and fires after now and at most one day later |
| Notifications.ScheduleEntriesFacts | lib/utils/notifications.ts:164-183 | one reminder per known slot of a supplement's schedules, each firing at the next occurrence of its slot and carrying that supplement and slot |
| Notifications.CandidatesFacts | lib/utils/notifications.ts:159-184 | there is exactly one reminder per known schedule of each ACTIVE, non-deleted supplement; each comes from such a supplement and fires at the next occurrence of its slot |
| Notifications.ConsSorted | lib/utils/notifications.ts:187 | a reminder firing no later than the first one can go in front and keep the order |
| Notifications.InsertByTime | lib/utils/notifications.ts:187 | inserting into a sorted list gives a sorted list with the same reminders plus the inserted one |
| Notifications.SortByTime | lib/utils/notifications.ts:187 | the sort orders the reminders by fire time and is a permutation of its input |
| Notifications.AtTimeAppend | lib/utils/notifications.ts:187 | the reminders of one instant in a concatenation are those of each part, in order |
| Notifications.AtTimeLater | lib/utils/notifications.ts:187 | a list whose reminders all fire later than an instant has none at that instant |
| Notifications.AtTimeSingle | lib/utils/notifications.ts:187 | a single reminder belongs to the instant it fires at and to no other |
| Notifications.InsertInFrontStable | lib/utils/notifications.ts:187 | inserting in front of later reminders adds the reminder to its own instant only |
| Notifications.InsertByTimeStable | lib/utils/notifications.ts:187 | inserting keeps the reminders of every instant in their order, the inserted one after those already there |
| Notifications.InsertBehindStable | lib/utils/notifications.ts:187 | inserting behind the first reminder keeps every instant's order (the induction step) |
| Notifications.InsertBehindHead | lib/utils/notifications.ts:187 | a reminder firing no earlier than the first one is inserted behind it |
| Notifications.KeepHeadStable | lib/utils/notifications.ts:187 | a reminder kept in front contributes the same to both sides |
| Notifications.SortByTimeStable | lib/utils/notifications.ts:187 | the sort is stable: reminders firing at the same instant keep their push order |
| Notifications.GetNextNotificationTimes | lib/utils/notifications.ts:128-190 | no reminders unless both switches are on; otherwise the candidates sorted by fire time, a permutation of them |
| Notifications.FormatTimeOfDay | lib/utils/notifications.ts:195-204 | a slot name gets its label and any other text is returned unchanged |
| Notifications.ClockReading | lib/utils/notifications.ts:196-201 | each slot hour (8, 12, 18, 22) reads, respectively, "8:00 AM", "12:00 PM", "6:00 PM" and "10:00 PM" |
| Notifications.SlotLabelShowsHour | lib/utils/notifications.ts:196-201 | each label is the slot's display name followed by the twelve-hour reading of the hour its reminder fires, in parentheses |
| Notifications.ComposedOf | lib/utils/notifications.ts:196-201 | the composed label is the display name, then the clock reading in parentheses |
| Notifications.RequestNotificationPermission | lib/utils/notifications.ts:93-111 | "denied" where notifications are unsupported, an existing decision returned as is, and otherwise the prompt's answer |
| Notifications.PermissionDecisionSticks | lib/utils/notifications.ts:99-105 | once a decision is made, asking again returns it whatever the prompt would answer |
| Notifications.SupportedMeansGranted | lib/utils/notifications.ts:99-122 | where notifications count as supported, the request grants without prompting |
| Notifications.IsNotificationSupported | lib/utils/notifications.ts:116-122 | supported exactly when a service worker exists and asking for permission grants it whatever the prompt would answer |
| NotificationTime.WindowsDisjoint | lib/utils/notifications-time.ts:6-17 | the windows of distinct slots never overlap |
| NotificationTime.FirstSlotIn | lib/utils/notifications-time.ts:72-82 | the scan returns a listed slot whose window holds the time, or nothing when no listed window holds it |
| NotificationTime.MapLocalTimeToTimeOfDay | lib/utils/notifications-time.ts:65-83 | a returned slot's window holds the local time |
| NotificationTime.MapLocalTimeExact | lib/utils/notifications-time.ts:65-83 | a slot is returned exactly when the time lies in its fifteen-minute window; outside all four windows the result is `null` |
| NotificationTime.Pad2 | lib/utils/notifications-time.ts:94-96 | the padded text has at least two digits and reads as the number; below 100 it has exactly two |
| NotificationTime.LeadingZero | lib/utils/notifications-time.ts:94-96 | a leading zero does not change the value read |
| NotificationTime.NatToStringShort | lib/utils/notifications-time.ts:94-96 | a number below 100 has at most two digits |
| NotificationTime.LocalTime | lib/utils/notifications-time.ts:94-96 | for hour and minute below 100 the label is `HH:MM`: five characters, a colon in the middle, digits reading back as the hour and the minute |
| NotificationTime.IsWithinNotificationWindow | lib/utils/notifications-time.ts:88-99 | the slot is the one the local time maps to, and the label has five characters |
| NotificationTime.FormatTimeOfDayLabel | lib/utils/notifications-time.ts:170-179 | every slot has a non-empty label |
| NotificationTime.LabelsDistinct | lib/utils/notifications-time.ts:170-179 | distinct slots get distinct labels |
| NotificationTime.Record | lib/utils/notifications-time.ts:201-203 | a check is appended only when it found a slot not yet listed, so slots stay distinct |
| NotificationTime.ScanFromSound | lib/utils/notifications-time.ts:195-207 | the scan keeps slots distinct and lists only windows seen at some instant of the range |
| NotificationTime.SightedUpToEnd | lib/utils/notifications-time.ts:193-206 | once the scan has passed the end, the first sightings it recorded are at scanned minutes up to the end |
| NotificationTime.FirstSeenUnique | lib/utils/notifications-time.ts:199-203 | a slot is first met at one minute only |
| NotificationTime.RecordCovers | lib/utils/notifications-time.ts:199-203 | recording a minute lists its slot, so every slot met up to and including that minute is listed |
| NotificationTime.RecordedIsFirst | lib/utils/notifications-time.ts:199-203 | a window recorded at a minute is the first sighting of its slot, with that minute's label |
| NotificationTime.RecordSighted | lib/utils/notifications-time.ts:199-203 | recording a minute keeps every entry the first sighting of its slot and the entries in sighting order |
| NotificationTime.ScanFromComplete | lib/utils/notifications-time.ts:195-207 | continuing the scan from minute n keeps every slot met so far listed and adds every slot met later, each entry remains its slot's first sighting at a scanned minute, and the sighting order is kept |
| NotificationTime.ScanResult | lib/utils/notifications-time.ts:185-210 | the scan of a range lists distinct slots, at most four, each seen in the range; every slot met at a checked minute is listed (completeness); each entry is its slot's first sighting within the range, with that minute's label; and the entries are in the order their slots were first met |
| NotificationTime.CountsAddUp | lib/utils/notifications-time.ts:189-209 | the per-slot counts add up to the length of the list |
| NotificationTime.AbsentCountZero | lib/utils/notifications-time.ts:189-209 | a slot not in the list counts zero |
| NotificationTime.DistinctCountAtMostOne | lib/utils/notifications-time.ts:201 | with distinct slots, each slot counts at most once |
| NotificationTime.DistinctSlotsAtMostFour | lib/utils/notifications-time.ts:201-203 | a list with distinct slots has at most four entries |
| NotificationTime.GetTimeOfDayWindowsInRange | lib/utils/notifications-time.ts:185-210 | the result is the minute-by-minute scan whose check at each minute is the window check of the local clock; an empty range gives nothing; each slot is listed at most once, at most four of them, each seen in the range with its label |
| NotificationTime.ScanWindows | lib/utils/notifications-time.ts:189-209 | the loop computes the scan of `ScanFrom` for any per-minute check; an empty range gives nothing; slots are distinct, at most four, each seen in the range |
| ServiceWorker.OrDefault | public/sw.js:32-48 | `s \|\| fallback` is `s` when it is a non-empty string, and the fallback otherwise |
| ServiceWorker.IdText | public/sw.js:18-20 | an id is used exactly when it is truthy; a non-empty string is used as it is and a non-zero number as its decimal text |
| ServiceWorker.PushRedirect | public/sw.js:12-29 | the explicit url when set; for a refill tag, the detail page of a truthy `data.supplementId`, or else of a truthy top-level `supplementId`, each written with JavaScript's string conversion, or else the to-do list; everything else goes to the to-do list |
| ServiceWorker.HandlePush | public/sw.js:4-83 | a push without a payload, or with one that does not parse, shows the default notification leading to the to-do list; a parsed one shows its own fields or the defaults, and its data carries the redirect unless `data.data` sets a url, plus every field of `data.data` |
| ServiceWorker.ClickUrl | public/sw.js:92-109 | the notification's own url when truthy; otherwise a refill tag with a truthy supplement id, of any type, leads to that supplement, and everything else to the to-do list |
| ServiceWorker.HandleClick | public/sw.js:85-125 | the "dismiss" action only closes the notification; any other click opens the click url |
| ServiceWorker.PushRedirectNonEmpty | public/sw.js:12-29 | the redirect of a push is never empty, so a shown notification always carries a truthy url |
| ServiceWorker.ClickFollowsPushRedirect | public/sw.js:12-46 | clicking a notification shown for a push opens the page the push redirect chose, unless `data.data` overrode the url |
| ServiceWorker.FallbackClickOpensTodos | public/sw.js:54-109 | clicking the fallback notification opens the to-do list |
| ServiceWorker.FirstAppWindow | public/sw.js:135-143 | the window found is the first whose url contains the app's origin, and none is found when no window's url contains it |
| ServiceWorker.ChooseWindow | public/sw.js:127-153 | the first window of the app is focused and navigated when there is one; otherwise a new window is opened exactly when the browser can open one |
| ServiceWorker.SlotText | public/sw.js:311-318 | a slot name shows its label, and unknown text is shown as it is |
| ServiceWorker.SupplementNotification | public/sw.js:310-349 | the reminder is titled with the supplement's name, tagged with its id and slot, requires interaction, offers "mark-taken" and "view", and leads to the to-do list with the supplement's id |
| ServiceWorker.ReminderClickOpensTodos | public/sw.js:310-349 | clicking a supplement reminder opens the to-do list |
| ServiceWorker.TimerKeyNamesSlot | public/sw.js:257-305 | a timer key determines its slot, because the four slot names end in four different letters |
| ServiceWorker.AddSlotTimersFacts | public/sw.js:234-264 | adding a supplement's slot timers keeps every earlier key, sets one per known slot at the slot's next occurrence, and adds no other key |
| ServiceWorker.OwesSnoc | public/sw.js:229-233 | what the last supplement of a list owes, on top of what the others owe |
| ServiceWorker.PlannedTimersFacts | public/sw.js:229-265 | the planned timers are exactly one per key of an ACTIVE, non-deleted supplement's known slot, and each fires at the next occurrence of its slot after now |
| ServiceWorker.ReminderScheduler.constructor | public/sw.js:183 | the map starts empty |
| ServiceWorker.ReminderScheduler.ClearAllScheduledNotifications | public/sw.js:352-360 | every timer is cancelled |
| ServiceWorker.ReminderScheduler.ScheduleSupplementNotifications | public/sw.js:200-266 | every timer is dropped; when both reminder switches are on, the map then holds exactly the planned timers |
| ServiceWorker.ReminderScheduler.ScheduleSupplementNotification | public/sw.js:285-307 | an instant not after now changes nothing; a later one sets that key's timer and nothing else |
| ServiceWorker.ReminderScheduler.FireReminder | public/sw.js:242-303 | a firing timer shows the reminder and sets the same key one day later; when that moment is already past, the map is left as it was |
| ServiceWorker.ReminderScheduler.HandleMessage | public/sw.js:186-197 | a scheduling message reschedules everything, a clearing message empties the map, and any other message changes nothing |
| ServiceWorker.DailyRepeatKeepsHour | public/sw.js:246-301 | a reminder repeated one day later falls on the same hour of the day |
| PushActions.DefaultUrl | app/actions/push-notifications.ts:210-222 | a refill tag leads to the supplement in a truthy `data.supplementId` (of any type, written as JavaScript would), or to the to-do list without one; an app-update tag leads to the to-do list; any other payload with a truthy supplement id and no url leads to that supplement; everything else leads to the to-do list |
| PushActions.Or | app/actions/push-notifications.ts:228-235 | `x \|\| fallback` on a string is `x` when it is non-empty, and the fallback otherwise |
| PushActions.Outgoing | app/actions/push-notifications.ts:224-236 | the sent payload fills in the icons, url, tag, data and actions defaults, keeps the flags, and always carries a non-empty url |
| PushActions.WorkerFollowsServerUrl | app/actions/push-notifications.ts:224-236 | every payload the server sends carries a url, and the service worker leads the notification exactly there |
| PushActions.SentCount | app/actions/push-notifications.ts:280-281 | no more successes than subscriptions, and as many exactly when every send succeeded |
| PushActions.Removed | app/actions/push-notifications.ts:260-272 | the deleted endpoints are exactly those of subscriptions whose send came back 410 |
| PushActions.SendNotification | app/actions/push-notifications.ts:187-296 | a failed subscription query is an error and nothing is deleted; no subscriptions is a success with nothing sent; otherwise the successes are counted and the 410 endpoints deleted |
| PushActions.SentAndRemovedBounded | app/actions/push-notifications.ts:239-281 | sent and deleted subscriptions never add up to more than there are |
| PushActions.GetSubscriptionStatus | app/actions/push-notifications.ts:341-378 | not subscribed with count 0 without a session, a verified user or a successful count; otherwise the count, 0 when none is given; subscribed exactly when the count is positive |
| PushStatus.BrowserPermission | lib/hooks/push-subscription.ts:36-40 | the permission is "default" without the Notification API, and the browser's own otherwise |
| PushStatus.HasBrowserSubscription | lib/hooks/push-subscription.ts:37-56 | a browser subscription is seen exactly when the Notification API, the service worker and push manager exist and the lookup finds one |
| PushStatus.Status | lib/hooks/push-subscription.ts:58-78 | fully enabled exactly when subscribed on the server, permission granted and subscribed in the browser; permission needed exactly when not granted; resubscription needed exactly when subscribed on the server and granted but not subscribed in the browser |
| PushStatus.FlagsExclusive | lib/hooks/push-subscription.ts:59-68 | at most one of the three combined flags is ever set |
| PushStatus.GrantedServerSubscriptionDecided | lib/hooks/push-subscription.ts:59-68 | with a server subscription and permission granted, exactly one of fully enabled and needs resubscription holds |
| Refill.EnabledUserIds | app/api/push/refill/route.ts:64-69 | the ids are exactly those of preferences with both switches on, no more ids than preferences |
| Refill.LowSupplements | app/api/push/refill/route.ts:77-106 | only rows the query returns, each tracked and low on stock |
| Refill.LowSupplementsMembers | app/api/push/refill/route.ts:77-106 | a row is reminded about exactly when it is an enabled user's active, undeleted, open-ended row with stock and threshold, and its stock is at most its threshold |
| Refill.Owners | app/api/push/refill/route.ts:115-146 | the owners are listed each once |
| Refill.Groups | app/api/push/refill/route.ts:115-136 | the map holds one list per owner, with that owner's items in row order |
| Refill.GroupsPartitionRows | app/api/push/refill/route.ts:125-136 | each low row's item is in its owner's list, and the lists' sizes add up to the number of low rows: every row is grouped exactly once |
| Refill.RefillBodyMentions | app/api/push/refill/route.ts:152-155 | one low item is named with its stock and threshold; several are counted, and the first is named with its stock |
| Refill.RefillPayload | app/api/push/refill/route.ts:157-165 | the payload is tagged "refill-reminder", titled for a refill, and carries the first item's id and the item count |
| Refill.Notices | app/api/push/refill/route.ts:146-176 | one notification per owner |
| Refill.Details | app/api/push/refill/route.ts:140-176 | one detail per owner |
| Refill.NoticesAt | app/api/push/refill/route.ts:146-167 | the k-th notification goes to the k-th owner with the payload of that owner's list |
| Refill.DetailsAt | app/api/push/refill/route.ts:167-175 | the k-th detail reports the k-th owner, the size of their list and what the send to them counted |
| Refill.OneNoticePerOwner | app/api/push/refill/route.ts:146-176 | owners get distinct notifications, each tagged as a refill reminder and pointing at the first of that owner's low rows |
| Refill.EveryOwnerNotified | app/api/push/refill/route.ts:125-176 | every owner of a low row is among the recipients |
| Refill.NotifyOwners | app/api/push/refill/route.ts:139-176 | the loop sends one notification per owner in the Map's key order, records one detail each and sums the sent counts |
| Refill.HandleRefill | app/api/push/refill/route.ts:23-195 | no or empty secret is a 500 and a wrong header a 401, both sending nothing; once authorized, a failed read is a 500 sending nothing, no enabled users is "No users with refill reminders enabled", nothing low is nothing to do, and the run is processed exactly when some rows are low; a processed run sent exactly the owners' notifications and reports the owners, the total sent and the details |
| ThresholdViz.StatusColorsDistinct | lib/utils/threshold-visualization.ts:36-57 | each status has its own background and its own border colour |
| ThresholdViz.StatusColors | lib/utils/threshold-visualization.ts:36-57 | the background is the light (50) and the border the strong (500) shade of one hue per status |
| ThresholdViz.IsBidirectional | lib/utils/threshold-visualization.ts:20-31 | a bidirectional bar has two distinct out-of-range bands, and fewer than two bands are never bidirectional |
| ThresholdViz.FirstBandFrom | lib/utils/threshold-visualization.ts:66-92 | the band found is the first from a position on that holds the value, under the open or half-open bounds each kind of band has; nothing is found when no later band holds it |
| ThresholdViz.FirstBandUnique | lib/utils/threshold-visualization.ts:66-92 | the first band holding a value is the one found |
| ThresholdViz.FindBandForValue | lib/utils/threshold-visualization.ts:62-93 | the loop returns the lowest-index band holding the value, or none |
| ThresholdViz.Clamp01 | lib/utils/threshold-visualization.ts:104 | the clamp lands in [0, 1] and leaves values already there unchanged |
| ThresholdViz.PositionInBand | lib/utils/threshold-visualization.ts:99-134 | the position of a value in its band lies in [0, 1], and in a bounded band of non-zero range it is the linear position |
| ThresholdViz.RatioInUnit | lib/utils/threshold-visualization.ts:102-104 | in a bounded band the linear position already lies in [0, 1) |
| ThresholdViz.CurrentWidth | lib/utils/threshold-visualization.ts:149-154 | the current status is 16 wide, halved on mobile |
| ThresholdViz.OtherWidth | lib/utils/threshold-visualization.ts:150-161 | the other statuses are 8 wide, or 4 on a bidirectional bar, halved on mobile, and always narrower than the current status |
| ThresholdViz.FindSegment | lib/utils/threshold-visualization.ts:207-209 | the first segment of the band, or -1 when none is |
| ThresholdViz.FindSegmentNumbered | lib/utils/threshold-visualization.ts:190-209 | segments numbered in band order are found at their own index |
| ThresholdViz.Clamp100 | lib/utils/threshold-visualization.ts:230 | the clamp lands in [0, 100] and leaves values already there unchanged |
| ThresholdViz.DotPosition | lib/utils/threshold-visualization.ts:198-233 | the dot is a percentage in [0, 100]; there is none without a value or when no band holds it |
| ThresholdViz.PrefixWidth | lib/utils/threshold-visualization.ts:217-222 | the widths before a segment plus its own width never exceed the total |
| ThresholdViz.DivAdd | lib/utils/threshold-visualization.ts:225-228 | the segment's start and width add up as fractions of the total |
| ThresholdViz.DivAtMostOne | lib/utils/threshold-visualization.ts:225-226 | a part of the total is a fraction in [0, 1] |
| ThresholdViz.ScaleWithin | lib/utils/threshold-visualization.ts:227-228 | a position in [0, 1] scaled by the segment's width stays within it |
| ThresholdViz.DotInsideSegment | lib/utils/threshold-visualization.ts:217-230 | the dot lies between its segment's start and end, both as percentages of the bar, so the clamp never moves it |
| ThresholdViz.CalculateThresholdVisualization | lib/utils/threshold-visualization.ts:139-240 | one segment per band in band order, each with its status, colours and width, and the dot placed on the segment of the band holding the latest value |
| ThresholdViz.BidirectionalCurrentIsHoldingBand | lib/utils/threshold-visualization.ts:173-184 | on a bidirectional bar an out-of-range segment gets the current width only when the latest value is out of range and falls in that very band |
| ThresholdViz.DotOnHoldingSegment | lib/utils/threshold-visualization.ts:165-233 | with the segments the bar draws, a value held by some band always gets a dot, and it lies within that band's segment |
| BiomarkerMatching.CollapseWhitespace | lib/utils/biomarker-matching.ts:79 | the collapsed text is empty exactly when the input is, and starts with whitespace exactly when the input does |
| BiomarkerMatching.CollapseLast | lib/utils/biomarker-matching.ts:79 | the collapsed text ends in whitespace exactly when the input does |
| BiomarkerMatching.CollapseChars | lib/utils/biomarker-matching.ts:79 | every character of the collapsed text is a space or a non-whitespace character of the input |
| BiomarkerMatching.CharsFromCons | lib/utils/biomarker-matching.ts:79 | a space or a character of the input in front of characters of a suffix of the input stays made of them |
| BiomarkerMatching.CollapseNoRuns | lib/utils/biomarker-matching.ts:79 | the collapsed text never holds two whitespace characters in a row |
| BiomarkerMatching.CollapseNoop | lib/utils/biomarker-matching.ts:79 | text already without runs, and only spaces for whitespace, is left unchanged |
| BiomarkerMatching.TrimKeepsChars | lib/utils/biomarker-matching.ts:79 | trimming introduces no new characters |
| BiomarkerMatching.NormalizeString | lib/utils/biomarker-matching.ts:78-80 | a normalised name is lower-cased, has no edge whitespace and no whitespace runs |
| BiomarkerMatching.TrimmedLowerCased | lib/utils/biomarker-matching.ts:79 | trimming lower-cased text keeps it lower-cased |
| BiomarkerMatching.CollapseOfClean | lib/utils/biomarker-matching.ts:79 | collapsing text that is lower-cased and trimmed keeps it so, and leaves no runs |
| BiomarkerMatching.ToLowerNoop | lib/utils/biomarker-matching.ts:79 | lower-casing lower-cased text changes nothing |
| BiomarkerMatching.NormalizeIdempotent | lib/utils/biomarker-matching.ts:78-80 | normalising a normalised name changes nothing |
| BiomarkerMatching.FirstMatchFrom | lib/utils/biomarker-matching.ts:94 | the match found is the leftmost from a position on where the rest of the text matches the pattern; none is found when no position matches |
| BiomarkerMatching.StripFiller | lib/utils/biomarker-matching.ts:83-94 | removing an end-anchored pattern keeps the text before its leftmost match, or all of it when it matches nowhere |
| BiomarkerMatching.StripAll | lib/utils/biomarker-matching.ts:93-95 | applying the patterns in turn only ever cuts off a tail |
| BiomarkerMatching.CleanOcrName | lib/utils/biomarker-matching.ts:82-97 | the loop trims, strips each filler pattern once in order and trims again |
| BiomarkerMatching.StripEach | lib/utils/biomarker-matching.ts:93-95 | the loop applies each pattern once, in order |
| BiomarkerMatching.TrimPrefix | lib/utils/biomarker-matching.ts:92-96 | trimming a prefix of trimmed text gives a prefix of that text |
| BiomarkerMatching.CleanedNameIsPrefix | lib/utils/biomarker-matching.ts:82-97 | a cleaned name is a prefix of the trimmed input: cleaning only cuts off a tail |
| BiomarkerMatching.CleanedName | lib/utils/biomarker-matching.ts:82-97 | the cleaned name is never longer than the input and has no whitespace at either edge |
| BiomarkerMatching.StripAllNoWhitespace | lib/utils/biomarker-matching.ts:83-90 | every filler pattern starts with whitespace, so text without any is left alone |
| BiomarkerMatching.StripFillerNoWhitespace | lib/utils/biomarker-matching.ts:83-90 | one pattern leaves text without whitespace alone |
| BiomarkerMatching.CleanKeepsSingleWord | lib/utils/biomarker-matching.ts:82-97 | a single word such as "Glucose" comes out of cleaning as it went in, trimmed |
| BiomarkerMatching.StripAllSettled | lib/utils/biomarker-matching.ts:93-95 | once the text has no whitespace left, the remaining patterns leave it alone |
| BiomarkerMatching.SpaceColonEnds | lib/utils/biomarker-matching.ts:85 | " :" is an optional colon between whitespace, up to the end |
| BiomarkerMatching.DontWordMatches | lib/utils/biomarker-matching.ts:85 | "dont :" matches the `dont` pattern after its leading space |
| BiomarkerMatching.DontColonTrimmed | lib/utils/biomarker-matching.ts:85 | trimming the start of " dont :" leaves "dont :" |
| BiomarkerMatching.TrimStartAfterSpace | lib/utils/biomarker-matching.ts:85 | one space before a non-blank character is all that trimming the start removes |
| BiomarkerMatching.DontColonMatches | lib/utils/biomarker-matching.ts:85 | " dont :" is one whole match of the `dont` pattern |
| BiomarkerMatching.DontIsNotSoit | lib/utils/biomarker-matching.ts:84 | "dont :" does not match the `soit` pattern |
| BiomarkerMatching.ColonIsNotSoit | lib/utils/biomarker-matching.ts:84 | ":" does not match the `soit` pattern |
| BiomarkerMatching.DontColonNotSoit | lib/utils/biomarker-matching.ts:84 | no tail of " dont :" is a match of the `soit` pattern |
| BiomarkerMatching.DontColonSpaces | lib/utils/biomarker-matching.ts:84-85 | the only whitespace of " dont :" is the space before each word |
| BiomarkerMatching.NoMatchKeeps | lib/utils/biomarker-matching.ts:94 | a pattern that matches nowhere leaves the text as it is |
| BiomarkerMatching.LeftmostMatchCuts | lib/utils/biomarker-matching.ts:94 | the leftmost match cuts the text there |
| BiomarkerMatching.NoMatchInWord | lib/utils/biomarker-matching.ts:83-90 | a one-word name never matches anywhere before its first whitespace |
| BiomarkerMatching.SoitNowhereInDontTail | lib/utils/biomarker-matching.ts:84 | the `soit` pattern leaves a word followed by " dont :" unchanged |
| BiomarkerMatching.DontCutsDontTail | lib/utils/biomarker-matching.ts:85 | the `dont` pattern cuts " dont :" off a word |
| BiomarkerMatching.FirstTwoPatternsOnDontTail | lib/utils/biomarker-matching.ts:84-85 | the first pattern keeps " dont :", and the second cuts it off |
| BiomarkerMatching.CleanDropsTrailingFiller | lib/utils/biomarker-matching.ts:82-97 | a one-word name followed by the filler " dont :" comes out of cleaning as the word alone: "Cholesterol dont :" becomes "Cholesterol" |
| BiomarkerMatching.FirstSynonymFrom | lib/utils/biomarker-matching.ts:190-205 | the synonym found is the first from a position on that normalises to the name, or none when none does |
| BiomarkerMatching.MatchAgainst | lib/utils/biomarker-matching.ts:174-205 | a biomarker matches exactly when its name or a synonym normalises to the name; its canonical name is tried first, with score 1 |
| BiomarkerMatching.FirstNamedFrom | lib/utils/biomarker-matching.ts:174 | the biomarker found is the first from a position on that the name names, or none when none is named |
| BiomarkerMatching.TryExactMatch | lib/utils/biomarker-matching.ts:170-209 | nothing is found exactly when no biomarker's name or synonym normalises to the name; a match scores 1, is not fuzzy, and comes from the first named biomarker |
| BiomarkerMatching.ExactMatchNamesCatalogue | lib/utils/biomarker-matching.ts:170-209 | an exact match reports a biomarker of the catalogue, under a name that normalises to the input |
| BiomarkerMatching.ItemsOf | lib/utils/biomarker-matching.ts:212-237 | a biomarker gives one entry for its canonical name first, then one per synonym in order, all naming that biomarker |
| BiomarkerMatching.SearchableData | lib/utils/biomarker-matching.ts:211-238 | the index holds one entry per name and synonym of the catalogue |
| BiomarkerMatching.ItemCountAppend | lib/utils/biomarker-matching.ts:212 | the entry counts of two catalogues add up |
| BiomarkerMatching.SearchableDataAppend | lib/utils/biomarker-matching.ts:212 | flattening distributes over concatenation of catalogues |
| BiomarkerMatching.BiomarkerItemsInPlace | lib/utils/biomarker-matching.ts:211-238 | a biomarker's entries sit together in the index, right after those of the biomarkers before it, its canonical entry first |
| BiomarkerMatching.SearchableDataFromCatalogue | lib/utils/biomarker-matching.ts:211-238 | every entry of the index belongs to a biomarker of the catalogue, under its name or a synonym |
| BiomarkerMatching.TryFuzzyMatch | lib/utils/biomarker-matching.ts:256-284 | nothing when there is no hit or `1 - score` of the best hit is below the threshold; otherwise a fuzzy match on the best hit's item, scored `1 - score` |
| BiomarkerMatching.FuzzyScoreInRange | lib/utils/biomarker-matching.ts:264-269 | with search scores between 0 and 1, a fuzzy match scores between the threshold and 1 |
| BiomarkerMatching.MatchOne | lib/utils/biomarker-matching.ts:348-386 | the cleaned, normalised name is matched exactly first, with confidence 1, and otherwise fuzzily with the match score as confidence; without a match the confidence is 0 |
| BiomarkerMatching.MatchedIsConfident | lib/utils/biomarker-matching.ts:367-378 | a reported match always clears the threshold, for a threshold of at most 1 |
| BiomarkerMatching.FetchBiomarkers | lib/utils/biomarker-matching.ts:103-139 | a query error is thrown; missing data gives no biomarkers; otherwise one biomarker per row, without synonyms when the join gave none |
| BiomarkerMatching.Enrich | lib/utils/biomarker-matching.ts:417-449 | the reading's value and text are kept; a match contributes its biomarker's identity, type and confidence; no match gives no identity, type "unmatched" and confidence 0 |
| BiomarkerMatching.EnrichedRowConfidence | lib/utils/biomarker-matching.ts:417-449 | an enriched row has a biomarker id exactly when it is not "unmatched", and then its confidence is at least 0.65; without one it is 0 |
| BiomarkerMatching.MatchName | lib/utils/biomarker-matching.ts:348-386 | one step of the loop yields what `MatchOne` specifies, with threshold 0.65 |
| BiomarkerMatching.MatchAll | lib/utils/biomarker-matching.ts:346-387 | the loop yields one result per name, in order |
| BiomarkerMatching.BiomarkerCache.constructor | lib/utils/biomarker-matching.ts:141-155 | both caches start empty |
| BiomarkerMatching.BiomarkerCache.GetBiomarkers | lib/utils/biomarker-matching.ts:157-164 | a cached catalogue is returned unchanged; otherwise the fetch is returned, and cached only when it succeeds |
| BiomarkerMatching.BiomarkerCache.GetFuseIndex | lib/utils/biomarker-matching.ts:249-254 | the index is built on the first call from the catalogue passed, and later calls return it whatever catalogue they pass |
| BiomarkerMatching.BiomarkerCache.MatchBiomarkerNames | lib/utils/biomarker-matching.ts:339-406 | a failed first fetch is thrown; otherwise one result per name, in order, each as `MatchOne` gives it over the cached catalogue and index with threshold 0.65 |
| BiomarkerMatching.BiomarkerCache.EnrichOcrResults | lib/utils/biomarker-matching.ts:408-450 | the readings' names are matched in order, and each result is joined with the reading at the same index |
| SaveBiomarkers.Candidates | app/api/biomarkers/route.ts:84-94 | the filter keeps only candidates, no more than it was given |
| SaveBiomarkers.CandidatesMembers | app/api/biomarkers/route.ts:84-94 | a row is kept exactly when it is one of the input rows, not deselected, named, and has a number or a non-blank text value |
| SaveBiomarkers.ReadingOf | app/api/biomarkers/route.ts:104-108 | the enrichment receives the candidate's non-empty name, its value exactly when the value is a number, and at least one of value and text |
| SaveBiomarkers.Readings | app/api/biomarkers/route.ts:104-108 | one reading per candidate, in order |
| SaveBiomarkers.MatchedResults | app/api/biomarkers/route.ts:111-113 | only results with a biomarker id and enough confidence |
| SaveBiomarkers.UnmatchedResults | app/api/biomarkers/route.ts:115-117 | only results without a biomarker id or with too little confidence |
| SaveBiomarkers.PartitionCovers | app/api/biomarkers/route.ts:111-117 | the two filters split the enriched list: every result lands in exactly one of them |
| SaveBiomarkers.UnmatchedRowsAreSkipped | app/api/biomarkers/route.ts:111-117 | a result the enrichment could not match is never saved |
| SaveBiomarkers.Inserts | app/api/biomarkers/route.ts:119-127 | one `user_biomarkers` row per matched result, with its biomarker id, name and values, for this user and report, measured when the report was collected |
| SaveBiomarkers.RowOf | app/api/biomarkers/route.ts:119-127 | a row carries the biomarker id of its matched result |
| SaveBiomarkers.UnmatchedRows | app/api/biomarkers/route.ts:130-141 | one logged row per unmatched result, with its name, confidence and best match, for this report |
| SaveBiomarkers.AfterEnrichment | app/api/biomarkers/route.ts:111-242 | nothing matched: 200, UNMATCHED, no insert, all skipped; a failed insert: 500 and CANCELED; otherwise 200 with matched and skipped counts adding up, and UNMATCHED or COMPLETED by whether unmatched rows remain; the unmatched rows are always logged |
| SaveBiomarkers.SkippedAreUnmatched | app/api/biomarkers/route.ts:209-211 | when the save succeeds, the skipped count is the number of unmatched rows, and matched plus skipped is the total processed |
| SaveBiomarkers.CompletedIffAllMatched | app/api/biomarkers/route.ts:213-217 | a successful save ends COMPLETED exactly when every enriched row matched |
| SaveBiomarkers.SaveBiomarkersResponse | app/api/biomarkers/route.ts:24-264 | no session is a 401 with no write; an unparsable body or a missing `reportId` or `biomarkers` is a 400, and a `null` body a 500, with no write; an unknown report is a 404 with no write; no candidate is a 400 after SAVING; a thrown enrichment is a 500 after SAVING then CANCELED; otherwise the answer and the inserts are those after enrichment, preceded by SAVING; inserts carry the report's collection time; a 200 writes SAVING and then UNMATCHED or COMPLETED |
| SaveBiomarkers.CompletedMeansAllSaved | app/api/biomarkers/route.ts:191-223 | a report ends COMPLETED only when enrichment succeeded, the insert succeeded and every enriched row matched |
| SaveBiomarkers.CompletedOnlyAfterEnrichment | app/api/biomarkers/route.ts:103-223 | COMPLETED is written only after a signed-in request found its report, enrichment returned, something matched and the insert succeeded |
| SaveBiomarkers.EmptyListRefusedEarly | app/api/biomarkers/route.ts:52-57 | an empty or missing biomarker list is refused with 400 before the report's status is touched |
| NutrientLimits.FindRowFrom | lib/data/nutrient-limits.ts:463-471 | `find` returns the first row from a position on that matches the nutrient, age group and sex, or nothing when none matches |
| NutrientLimits.LimitForUserIn | lib/data/nutrient-limits.ts:457-475 | a returned row is for the nutrient and age group and either the user's sex or both sexes; nothing is returned exactly when neither exists; an exact row is preferred |
| NutrientLimits.GetLimitForUser | lib/data/nutrient-limits.ts:457-475 | a returned row is a row of the table for the nutrient and age group, and for the user's sex or both sexes |
| NutrientLimits.ExactRowFirst | lib/data/nutrient-limits.ts:463-465 | an exact row wins over a row for both sexes, and among exact rows the first one wins |
| NutrientLimits.AllSexesFallback | lib/data/nutrient-limits.ts:468-472 | without an exact row, the first row for both sexes is returned |
| NutrientLimits.GetEffectiveUpperLimit | lib/data/nutrient-limits.ts:480-482 | the upper limit when there is one, else the safe level when it is a number, else nothing |
| NutrientLimits.RowsOf | lib/data/nutrient-limits.ts:487-489 | the filter returns only rows of the nutrient, no more than the table holds |
| NutrientLimits.RowsOfMembers | lib/data/nutrient-limits.ts:487-489 | the rows kept are exactly the table's rows for the nutrient |
| NutrientLimits.RowsOfAppend | lib/data/nutrient-limits.ts:487-489 | filtering distributes over concatenation, so the table's order is kept |
| NutrientLimits.GetLimitsForNutrient | lib/data/nutrient-limits.ts:487-489 | the rows returned are exactly the table's rows for the nutrient |
| NutrientLimits.VitaminKCountsAsWritten | lib/data/nutrient-limits.ts:494-497 | vitamin K has no upper limit and no safe level, yet the test as written reports it as limited |
| NutrientLimits.LimitedMeansEffectiveLimit | lib/data/nutrient-limits.ts:480-497 | with the intended test, a nutrient is limited exactly when one of its rows yields an effective upper limit |
| NutrientLimits.HasUpperLimit | lib/data/nutrient-limits.ts:494-497 | as intended, a nutrient has an upper limit exactly when one of its table rows yields an effective upper limit |
| NutrientLimits.AsWrittenOverApproximates | lib/data/nutrient-limits.ts:494-497 | every nutrient the intended test reports also passes the test as written |
| NutrientLimits.VitaminKRowsUnlimited | lib/data/nutrient-limits.ts:81-83 | the table's three vitamin K rows have no effective upper limit |
| Nutrients.FindSlugFrom | lib/data/nutrients.ts:385-387 | `find` returns the first nutrient from a position on with the slug, or nothing when none has it |
| Nutrients.GetNutrientBySlug | lib/data/nutrients.ts:385-387 | a nutrient found has the slug asked for |
| Nutrients.GetNutrientBySlugFirst | lib/data/nutrients.ts:385-387 | the lookup finds a nutrient exactly when one has the slug, and then it finds the first such |
| Nutrients.InCategory | lib/data/nutrients.ts:392-394 | the filter keeps only nutrients of the category, no more than the table holds |
| Nutrients.InCategoryMembers | lib/data/nutrients.ts:392-394 | the nutrients kept are exactly those of the category |
| Nutrients.InCategoryAppend | lib/data/nutrients.ts:392-394 | filtering distributes over concatenation, so the table's order is kept |
| Nutrients.GetNutrientsByCategory | lib/data/nutrients.ts:392-394 | the result holds exactly the nutrients of the table in the category |
| Nutrients.ConvertToDefaultUnit | lib/data/nutrients.ts:400-411 | an amount in the nutrient's alternate unit with a conversion factor is multiplied by the factor; every other case returns the amount unchanged |
| Nutrients.ToDefaultUnit | lib/data/nutrients.ts:401-410 | the same conversion, once the nutrient has been looked up |
| Nutrients.ConvertToAlternateUnit | lib/data/nutrients.ts:417-428 | an amount converted to the alternate unit with a conversion factor is divided by the factor; every other case returns the amount unchanged |
| Nutrients.ToAlternateUnit | lib/data/nutrients.ts:418-427 | the same conversion, once the nutrient has been looked up |
| Nutrients.DivThenMultiply | lib/data/nutrients.ts:407-424 | dividing by a non-zero factor and multiplying back gives the amount back |
| Nutrients.MultiplyThenDiv | lib/data/nutrients.ts:407-424 | multiplying by a non-zero factor and dividing back gives the amount back |
| Nutrients.UnconvertedUnits | lib/data/nutrients.ts:401-420 | for an unknown nutrient, or in the default unit, both conversions leave the amount unchanged |
| Nutrients.DefaultRoundTrip | lib/data/nutrients.ts:400-428 | converting to the default unit and back gives the amount back, for every nutrient and unit |
| Nutrients.AlternateRoundTrip | lib/data/nutrients.ts:400-428 | converting to the alternate unit and back gives the amount back, for every nutrient and unit |
| Nutrients.VitaminDExamples | lib/data/nutrients.ts:73-79 | vitamin D: 1000 IU is 25 mcg, and 25 mcg is 1000 IU |
| SeedLimits.IdMapLastWins | lib/data/seed-limits.ts:41-44 | a slug is in the map exactly when some nutrient has it, and it maps to the id of the last such nutrient |
| SeedLimits.GetNutrientIdMap | lib/data/seed-limits.ts:34-47 | the loop fills the map that the last-wins specification describes |
| SeedLimits.SourceLabel | lib/data/seed-limits.ts:79-84 | "IOM" and "EFSA_SAFE" for those upper-limit sources, "EFSA" for any other source or none |
| SeedLimits.UpperLimitColumn | lib/data/seed-limits.ts:76 | the inserted upper limit is the effective upper limit of the reference row |
| SeedLimits.RowFor | lib/data/seed-limits.ts:86-94 | the inserted row carries the nutrient id and the reference row's age group, sex, RDA and unit, its effective upper limit and its source label |
| SeedLimits.Rows | lib/data/seed-limits.ts:67-95 | no more rows are inserted than there are reference rows |
| SeedLimits.Skipped | lib/data/seed-limits.ts:67-73 | no more slugs are skipped than there are reference rows |
| SeedLimits.RowsAndSkippedCount | lib/data/seed-limits.ts:67-95 | every reference row is either inserted or skipped: the counts add up to the table size |
| SeedLimits.RowsMembers | lib/data/seed-limits.ts:67-95 | an inserted row is exactly the row of a reference row whose nutrient exists |
| SeedLimits.SkippedMembers | lib/data/seed-limits.ts:67-73 | a skipped slug is exactly the slug of a reference row whose nutrient does not exist |
| SeedLimits.RowsInTableOrder | lib/data/seed-limits.ts:67-95 | rows keep the table's order: the rows of a prefix of the table are a prefix of the rows |
| SeedLimits.PrepareLimits | lib/data/seed-limits.ts:65-95 | the loop builds exactly the rows and skipped slugs the specifications describe |
| SeedLimits.BatchesPartition | lib/data/seed-limits.ts:104-106 | the batches partition the rows in order, none is empty, and every batch but the last holds exactly 50 rows |
| SeedLimits.BatchCount | lib/data/seed-limits.ts:104-106 | the number of batches is the number of rows divided by 50, rounded up |
| SeedLimits.UpsertBatches | lib/data/seed-limits.ts:104-118 | every batch is sent in order, whether or not an upsert fails |
| SeedLimits.SeedNutrientLimits | lib/data/seed-limits.ts:49-121 | a failed nutrient query throws before anything is sent; otherwise the batches sent hold exactly the rows for the known nutrients, and the others are skipped, so sent and skipped rows add up to the table |
| Validation.NameErrors | lib/supplements.ts:37-43 | the name check adds nothing or exactly its one message |
| Validation.NameErrorsMeaning | lib/supplements.ts:37-43 | the name passes exactly when it is a string with a non-whitespace character |
| Validation.CapsulesErrors | lib/supplements.ts:45-51 | capsules per take pass exactly when they are a number of at least one; at most one error |
| Validation.Kept | lib/supplements.ts:66-68 | the filter keeps no more elements than it was given, and only ones the test holds of |
| Validation.KeptMembers | lib/supplements.ts:66-68 | the filter keeps exactly the elements the test holds of |
| Validation.KeptEmpty | lib/supplements.ts:66-69 | the filter keeps nothing exactly when the test holds of no element |
| Validation.InvalidTimes | lib/supplements.ts:60-68 | every element the filter keeps names no slot |
| Validation.InvalidTimesMembers | lib/supplements.ts:60-68 | the filter keeps exactly the elements that name no slot |
| Validation.InvalidTimesEmpty | lib/supplements.ts:66-71 | the filter finds nothing exactly when every element names a slot |
| Validation.TimeOfDayErrors | lib/supplements.ts:53-72 | the time-of-day check adds at most one error |
| Validation.TimeOfDayErrorsMeaning | lib/supplements.ts:53-72 | time of day passes exactly when it is a non-empty array whose every element names a slot |
| Validation.StartDateErrors | lib/supplements.ts:74-81 | the start date passes exactly when it is a non-empty string that makes a valid date; at most one error |
| Validation.EndDateErrors | lib/supplements.ts:84-92 | the end date passes exactly when it is absent or empty, or makes a valid date later than the start date, or the start date is invalid (which compares false); at most one error |
| Validation.StringFieldErrors | lib/supplements.ts:94-108 | an optional text field passes exactly when it is falsy or a string; otherwise its one message is added |
| Validation.MissedDaysErrors | lib/utils/validation.ts:85-94 | the missed-days check adds at most one error |
| Validation.InvalidMissedDays | lib/utils/validation.ts:88-90 | every day the filter keeps is not a string or is blank |
| Validation.InvalidMissedDaysEmpty | lib/utils/validation.ts:88-93 | the filter finds nothing exactly when every day passes |
| Validation.MissedDaysErrorsMeaning | lib/utils/validation.ts:85-94 | missed days pass exactly when they are falsy or an array of strings each with a non-whitespace character |
| Validation.ResultOf | lib/supplements.ts:110-113 | `valid` holds exactly when no error was collected, and `errors` is present exactly when invalid and then holds every error |
| Validation.CheckName | lib/supplements.ts:37-43 | the name push appends exactly the name errors |
| Validation.CheckCapsules | lib/supplements.ts:45-51 | the capsules push appends exactly the capsules errors |
| Validation.CheckTimeOfDay | lib/supplements.ts:53-72 | the time-of-day push appends exactly the time-of-day errors |
| Validation.CheckStartDate | lib/supplements.ts:74-81 | the start-date push appends exactly the start-date errors |
| Validation.CheckEndDate | lib/supplements.ts:84-92 | the end-date push appends exactly the end-date errors |
| Validation.CheckStringField | lib/supplements.ts:94-108 | an optional field's push appends exactly its errors |
| Validation.CollectFieldErrors | lib/supplements.ts:34-108 | the pushes, one field after another, collect exactly the errors of the nine checks in order |
| Validation.ValidateSupplementInput | lib/supplements.ts:33-114 | the result is built from exactly the errors of the nine checks in order |
| Validation.CheckMissedDays | lib/utils/validation.ts:85-94 | the missed-days push appends exactly the missed-days errors |
| Validation.ValidateSupplementInputWithMissedDays | lib/utils/validation.ts:6-100 | the result is built from the nine checks' errors followed by the missed-days errors |
| Validation.ValidIffWellFormed | lib/supplements.ts:33-114 | no error is collected exactly when every field holds what the form asks for |
| Validation.ValidationErrors | lib/supplements.ts:33-114 | each check adds at most one error, so there are never more than nine |
| Validation.EndNotAfterStartReported | lib/supplements.ts:89-90 | an end date on or before a valid start date is reported as such |
| Validation.ValidatorsAgreeWithoutMissedDays | lib/utils/validation.ts:85-99 | without missed days the two validators collect the same errors |
| Validation.DaysInMonth | lib/supplements.ts:210-212 | a month has 28 to 31 days, and December has 31 |
| Validation.ParseIsoDate | lib/supplements.ts:210 | a parsed date-only string keeps its year and has a month from 1 to 12; a day within its month is kept, a day past the end rolls into the next month |
| Validation.ShapeIsPaddedParts | lib/supplements.ts:205-212 | the ISO text of a well-shaped string's three parts is the string itself |
| Validation.ValidDateStringIffRealDay | lib/supplements.ts:204-214 | a string passes exactly when it has the YYYY-MM-DD shape, a month from 1 to 12 and a day within that month, leap years included |
| Validation.IsValidDateString | lib/supplements.ts:204-214 | a passing string has the YYYY-MM-DD shape, a month from 1 to 12 and a day from 1 to 31 |
| Validation.PadDigitsOfValue | lib/supplements.ts:212 | padding the value of a digit string gives the string back |
| Validation.ValueOfPadDigits | lib/supplements.ts:212 | reading a padded number back gives the number when it fits |
| SupplementUtils.IsSupplementActiveOnDate | lib/utils/supplements.ts:6-33 | only an ACTIVE supplement is active; with both dates valid it is active exactly when the date is not before the start and, with a truthy end date, not after the end |
| SupplementUtils.UnparseableDateCountsAsActive | lib/utils/supplements.ts:18-32 | comparisons with an invalid date are false, so an ACTIVE supplement counts as active on a date that does not parse |
| SupplementUtils.ActiveOnBothEnds | lib/utils/supplements.ts:21-30 | the start day and the end day are both included |
| SupplementUtils.PlacementOf | lib/utils/supplements.ts:49-50 | a falsy `time_of_day` is dropped, and a string placed into a bucket names that slot |
| SupplementUtils.Bucket | lib/utils/supplements.ts:48-52 | a bucket holds no more schedules than were given, each placed into that slot |
| SupplementUtils.BucketMembership | lib/utils/supplements.ts:48-52 | a schedule is in bucket `t` exactly when it is one of the input schedules placed there |
| SupplementUtils.PlacedCount | lib/utils/supplements.ts:48-52 | no more schedules are placed than were given |
| SupplementUtils.BucketsPartition | lib/utils/supplements.ts:41-54 | the four buckets together hold each placed schedule exactly once |
| SupplementUtils.BucketStep | lib/utils/supplements.ts:48-52 | one more schedule is appended to its own bucket only |
| SupplementUtils.GroupScheduleByTimeOfDay | lib/utils/supplements.ts:38-55 | the call throws exactly when some schedule's `time_of_day` names an inherited property; otherwise every slot has a bucket holding its schedules in input order |
| SupplementUtils.GroupBySlot | lib/utils/supplements.ts:41-54 | the loop throws exactly when some schedule cannot be pushed, and otherwise ends with every bucket as `Bucket` describes |
| SupplementUtils.OrEmpty | lib/utils/supplements.ts:66-68 | `v \|\| ""` keeps a truthy value and turns a falsy one into "" |
| SupplementUtils.FormatAdherenceRow | lib/utils/supplements.ts:61-70 | `is_taken` holds exactly when `adherence_id` is truthy; the ids, name and capsules are copied; the text fields fall back to "" |
| SupplementUtils.FormatAdherenceData | lib/utils/supplements.ts:60-71 | one formatted row per input row, in order |
| SupplementUtils.FormattedTextNeverFalsy | lib/utils/supplements.ts:66-68 | the optional text fields of a formatted row are truthy or exactly "" |
| SupplementUtils.TakenCount | lib/utils/supplements.ts:82 | the taken count is at most the total, zero exactly when none is taken, and the total exactly when all are |
| SupplementUtils.CalculateScheduleStats | lib/utils/supplements.ts:76-86 | total is the number of rows, taken counts the taken rows, left is the rest and never negative, and nothing is left exactly when all are taken |
| SupplementUtils.StatsCountAdherenceIds | lib/utils/supplements.ts:60-86 | over formatted rows, "taken" counts the rows that carry a truthy adherence id |
| SupplementUtils.GetTimeOfDayOrder | lib/utils/supplements.ts:91-99 | each slot's order is its position 1 to 4 in the day |
| SupplementUtils.TimeOfDayOrderIncreasing | lib/utils/supplements.ts:92-97 | the order follows the day: morning, lunch, dinner, before sleep |
| DateFormat.JsRemTen | lib/utils.ts:73 | JavaScript's `day % 10` lies in -9..9 and agrees with the mathematical remainder for non-negative days |
| DateFormat.GetOrdinalSuffix | lib/utils.ts:68-84 | the suffix is one of four; "th" for 11 to 13; otherwise "st", "nd", "rd" for a last digit 1, 2, 3 and "th" for the rest |
| DateFormat.OrdinalSuffixOfMonthDays | lib/utils.ts:68-84 | days 1, 2, 3, 11, 12, 13, 21, 22, 23, 31 read "st", "nd", "rd", "th", "th", "th", "st", "nd", "rd", "st" |
| DateFormat.IndexFrom | lib/utils.ts:42 | the search finds the first occurrence of the pattern at or after a position, or reports that there is none |
| DateFormat.ReplaceFirst | lib/utils.ts:42 | a text without the pattern is left as it is |
| DateFormat.ReplaceFirstAtLeftmost | lib/utils.ts:42 | only the first occurrence is replaced: the text before it is kept and the replacement sits where the pattern was |
| DateFormat.TimeOf | lib/utils.ts:27-34 | a falsy input has no time; a non-empty text is parsed; a date object gives its time value |
| DateFormat.FormatDateLong | lib/utils.ts:26-43 | "" for a falsy or invalid input; otherwise the formatter's text with its first " D," replaced by the day with its suffix |
| DateFormat.LongFormatAddsOrdinal | lib/utils.ts:37-42 | the long format puts the day's ordinal where the formatter put the plain day |
| DateFormat.FormatDateShort | lib/utils.ts:50-61 | "" for a falsy or invalid input, the formatter's text otherwise |
| DateFormat.FormatDisplayDate | lib/utils.ts:89-91 | the deprecated formatter gives exactly the long format |
| DateFormat.FormattersBlankOnBadInput | lib/utils.ts:27-58 | both formatters give "" for null, undefined, the empty text and an unparseable text |
| Navigation.ResolveActiveFromPath | components/ui/navigation.tsx:36-48 | the result is always a tab href; "/todos" for a missing or empty path or when no tab matches; otherwise a matching tab with no longer matching one |
| Navigation.PrefixNeedsSlash | components/ui/navigation.tsx:41-42 | "/todos-archive" does not select "/todos", while "/todos/today" does |
| Navigation.AtMostOneTabMatches | components/ui/navigation.tsx:10-46 | no two tab hrefs match the same path |
| Navigation.MatchFixesSecondChar | components/ui/navigation.tsx:41-42 | a matching href agrees with the path on its second character |
| Navigation.WordLength | components/ui/navigation.tsx:90 | the first word runs over non-whitespace characters up to the first whitespace |
| Navigation.Words | components/ui/navigation.tsx:89-91 | every word is non-empty and has no whitespace |
| Navigation.WordsEmptyIffBlank | components/ui/navigation.tsx:89-91 | a name has no words exactly when it is all whitespace |
| Navigation.WordsOfOneWord | components/ui/navigation.tsx:89-91 | a single word splits into itself |
| Navigation.WordsOfTwoWords | components/ui/navigation.tsx:89-91 | two words around a space split into those two |
| Navigation.Initials | components/ui/navigation.tsx:86-96 | one or two letters; "U" without a display name or without a word in it; otherwise the upper-cased first characters of the first one or two words |
| Navigation.InitialsOfNames | components/ui/navigation.tsx:86-96 | "ada lovelace" shows "AL", "ada" shows "A", and a blank name shows "U" |
| AdherenceToggle.StatusOf | app/api/supplements/adherence/toggle/route.ts:18-99 | 401 exactly for no session; 400 exactly for a bad body, a missing field or a bad date; 404 exactly for an unknown supplement or schedule; the check and write failures are 500 |
| AdherenceToggle.LocalHours | app/api/supplements/adherence/toggle/route.ts:103-109 | the dose's local hour is 8, 12, 18 or 22 for the four slots, and 0 for any other `time_of_day` |
| AdherenceToggle.LocalHoursAgreeWithSlotHour | app/api/supplements/adherence/toggle/route.ts:103-109 | the route's hour for each slot is the slot hour the rest of the app uses |
| AdherenceToggle.TakeInventory | app/api/supplements/adherence/toggle/route.ts:233-245 | taking a dose lowers a tracked inventory by one take but never below zero; an untracked inventory stays untracked |
| AdherenceToggle.UntakeInventory | app/api/supplements/adherence/toggle/route.ts:181-191 | un-taking a dose raises a tracked inventory by exactly one take; an untracked inventory stays untracked |
| AdherenceToggle.TakeUntakeRestores | app/api/supplements/adherence/toggle/route.ts:181-191 | take then un-take gives the stock back if and only if it covered the take (the zero clamp loses the shortfall) |
| AdherenceToggle.UntakeTakeRestores | app/api/supplements/adherence/toggle/route.ts:181-191 | un-take then take gives the stock back if and only if it was not negative |
| AdherenceToggle.Matching | app/api/supplements/adherence/toggle/route.ts:130-138 | the existence query finds exactly the positions of the records for the dose (user, supplement, schedule, timestamp) |
| AdherenceToggle.UniqueDosesMatchAtMostOne | app/api/supplements/adherence/toggle/route.ts:130-150 | with at most one record per dose the `maybeSingle` query finds at most one row, so its error path is not taken |
| AdherenceToggle.RemoveAt | app/api/supplements/adherence/toggle/route.ts:157-160 | deleting the found record removes exactly that one record and keeps the rest |
| AdherenceToggle.Rejection | app/api/supplements/adherence/toggle/route.ts:18-99 | the checks in the route's order, each deciding its case: no session is 401; an unparsable body, a missing or empty field or a bad date is 400; an unknown or foreign supplement, or a schedule not of that supplement, is 404; the request passes exactly when every check does |
| AdherenceToggle.StoreInventory | app/api/supplements/adherence/toggle/route.ts:175-191 | the inventory write changes only that supplement's inventory; when it fails the table is unchanged, and otherwise the inventory is the new one |
| AdherenceToggle.ToggleSpec | app/api/supplements/adherence/toggle/route.ts:15-256 | schedules are never written; every failure leaves all tables unchanged; a successful toggle implies the request passed every check; a failed inventory write still answers success |
| AdherenceToggle.ToggleReportsRecord | app/api/supplements/adherence/toggle/route.ts:152-256 | after a successful toggle the dose has a record if and only if the answer says `is_taken`, and `taken_at` is the dose's timestamp |
| AdherenceToggle.RemovedIsGone | app/api/supplements/adherence/toggle/route.ts:155-160 | after the delete no record for the dose is left |
| AdherenceToggle.MatchingNone | app/api/supplements/adherence/toggle/route.ts:130-138 | a table with no record for the dose gives an empty query result |
| AdherenceToggle.TogglePreservesUniqueDoses | app/api/supplements/adherence/toggle/route.ts:152-249 | toggling never creates a second record for a dose |
| AdherenceToggle.AppendPreservesUnique | app/api/supplements/adherence/toggle/route.ts:203-212 | inserting a record for a dose that had none keeps one record per dose |
| AdherenceToggle.RemovePreservesUnique | app/api/supplements/adherence/toggle/route.ts:157-160 | deleting a record keeps one record per dose |
| AdherenceToggle.TakeEffect | app/api/supplements/adherence/toggle/route.ts:194-249 | an unrecorded dose gets a new record with the database's id, and its supplement's inventory goes down by one take unless that write fails; nothing else changes |
| AdherenceToggle.UntakeEffect | app/api/supplements/adherence/toggle/route.ts:155-193 | a recorded dose loses its record, and its supplement's inventory goes up by one take unless that write fails; nothing else changes |
| AdherenceToggle.RejectionIgnoresInventory | app/api/supplements/adherence/toggle/route.ts:18-99 | the checks depend only on the session, the body, the owners of the supplements and the schedules, not on inventory or records |
| AdherenceToggle.InsertedIsFound | app/api/supplements/adherence/toggle/route.ts:130-138 | after the insert the dose's query finds exactly the new record, and deleting it gives the old records back |
| AdherenceToggle.SameDoseAfterTake | app/api/supplements/adherence/toggle/route.ts:103-117 | after a take the same request still passes the checks and names the same dose; the supplement holds the reduced stock, or the old one when the write failed |
| AdherenceToggle.UntakeOfInserted | app/api/supplements/adherence/toggle/route.ts:155-193 | un-marking a dose just marked removes exactly the inserted record and gives one take back to the stock the first request left, unless that write fails |
| AdherenceToggle.TwoToggles | app/api/supplements/adherence/toggle/route.ts:152-256 | two toggles of an unrecorded dose leave the records as they were and the inventory at take-then-untake of the old stock, each step written unless its write fails |
| AdherenceToggle.TakeThenUntake | app/api/supplements/adherence/toggle/route.ts:152-256 | toggling twice answers not-taken and restores the records; with both inventory writes done the supplements are restored exactly when the stock covered the take (or was untracked); with both lost they are unchanged; a lost first write leaves one take added, a lost second one take removed |
| AdherenceToggle.StockAfterTwoFacts | app/api/supplements/adherence/toggle/route.ts:175-191 | after a take and an untake, with both inventory writes done the table is restored exactly when the stock covered the take (or is untracked); with both lost it is unchanged; with one lost it holds the other write's stock |
| AdherenceToggle.AdherenceStore.constructor | app/api/supplements/adherence/toggle/route.ts:130-138 | the store holds the given supplements, schedules and dose records |
| AdherenceToggle.AdherenceStore.Toggle | app/api/supplements/adherence/toggle/route.ts:15-256 | the handler's answer and the new tables are those of `ToggleSpec` on the old tables |
| EnvValidation.RequiredVarsListEachOnce | lib/env-validation.ts:11-79 | the seven required variables are each listed exactly once |
| EnvValidation.VarNamesDistinct | lib/env-validation.ts:11-79 | distinct variables have distinct names |
| EnvValidation.ErrorForCases | lib/env-validation.ts:90-105 | an unset or empty variable is reported missing without consulting its validator; a set one is reported invalid exactly when its validator refuses it |
| EnvValidation.Errors | lib/env-validation.ts:86-106 | the loop collects at most one error per variable |
| EnvValidation.ErrorsMembers | lib/env-validation.ts:89-106 | every collected error is the error of one of the variables, and every variable's error is collected |
| EnvValidation.NoErrorsIffAllValid | lib/env-validation.ts:89-109 | nothing is collected exactly when every variable is set and accepted |
| EnvValidation.OneErrorPerVariable | lib/env-validation.ts:92-105 | with each variable listed once, no variable is reported twice |
| EnvValidation.ErrorLines | lib/env-validation.ts:113 | one message line per error |
| EnvValidation.ErrorLinesInOrder | lib/env-validation.ts:113 | the message lists the errors in the order they were collected |
| EnvValidation.RequirementLines | lib/env-validation.ts:116-118 | one requirement line per variable |
| EnvValidation.ValidateEnvironmentVariables | lib/env-validation.ts:85-128 | the loop collects exactly the errors of the variables in order; the call throws exactly when an error was collected, with the message built from them |
| EnvValidation.ValidationVerdict | lib/env-validation.ts:85-128 | validation passes exactly when every required variable is set and accepted by its validator, and no variable is reported twice |
| EnvValidation.GetEnvVar | lib/env-validation.ts:134-142 | the read succeeds exactly when the variable is set and non-empty, and then returns its value |
| EnvValidation.ValidatedVarsAreReadable | lib/env-validation.ts:85-142 | after validation passed, reading any required variable succeeds with a value its validator accepts (so the session secret has at least 32 characters and the RP id no space) |
| WebAuthnConfig.EnvOr | lib/webauthn.ts:17-20 | `process.env[name] \|\| fallback` is the value when it is set and non-empty, and the fallback otherwise |
| WebAuthnConfig.TrimAll | lib/webauthn.ts:25 | every piece is trimmed, one result per piece |
| WebAuthnConfig.NonEmpty | lib/webauthn.ts:26 | the filter keeps no more pieces than it was given, each of them one of the pieces and non-empty |
| WebAuthnConfig.NonEmptyMembers | lib/webauthn.ts:26 | the filter keeps exactly the non-empty pieces |
| WebAuthnConfig.NonEmptyKeepsAll | lib/webauthn.ts:26 | pieces that are all non-empty pass through unchanged |
| WebAuthnConfig.OriginParts | lib/webauthn.ts:19-26 | every listed origin is non-empty and has no whitespace at either edge |
| WebAuthnConfig.OriginPartsMembers | lib/webauthn.ts:23-26 | a listed origin is exactly a non-blank comma-separated piece, trimmed, so it has no edge whitespace and no comma |
| WebAuthnConfig.ExpectedOriginOf | lib/webauthn.ts:28 | several origins give the array, one gives that origin, and none gives `undefined` |
| WebAuthnConfig.JoinedOriginsParse | lib/webauthn.ts:23-26 | clean origins joined with commas parse back into the same list |
| WebAuthnConfig.ListedOriginsRoundTrip | lib/webauthn.ts:16-31 | a list of clean origins written with commas is read back as that list: one origin as a string, several as the array |
| WebAuthnConfig.OriginsFromEnv | lib/webauthn.ts:19-28 | a set, non-empty origin variable is what the expected origins are parsed from |
| WebAuthnConfig.Defaults | lib/webauthn.ts:16-31 | with nothing configured, the RP id is "localhost", the name is "PillsMe" and the only origin is "http://localhost:3000" |
| WebAuthnConfig.GetRPConfig | lib/webauthn.ts:16-31 | the RP id and name are never empty; without an origin variable the default origin is the only one; every expected origin is non-empty and has no edge whitespace |
| WebAuthnConfig.OneCleanOrigin | lib/webauthn.ts:23-26 | a single clean origin is read as itself |
| WebAuthnConfig.BlankListGivesUndefined | lib/webauthn.ts:19-28 | an origin variable of commas and blanks only gives no expected origin |
| WebAuthnConfig.DefaultRegistrationOptions | lib/webauthn.ts:36-49 | registration asks for a resident, platform-attached credential with required user verification, no attestation and a 60 s timeout |
| WebAuthnConfig.DefaultAuthenticationOptions | lib/webauthn.ts:54-62 | authentication uses the same timeout and the same required user verification as registration |

## Left out

- Logging (`console.log`, `console.error`, `print`) is not modelled; it changes nothing the model states.
- Network, database and web-push calls are inputs. The model takes what each query returns or which error it raises, and it returns the rows a route writes. The toggle route never looks at the error of its inventory update; a flag of the environment says whether that write was lost, and the answer is a success either way. Supabase, web-push delivery and the simplewebauthn verification are outside the model.
- The catch-all `try`/`catch` branches that answer 500 for an exception thrown by a foreign call are not modelled. A route's explicit error returns are modelled.
- HMAC-SHA256, `JSON.stringify`/`JSON.parse` and UTF-8 encoding are foreign. They are function parameters, and the token round trip is proved for any JSON codec that round-trips the payload.
- `Intl.DateTimeFormat`, `lib/utils/timezone.ts` and `new Date(text)` are parameters. The model's local clock has no daylight-saving shifts, and every local day lasts 24 hours.
- `getLocalDateAndHourForTimezone`, `getNextNotificationTime` and `getTimezoneOffset` in lib/utils/notifications-time.ts are time-zone arithmetic over `Intl`. They are not part of this model; the scan over a range takes the clock as a parameter instead.
- Floating point: reals stand for JavaScript numbers. There is no IEEE rounding, NaN or Infinity. The one place where the source divides by zero (a left-open band with upper bound 0) is written out with the value JavaScript then produces.
- Fuse.js scoring: the fuzzy search's ranked hits are a parameter. Only the index items the model builds and the threshold it applies are modelled.
- Case mapping in `toLowerCase`/`toUpperCase` covers ASCII letters only.
- The service worker's timers are a map from key to the planned reminder. `setTimeout` firing in real time is not modelled; a firing is the `FireReminder` method, called by its caller. `clients.matchAll` is an input list of windows.
- ServiceWorker.ReminderScheduler.ScheduleSupplementNotifications, ServiceWorker.ReminderScheduler.FireReminder: the worker stores a new timer under a key without clearing the one already stored there (public/sw.js:257-258, 305-306). A supplement with two schedules in the same slot therefore leaves a timer that clearing no longer reaches, and it keeps firing. The key-to-instant map holds one timer per key, so it cannot show these orphaned timers.
- EnvValidation.Accepts, Navigation.Initials: JavaScript's `.length` and string indexing count UTF-16 code units, while a Dafny string counts code points. A secret of 31 code points with one character outside the Basic Multilingual Plane passes the 32-character test in the source but fails it here. A name starting with such a character gets half of a surrogate pair as its initial in the source, and the whole character here.
- AdherenceToggle.Rejection: the request fields are optional strings. In the source a truthy id that is not a string finds no row, which is a 404, and a JSON `null` body makes the destructuring throw, which is a 500. The model answers 400 for both.
- The page side of the reminder protocol in lib/utils/notifications.ts is `postMessage` I/O to the service worker. This covers `scheduleSupplementNotifications`, `clearScheduledNotifications` and `showTestNotification`. The worker's handling of those messages is modelled in `ServiceWorker`.
- In app/actions/push-notifications.ts, `subscribeUser`, `unsubscribeUser`, `sendTestNotification` and `cleanupRevokedSubscriptions` are database writes and a fixed payload with no logic of their own. The payload path they share, `sendNotification`, is modelled.
- In lib/env-validation.ts, `isServerEnvironment` probes `window`; it is not modelled. The seed script's own environment check, `process.exit` and `main` (lib/data/seed-limits.ts:1-33, 122-143) are process plumbing.
- The ordering of rows by `created_at` in the database is an input. The supplement list takes the table already in that order.
- The BLE scanning, connection and notification loop of the sniffer (tests/whoop_ble_sniffer/sniff_whoop.py:59-90) is I/O. The RMSSD is stated as its square, because `numpy.sqrt` over floats is not modelled.
- ThresholdViz.PositionInBand: requires that the value lies in the band, because the source calls it only for the band `findBandForValue` found. For the open-ended bands it states only that the result lies in [0, 1], not the estimate formula.
- NutrientLimits.LimitForUserIn: the claim that every slug and age group of the 137-row table has an `all` row or both a male and a female row is not proved. Enumerating the table is beyond what the solver handles here. The lookup's result is stated for any table.
- The rate limiter's random sweep (`Math.random() < 0.01`) is a boolean input of `CheckRateLimit`.

## Findings

| source | as written | input that shows it | evidently intended | confidence | as-written member | corrected member |
|---|---|---|---|---|---|---|
| lib/data/nutrient-limits.ts:494-497 | `hasUpperLimit` tests `safe_level !== null`, so an entry with no `safe_level` field (undefined) counts as limited | `hasUpperLimit("vitamin-k")` is true, although the three vitamin K rows have neither an upper limit nor a safe level | only entries with an upper limit or a numeric safe level count, i.e. those with an effective upper limit | not executed | NutrientLimits.VitaminKCountsAsWritten | NutrientLimits.LimitedMeansEffectiveLimit |
