# Clinic queue ledger

A Dafny model of the queue ledger behind a clinic's walk-in token server. The server keeps
one durable document, `{ lastToken, entries }`. Each entry is a patient's token with the
following parts:

- a status: waiting, arrived, served, skipped or cancelled;
- the instants it was issued, arrived, served and cancelled;
- the client-reported waiting time;
- an estimated wait.

HTTP and socket handlers change the document one request at a time. An estimator derives
the expected wait from the median service time of recently served tokens. Every change is
mirrored to a remote replicated table, and the whole ledger can be rebuilt from a scan of
that table. Live subscribers receive decorated copies of the ledger.

The model is organised as follows.

- `Ledger.QueueLedger` is a class whose fields are the stored document. It has one method
  per handler:
  - take and create a token;
  - cancel and arrive;
  - serve or skip, over HTTP and over the socket;
  - update the elapsed time;
  - reset;
  - reconcile from the remote table;
  - create a token from a kiosk.

  Its invariant `Valid()` states two things: entries are held in ascending token order, and
  no token exceeds `lastToken`. Every method preserves it.
- `Estimator` covers the median service time (`computeAvgServiceSeconds`, as a loop proved
  against a specification function) and the per-entry estimates (`recomputeEstimates`). It
  also covers the `/api/eta` answer.
- `Remote` maps between ledger entries and remote records in both directions. Pull builds a
  ledger from a scan; push builds the record for one entry.
- `Broadcast` holds the decorated snapshots sent to subscribers and returned by
  `/api/queue`.
- `Duration` is the server's `formatDuration`, with a parser proving that its output reads
  back. `ClientFormat` is the browser's `formatDuration`.
- `Policy` covers three small decision rules: who may create tokens over HTTP, the webhook's
  shared-secret gate, and the pairing of a browser's token request with a connected kiosk.
- `Numbers`, `Text`, `Sorting` and `Wrappers` are shared helpers. They provide:
  - `Math.round` as round half up;
  - `Math.max(0, Math.floor(Number(x) || 0))`;
  - decimal printing and digit parsing;
  - `trim`;
  - a stable sort by an integer key.

Instants are whole seconds, and "now" is a parameter of every handler that reads the
clock. A handler that pushes an entry to the remote table returns the pushed entry as
`synced`. The model follows the code as written, including four behaviours:

- `/api/arrive` and HTTP `admin_action` store the document before they recompute
  estimates. The stored waiting entries therefore keep their old estimates (see
  `Ledger.ArriveLeavesLaterEstimateStale`), and only the pushed copy gets the key defaults.
- Socket `admin_action` never recomputes, and it maps every action other than `"serve"` to
  skipped.
- Neither admin action checks the entry's current status.
- `update_elapsed_time` applies to an entry whatever its status.

## Model

| member | source | states |
|---|---|---|
| Ledger.QueueLedger.constructor | server.js:21-25 | The first document is empty: `lastToken` is 0 and there are no entries. |
| Ledger.QueueLedger.RecomputeEstimates | server.js:554-574 | The new entries are `Recomputed(old entries, avg, capacity)`, so each waiting entry gets round(ahead × avg / capacity). The token order and `lastToken` are kept. |
| Ledger.QueueLedger.ApplyEstimates | server.js:560-573 | The `forEach` over the entries: afterwards the entries are `Recomputed(old entries, avg, capacity)`, with `lastToken` kept and the ledger invariant (tokens ascending, none above `lastToken`) preserved. |
| Ledger.QueueLedger.Append | server.js:598-599 | Storing a token whose number is `lastToken + 1` appends exactly that entry, makes its token the new `lastToken`, and keeps the ledger invariant. |
| Ledger.QueueLedger.Issue | server.js:576-601 | The new token is `lastToken + 1` and becomes `lastToken`. Exactly one entry is appended: waiting, issued now, `tokenId` the decimal token, estimate round(waiting count × avg / capacity). Every earlier entry keeps every field but its estimate. |
| Ledger.QueueLedger.CreateTokenEntry | server.js:576-607 | The new token is `lastToken + 1`. The entries become the old ones plus `NewEntry` (waiting, issued now, this clinic's id, decimal `tokenId`, trimmed name, phone and e-mail, `waitingTime` 0), recomputed. The returned entry is that entry with estimate round(waiting count × avg / capacity). Earlier entries keep every field but their estimate, and the token list grows by the new token. |
| Ledger.QueueLedger.Take | server.js:830-877 | Refused with 403 and no change unless the creation policy admits the request. Otherwise the entries become the old ones plus `NewEntry` for `lastToken + 1` (this clinic's id, decimal `tokenId`, trimmed profile fields, `waitingTime` unset), recomputed. The synced entry is that entry with the estimate round(waiting count × avg / capacity). Earlier entries keep every field but their estimate. |
| Ledger.QueueLedger.Cancel | server.js:879-904 | 400 for a missing or zero token. 404 unless a waiting entry has the token. A failure changes nothing. Success happens exactly when such an entry exists: that entry becomes cancelled at now with key defaults, and the estimates are recomputed. |
| Ledger.QueueLedger.Arrive | server.js:907-942 | The same 400/404 rules, and a failure changes nothing. On success the stored entries are the old ones with only that entry arrived at now. Its `waitingTime` becomes max(0, floor(elapsed)) only when an elapsed time was sent. The reply carries that `waitingTime`, and the pushed copy has the key defaults. |
| Ledger.QueueLedger.AdminAction | server.js:951-989 | 400 when the action or token is missing, 404 for an unknown token, 400 for an action other than serve or skip; each failure changes nothing. Otherwise the first entry with the token, whatever its status, becomes served or skipped at now. Its `waitedSeconds` becomes max(0, arrivedAt − timestamp) when unset and it has arrived. No other entry changes. |
| Ledger.QueueLedger.SocketAdminAction | server.js:680-691 | A missing or unknown token changes nothing. Otherwise only the first entry with the token changes: it becomes served for "serve" and skipped for anything else, with `servedAt` now. |
| Ledger.QueueLedger.UpdateElapsedTime | server.js:756-771 | A missing, zero or unknown token changes nothing. Otherwise only the first entry with the token, in any status, changes: its `waitingTime` becomes max(0, floor(Number(elapsed) \|\| 0)), which is never negative. |
| Ledger.QueueLedger.Reset | server.js:944-948 | The document becomes `{ lastToken: 0, entries: [] }`. |
| Ledger.QueueLedger.ReconcileFromRemote | server.js:177-229 | A failed or disabled scan leaves the document unchanged. A scan replaces the document with the pulled state. |
| Ledger.QueueLedger.KioskCreate | server.js:737-752 | A connection not registered as a kiosk gets `not_registered` and nothing changes. Otherwise `lastToken + 1` is acknowledged. The entries become the old ones plus `NewEntry` for the sent profile (an empty profile when none is sent), recomputed. The new entry carries the recomputed estimate, and earlier entries keep every field but their estimate. |
| Ledger.IssueSequence | server.js:576-601 | n creations on a fresh ledger return the tokens 1..n in order, and the ledger holds exactly those tokens in that order. |
| Ledger.IssuedAppend | server.js:583-600 | After an entry with a larger token is appended and estimates are recomputed, the list is still ordered by token. The new entry's estimate is round(waiting count × avg / capacity). Every earlier entry is unchanged apart from its estimate. The token list grows by exactly the new token. |
| Ledger.ArriveLeavesLaterEstimateStale | server.js:931-938 | After an arrive, a waiting entry behind the arrived one keeps a stored estimate that, with one service line, is exactly one average service time above what a recompute of the stored document gives. |
| Ledger.TrimmedField | server.js:579-582 | A profile field is kept exactly when it is present and non-empty, and what is kept is its `Trim`. |
| Ledger.WithKeyDefaults | server.js:893-897 | A non-empty `clinicId` is kept, otherwise it becomes this clinic's id. A non-empty `tokenId` is kept, otherwise it becomes the decimal token. Nothing else changes. |
| Ledger.FirstWaiting | server.js:884-886 | Returns -1 exactly when no entry is a waiting entry with the token; otherwise the first such index. |
| Ledger.FirstWithToken | server.js:956 | Returns -1 exactly when no entry has the token; otherwise the first index holding it. |
| Estimator.ComputeAvgServiceSeconds | server.js:463-497 | The loop that collects durations computes `AvgServiceSeconds`. |
| Estimator.CollectDurations | server.js:474-487 | The loop yields exactly `Samples(served)`: one non-negative duration per served entry, served minus arrived when it arrived and served minus issued otherwise, in order. |
| Estimator.MedianOf | server.js:488-494 | `doubled / 2` is a median of the sorted durations. At least half of them, rounded up, lie at or below it, and as many at or above it. For an even count it is the mean of the two middle durations. `median` is that value rounded half up. |
| Estimator.TwiceMedianIsMedian | server.js:488-494 | The index-based choice (middle element, or mean of the two middle ones) meets the counting statement of a median. |
| Estimator.TwiceMedianUnique | server.js:488-494 | On an ascending list the counting statement allows only that one value, so the median step is fully determined by it. |
| Estimator.NoCompletedMeansDefault | server.js:469-473 | With no served entry that has `servedAt`, the average is the configured default. |
| Estimator.NoSampleMeansDefault | server.js:474-488 | When the recent served entries yield no usable duration (there are none, or every difference is negative), the configured default is returned. |
| Estimator.AvgFromSamples | server.js:488-496 | With at least one usable duration, the average is max(5, round(median of the sorted durations)). |
| Estimator.MedianWithinRange | server.js:489-494 | The rounded median lies between the smallest and the largest duration. |
| Estimator.MedianIgnoresLargestOutlier | server.js:489-496 | With three or more durations, raising the largest one does not move the median. |
| Estimator.TwoSampleMedianExample | server.js:491-494 | An even count averages the two middle durations: [100, 300] gives 200. |
| Estimator.RecentServed | server.js:469-472 | The window holds min(50, number of completed entries) entries. All are served with a serving instant, taken from the completed entries with multiplicity, most recently served first. |
| Estimator.RecentAreMostRecent | server.js:469-472 | A served entry left outside the window was served no later than every entry inside it. |
| Estimator.CompletedEntries | server.js:470 | Every kept entry is served with a serving instant and comes from the input, and every such input entry is kept. |
| Estimator.CompletedEntriesCount | server.js:470 | Each completed entry occurs as often as in the input, and no other entry occurs. |
| Estimator.Samples | server.js:475-487 | Every collected duration is non-negative, with at most one per entry. |
| Estimator.AvgIgnoresAppend | server.js:583-600 | Appending an entry that is not a completed service leaves the average unchanged. |
| Estimator.AvgIgnoresUpdate | server.js:887-892 | Replacing an uncompleted entry with another uncompleted entry leaves the average unchanged. |
| Estimator.Capacity | server.js:567-570 | The capacity is never below one. |
| Estimator.Recomputed | server.js:554-574 | Keeps the number of entries. |
| Estimator.RecomputedMeaning | server.js:554-574 | After a recompute only estimates differ. A non-waiting entry is untouched. A waiting entry's estimate is ahead × avg / capacity rounded half up. |
| Estimator.EstimatesFollowTokenOrder | server.js:561-571 | Of two waiting entries, the smaller token never gets the larger estimate. |
| Estimator.FrontOfQueueWaitsZero | server.js:561-571 | The waiting entry with the smallest token is estimated at 0. |
| Estimator.RecomputedKeepsQueue | server.js:554-574 | A recompute keeps every token and status. |
| Estimator.Eta | server.js:992-1014 | A missing or zero token is a 400 error, and only such a token is. |
| Estimator.EtaMatchesEstimate | server.js:992-1014 | For a waiting token the eta succeeds. The recomputed estimate is the eta seconds divided by the capacity and rounded, because the eta itself is ahead × avg with neither scaling nor rounding. With one service line the two are equal. |
| Queue.AheadCountIsCount | server.js:563-565 | The ahead count is the number of waiting entries with a smaller token. |
| Queue.AheadCountMonotone | server.js:563-565 | A smaller token never has more entries ahead of it. |
| Queue.AheadOfNewestIsWaitingCount | server.js:584-585 | For a token above every held token, the ahead count is the number of waiting entries. |
| Queue.AheadCountSameQueue | server.js:563-565 | The ahead count depends only on tokens and statuses. |
| Queue.AheadCountLeave | server.js:912-920 | When a waiting entry with a smaller token stops waiting, one fewer entry is ahead. |
| Queue.AheadCountAppend | server.js:599-600 | Appending an entry adds one to the ahead count exactly when the new entry is waiting with a smaller token. |
| Queue.FindIndex | server.js:884-886 | Returns the first index satisfying the predicate, or -1 when there is none. |
| Queue.ParseStatus | server.js:205 | Reading a status text gives a status that prints back as the same text. |
| Queue.StatusRoundTrip | server.js:205 | A status the server writes reads back as itself. |
| Duration.Parts | server.js:503-514 | For s ≥ 1: one to three components, largest unit first, non-zero amounts, minutes and seconds below 60, summing to s. |
| Duration.FormatDuration | server.js:500-503 | Null exactly for a missing value; "<1s" below one second. |
| Duration.ParseRender | server.js:509-516 | Components joined by single spaces read back as the same components. |
| Duration.FormatParseRoundTrip | server.js:500-516 | For s ≥ 1 the text reads back as exactly s seconds. |
| Duration.BelowOneSecondIsDistinct | server.js:503 | "<1s" is not the text of any whole duration. |
| Duration.FormatHourExample | server.js:511-514 | 3600 is "1h": zero minutes and seconds are omitted. |
| Duration.FormatMinuteSecondExample | server.js:511-514 | 61 is "1m 1s". |
| Duration.FormatMixedExample | server.js:505-515 | 3725 is "1h 2m 5s". |
| ClientFormat.FormatDurationClient | public/app.jsx:5-17 | "-" exactly for a missing value, and the result is never empty. |
| ClientFormat.ClientBelowOneSecond | public/app.jsx:7-8 | NaN, negatives and fractions below one give "<1s". |
| ClientFormat.ClientReadsBackFloor | public/app.jsx:7-16 | A value of at least one second reads back as its floor. |
| ClientFormat.ClientAgreesWithServer | public/app.jsx:5-17 | On whole seconds the browser and the server produce the same text. |
| Remote.RecordToken | server.js:188-194 | A non-zero `token` attribute wins. Otherwise the number spelled by the digits of a non-empty `tokenId` is used. The result is absent exactly when neither yields a non-zero number, and it is never 0. |
| Remote.PulledEntry | server.js:193-214 | The pulled entry carries the record's token and no e-mail, estimate or `waitedSeconds`. Its status is waiting when the record has none, otherwise the status whose name is the record's text. |
| Remote.PulledEntries | server.js:186-215 | Records without a token are dropped, so every kept token is non-zero. |
| Remote.MaxToken | server.js:217-220 | The largest token, attained by some entry, or 0 for none. |
| Remote.PullProperties | server.js:186-221 | A pull keeps exactly the records with a token, as a permutation sorted by token. `lastToken` is the last (largest) token, or 0 when none remain. |
| Remote.PushedWaitingTime | server.js:404-432 | A set non-zero `waitingTime` is kept (clamped at 0). Otherwise the issue-to-arrival wait is used when the entry arrived. Otherwise the value is (waiting entries ahead in the stored ledger) × average, unscaled by capacity. The value is never negative. |
| Remote.PutItem | server.js:365-398 | Keys are always present. The tokenId is kept or becomes the decimal token. Renamed and truthy-only attributes follow the code. `servedAt` is never written. |
| Remote.PushPullRoundTrip | server.js:186-432 | Pushing an entry and pulling the record back restores its token, key, contact details, instants and status. The serving instant, e-mail, estimate and `waitedSeconds` are lost. |
| Remote.PulledPushesForgetServiceTimes | server.js:463-473 | A ledger rebuilt from records the server pushed falls back to the default average. |
| Policy.IsTokenCreationAllowed | server.js:131-145 | Allowed exactly when web tokens are allowed, or when the configured non-empty secret equals the first non-empty admin header. |
| Policy.NoSecretDeniesAll | server.js:131-145 | With web tokens off and no secret, every request is refused. |
| Policy.AdminTokenHeaderWins | server.js:138-141 | A non-empty wrong `x-admin-token` is refused even when `x-admin-secret` is right. An empty one falls through to `x-admin-secret`. |
| Policy.WebhookGate | server.js:1082-1092 | Proceeds exactly when a table is configured and either no secret is set or the header equals it. Otherwise it is 400 or 403. |
| Policy.Register | server.js:695-708 | Announcing the kiosk role marks the connection as a kiosk; any other role leaves it unchanged. |
| Policy.RequestToken | server.js:712-733 | Forwarded to the first kiosk, under the caller's request id or a fresh one. `no_kiosk_connected` exactly when no connection is a kiosk. |
| Policy.PairingIgnoresLaterKiosks | server.js:714-716 | Connections after the chosen kiosk do not change the choice. |
| Broadcast.BroadcastPayload | server.js:315-343 | The payload has the ledger's `lastToken`, one copy per entry, and the average service time. |
| Broadcast.BroadcastCopies | server.js:320-340 | A copy differs from its stored entry only in `waitedSeconds`. Entries whose status is not waiting, arrived, served or cancelled (skipped, or any other status text) are copied verbatim with no human text. Only those four statuses get `waitingTime \|\| 0`. |
| Broadcast.BroadcastHumanReadsBack | server.js:327-339 | The human text is null exactly when no waiting time is stored, and reads back as the waiting time when that is at least 1. |
| Broadcast.QueueView | server.js:813-828 | The response has one copy per entry and no average. |
| Broadcast.QueueViewCopies | server.js:817-826 | Copies are verbatim plus a human-readable wait that reads back. |
| Numbers.RoundDiv | server.js:571 | `Math.round(p / q)` rounds half up: \|2qr − 2p\| is at most q, and exactly q only when rounding up. |
| Numbers.RoundDivMonotone | server.js:571 | Rounding keeps the order of numerators. |
| Numbers.WholeSeconds | server.js:765-768 | Non-negative; the floor of a non-negative finite value. It is 0 exactly for NaN and values below 1. |
| Text.IntToString | server.js:597 | `String(n)`: a non-empty string of digits, with a leading minus for negatives. |
| Text.DigitsValueOfNatToString | server.js:191 | Parsing the decimal text of n gives n. |
| Text.TokenDigitsRoundTrip | server.js:191 | The digits of a token's text parse back to the token's magnitude. |
| Text.KeepDigits | server.js:191 | Only digits remain, and the result is no longer than the input. |
| Text.KeepDigitsCount | server.js:191 | Every digit of the input is kept, as often as it occurs. |
| Text.KeepDigitsConcat | server.js:191 | The digits of a concatenation are the digits of each part, in order. |
| Text.KeepDigitsAppend | server.js:191 | One more character adds itself exactly when it is a digit. |
| Text.Trim | server.js:579-582 | The result is a contiguous slice of the input with no white space at either end. |
| Text.TrimIdempotent | server.js:579-582 | Trimming twice is trimming once. |
| Sorting.SortBy | server.js:219 | The result is sorted by the key, is a permutation of the input, and has the same length. |
| Sorting.SortBySorted | server.js:219 | Sorting a sorted list changes nothing. |

## Left out

- Remote table, e-mail and broker calls are not modelled: the scan, put and update requests, the connectivity check, the notification messages and the published updates. A scan reaches the model as a list of records, and a push yields the record it would write. The elapsed-time handler's remote update of `waitingTime` is left out for the same reason.
- Transport is not modelled: HTTP routing, socket events, fan-out to subscribers and the debug and kiosk-list endpoints. Handlers are methods that return a reply.
- File storage is not modelled. The object's fields are the stored document, and there is no concurrent access.
- Clock and randomness are parameters. Handlers take "now". The fresh fallback tokenId of a push (`freshId`) and the fresh request id of a pairing (`freshId`) are passed in.
- Ledger.QueueLedger.Cancel, Arrive and AdminAction: the fallback tokenId built from the clock and randomness for an entry whose token is falsy cannot occur here, because the looked-up token is non-zero.
- Ledger.QueueLedger.AdminAction: the `try`/`catch` around the `waitedSeconds` computation is not modelled, because integer instants cannot fail to parse.
- Ledger.QueueLedger.KioskCreate: the `kiosk_create_failed` reply with an exception message is not modelled. It comes from a failure inside `createTokenEntry`, such as the file write; the e-mail notification catches its own errors. The `token_issued` announcement is not modelled either.
- Ledger.QueueLedger.Cancel, Arrive and AdminAction: the body token is a number here. The handlers compare it with `===`, so a token sent as text (`"5"`) finds no entry and gets 404; the model cannot express such a request.
- `formatTime`/`formatDateTime` and the `*Formatted` attributes of a pushed record are not modelled, because they depend on the local time zone.
- Fractional seconds are not modelled. Instants and durations are whole seconds, so the server `formatDuration` on fractional input, and date strings that fail to parse (`isFinite`), are not modelled.
- Duration.FormatDuration takes a whole number or nothing. The `""` input, which also gives null, is not representable.
- Remote.RemoteItem stores `waitingTime` and `token` as numbers. The table stores `waitingTime` as decimal text, and a text `"0"` is truthy where the number 0 is not.
- Remote.PutItem: the follow-up removal of the deprecated attributes (`waitedSeconds`, `estimatedWaitSeconds`, `arrivalTime`) is not modelled, because it is a remote call.
- Client numbers are finite reals or NaN. Infinity is left out.
- Configuration is not modelled: environment parsing, the default average and the capacity are fields of `Ledger.Config`, and the startup poll loop is left out.
- Sorting.SortBy is stable by construction, as the JavaScript sort is, but stability itself is not stated as a property.
- Browser state, effects and timers are not modelled; only the browser's `formatDuration` is. Kiosk example devices, provisioning scripts and the e-mail test client are not part of this model.
