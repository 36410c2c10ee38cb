# Call transcripts: store, API, live room and dashboards

This project models the core of a call-transcript system. It has four parts.

- **Back end.** A Cloudflare Worker stores calls and their transcript segments (`cf/src/db.js`). It answers an ingest and read API, with ingest guarded by a bearer token (`cf/src/index.js`, `cf/src/auth.js`). It forwards each change to a per-call live room (`cf/src/callRoom.js`), which keeps a registry of viewer sockets and relays broadcasts to them.
- **Static dashboard** (`cf-pages/app.js`).
- **React dashboard** (`dashboard/src/App.tsx`).

Both dashboards keep a transcript buffer that drops repeated seqs and tracks the largest seq. They also keep a call list that is updated by id, counted and filtered, and they export a transcript as CSV.

The model is split by module:

- `Js` (`js_values.dfy`): JavaScript values as the source reads them (`Number()`, truthiness, `||`).
- `Text` (`text.dfy`): decimal text and string order.
- `Http` (`http.dfy`): response shapes.
- `Auth` (`auth.dfy`): the bearer-token check.
- `Db` (`db.dfy`): the store. It is the `CallStore` class, with both tables as maps, one method per query, and the specification functions and lemmas they are proved against.
- `Api` (`api.dfy`): the router and the handlers.
- `Room` (`call_room.dfy`): the `CallRoom` class.
- `Dashboard` (`dashboard.dfy`): what the two dashboards share.
- `PagesApp` (`pages_app.dfy`): the static dashboard's global `state`, as the `Board` class.
- `ReactApp` (`react_app.dfy`): the React dashboard's transcript state, as the `TranscriptView` class.

## Model

| member | source | states |
|---|---|---|
| Auth.GetBearerToken | cf/src/auth.js:1-5 | A token exists exactly when the header splits into a case-insensitive `Bearer`, at least one space, and a non-empty rest on one line. The token is that rest, which is never empty, and the space run before it is taken greedily. |
| Auth.BearerTokenRoundTrip | cf/src/auth.js:3-4 | A header written as any casing of `bearer`, a space and a token parses back to that token. |
| Auth.RequireIngestAuth | cf/src/auth.js:7-16 | The check passes exactly when the token is present, `INGEST_TOKEN` is non-empty, and the two are equal. Every refusal is a 401 with code `unauthorized`. |
| Db.ToSeconds | cf/src/db.js:5-11 | A falsy or non-finite input gives "now". A value above 1e12 is milliseconds and gives its floor divided by 1000. Any other value gives its floor. |
| Db.ToSecondsKeepsSeconds | cf/src/db.js:5-11 | A non-zero whole number of seconds comes back unchanged. |
| Db.ToInteger | cf/src/db.js:13-17 | A non-finite input gives the fallback, and a finite one gives its floor. |
| Db.Clamp | cf/src/db.js:19-24 | When min ≤ max, the result lies in [min, max]. An in-range input gives its floor. A floor below min gives min, and one above max gives max. A non-numeric input gives the fallback, saturated the same way. |
| Db.ClampIdempotent | cf/src/db.js:19-24 | Clamping a clamped value changes nothing. |
| Db.CursorRoundTrip | cf/src/db.js:26-37 | Decoding an encoded cursor gives back the same (started_at, call_id) pair. |
| Db.EncodeCursor | cf/src/db.js:26-28 | A cursor always encodes to non-empty text, so a page that has a next cursor hands back a truthy one. Its inverse is `Db.CursorRoundTrip`. |
| Db.DecodeCursor | cf/src/db.js:30-37 | An absent or empty cursor gives no cursor. So does text that does not parse, such as text with no separator. A decoded call id is strictly shorter than the text. |
| Db.UpsertIdempotent | cf/src/db.js:97-138 | Upserting the same payload twice leaves the table as one upsert does. |
| Db.UpsertRunStarted | cf/src/db.js:110 | After a run of upserts on one call, `started_at` is the first non-null value offered, with the existing row's value first. |
| Db.UpsertRunNewest | cf/src/db.js:111-116 | For any column the conflict clause sets to `COALESCE(excluded.c, calls.c)`, after a run of upserts the column holds the last non-null value offered. |
| Db.UpsertRunKeeps | cf/src/db.js:108-117 | After a run of upserts, `status` and `updated_at` are the last payload's. `last_seq` and `created_at` are the first row's. |
| Db.UpsertRunMerge | cf/src/db.js:104-118 | Over any run of upserts: `started_at` is the first non-null value offered. `ended_at`, `from_uri`, `to_uri`, `provider`, `conference_name` and `call_token` are each the last non-null one. `status` and `updated_at` are the last upsert's. `last_seq`, `created_at` and `call_id` are the first row's. |
| Db.UpsertKeepsLastSeq | cf/src/db.js:108-117 | An upsert never changes the `last_seq` of an existing call. |
| Db.RaiseLastSeqMonotone | cf/src/db.js:159-165 | The `last_seq` update never lowers any call's `last_seq`, adds no call, and leaves the updated call at least at the inserted seq. |
| Db.BeforeTransitive | cf/src/db.js:60 | The listing order (started_at DESC, call_id DESC, nulls last) is transitive. |
| Db.BeforeTotal | cf/src/db.js:60 | Any two distinct calls are ordered one way or the other. |
| Db.TrimFetched | cf/src/db.js:54-74 | Fetching `limit + 1` rows yields more than `limit` exactly when more than `limit` calls qualify. The first `limit` rows are then the page. |
| Db.NextPageContinues | cf/src/db.js:48-61 | A page fetched with the cursor of the previous page's last row continues it. The two pages together are the listing of the first query, in order and without repeats. |
| Db.NullStartedAtPageRepeats | cf/src/db.js:48-51 | As written, a cursor whose `started_at` is null is ignored, so the next page starts over with the same first row. |
| Db.NullStartedAtSkipped | cf/src/db.js:48-51 | As written, a row with a null `started_at` never qualifies after a cursor with a non-null one, so it is skipped. |
| Db.CallStore.constructor | cf/src/db.js:39-168 | The store starts with empty `calls` and `transcript_segments` tables. |
| Db.CallStore.UpsertCall | cf/src/db.js:97-138 | The calls table becomes the insert or the merged row, and segments are untouched. `last_seq` is kept. The result is `{status, ts, ended_at}`, with `status` defaulting to `incoming` and `ended_at = ts` for an `end` event. |
| Db.CallStore.InsertTranscript | cf/src/db.js:140-168 | The segment is inserted exactly when its (call_id, seq) is new. Only then is the call's `last_seq` raised to max(last_seq, seq) and `updated_at` set. An ignored row changes nothing. |
| Db.CallStore.FetchCall | cf/src/db.js:79-86 | The call's detail when the id is stored, and nothing otherwise. |
| Db.CallStore.FetchTranscript | cf/src/db.js:88-95 | The segments of the call with seq > afterSeq, in ascending seq, at most `limit` of them. These are the smallest such seqs. |
| Db.CallStore.SelectListing | cf/src/db.js:56-63 | The first `n` candidates in listing order: ordered, distinct, and with every omitted candidate after them. |
| Db.CallStore.FetchCalls | cf/src/db.js:39-77 | With the corrected cursor clause (see Findings): a page holds at most `limit` items in listing order. `next_cursor` is present exactly when more than `limit` rows match, and it then encodes the last item's (started_at, call_id). |
| Db.Candidates | cf/src/db.js:43-51 | Corrected cursor clause: every candidate is a stored call whose status matches the filter. With no cursor, every matching call is a candidate. With a cursor, every candidate sorts after the cursor in listing order, and a matching call with a NULL `started_at` is always a candidate after a cursor whose `started_at` is set. |
| Db.CandidatesAsWritten | cf/src/db.js:43-51 | Clause as written: every candidate is a stored call whose status matches. A cursor with a NULL or zero `started_at` or an empty call id is ignored, and every matching call is a candidate. Once the cursor applies, no call with a NULL `started_at` is a candidate. |
| Api.Segments | cf/src/index.js:189 | The path split on `/` with empty parts dropped: no part is empty or holds a slash. |
| Api.SegmentsOfJoin | cf/src/index.js:189 | Splitting the slash-join of non-empty, slash-free parts gives back those parts. |
| Api.RouteOf | cf/src/index.js:183-232 | OPTIONS is a preflight for every path. Under `/ingest`, any method but POST gets 405, POST to `call` or `transcript` reaches that handler, and POST to anything else gets 404. Under `/api/calls` and `/ws/calls/{id}`, any method but GET gets 405. A GET on `/api/calls` lists with two segments, shows a call with three, and shows its transcript with `transcript` as the fourth. Any other GET there gets 404. A path under none of these prefixes gets 404. |
| Api.CallActionsRejected | cf/src/index.js:204-222 | The dashboards' `POST /api/calls/{id}/actions/{action}` always gets 405, and a GET on it gets 404. |
| Api.ListRouted | cf/src/index.js:204-210 | `GET /api/calls` reaches the list handler. |
| Api.DetailRouted | cf/src/index.js:211-217 | `GET /api/calls/{id}` reaches the detail handler for that id. |
| Api.TranscriptRouted | cf/src/index.js:211-220 | `GET /api/calls/{id}/transcript` reaches the transcript handler for that id. |
| Api.SocketRouted | cf/src/index.js:224-229 | `GET /ws/calls/{id}` goes to that call's room. |
| Api.IngestStatusStored | cf/src/index.js:73-82 | The stored status is the payload's, else `ended` for an `end` event, else `incoming`. It is never empty, and it is the status a `call.status` broadcast announces. |
| Api.IngestEvent | cf/src/index.js:73 | The event is the payload's when it is a non-empty string, else `status`. It is never empty. |
| Api.IngestStatus | cf/src/index.js:74 | The status is the payload's when it is a non-empty string. Otherwise it is `ended` exactly for an `end` event, and `incoming` for any other event. It is never empty. |
| Api.StatusBroadcast | cf/src/index.js:84-92 | A `call.status` message is sent exactly for a `start` or `end` event or a payload with a status. It carries the call's id and the stored status. Its `ended_at` is the event time for `end`, and otherwise the payload's normalised `ended_at` or null. |
| Api.IngestStartSetsStartedAt | cf/src/index.js:73-82 | After a `start` event the row has a `started_at`, and an existing one is kept. |
| Api.IngestEndBroadcastMatchesRow | cf/src/index.js:84-92 | For an `end` event whose normalised time is a non-zero whole number of seconds, the broadcast's `ended_at` is the `ended_at` the row now holds. |
| Api.IngestEndBroadcastDiverges | cf/src/index.js:75-92 | An `end` at `ts` 0.5 is broadcast with `ended_at` 0, while the row stores the clock's time. |
| Api.ListLimit | cf/src/index.js:144 | The list limit lies in [1, 200]. It defaults to 50 and keeps a given in-range value. |
| Api.TranscriptLimit | cf/src/index.js:162 | The transcript limit lies in [1, 1000]. It defaults to 200 and keeps a given in-range value. |
| Api.ListLimitAsWritten | cf/src/index.js:144 | Limit as written: it lies in [1, 200] and keeps a given in-range value, but an absent `limit` gives 1, not 50. |
| Api.TranscriptLimitAsWritten | cf/src/index.js:162 | Limit as written: it lies in [1, 1000] and keeps a given in-range value, but an absent `limit` gives 1, not 200. |
| Api.AfterSeq | cf/src/index.js:161 | `after_seq` lies in [0, MAX_SAFE_INTEGER]. It defaults to 0 and keeps a given in-range value. |
| Api.LimitDefaultsUnreachable | cf/src/index.js:144 | As written, an absent `limit` yields 1 for both endpoints, not the defaults 50 and 200. |
| Api.LimitsAgreeWhenGiven | cf/src/index.js:162 | With a non-empty `limit`, the as-written and corrected limits agree. |
| Api.HandleIngestCall | cf/src/index.js:58-95 | In order: auth failure gives 401, a bad body 400 and a missing `call_id` 400, each with no store write. Otherwise the call is upserted, the answer is 200, and a status broadcast goes out only for start or end events or a given status. Segments are untouched. |
| Api.HandleIngestTranscript | cf/src/index.js:97-139 | Auth first, then a 400 for a bad body, a missing `call_id`, a non-numeric seq or empty text, each leaving the store alone. Otherwise `inserted` is true exactly when the (call_id, seq) pair is new. Only then is the segment stored, with speaker defaulting to `system`, the call's `last_seq` raised and `updated_at` set, and a `transcript.segment` broadcast posted. |
| Api.IngestTranscriptRetried | cf/src/index.js:121-136 | A transcript post retried after it succeeded changes nothing, is answered `inserted: false`, and posts nothing. |
| Api.HandleCallsList | cf/src/index.js:141-149 | With the corrected limit and cursor clause (see Findings): a 200 page of the store's listing for the status and cursor, at most the limit. `next_cursor` is present exactly when more calls qualify. |
| Api.HandleCallDetail | cf/src/index.js:151-157 | The call's detail with 200, or a 404 `not_found`. |
| Api.HandleTranscript | cf/src/index.js:159-173 | With the corrected limit default (see Findings): the transcript page for the clamped `after_seq` and limit, with the call's `last_seq` (0 when the call is absent). |
| Api.Fetch | cf/src/index.js:183-232 | OPTIONS gives 204, a disallowed method 405 and an unknown path 404, and a socket path goes to the call's room when `CALL_ROOM` is bound and otherwise throws (index.js:175-176 has no guard). None of them touches the store. Each other route gets exactly its handler's answer and store effect, as the handler states it (reads with the corrected limits; see Findings). |
| Room.DeliveredOnce | cf/src/callRoom.js:131-141 | After a broadcast, each registered client whose send did not fail received the message exactly once, and a failing one received nothing. |
| Room.LatchKeepsFirst | cf/src/callRoom.js:56-59 | `callId` is the first `x-call-id` header ever seen, and later headers never change it. |
| Room.DeliverAll | cf/src/callRoom.js:131-141 | The send loop: the registry loses exactly the failing clients, keeps the others in order, and sends the message to each survivor. |
| Room.ApiPostAuthorized | cf/src/index.js:37-50 | A broadcast posted by the API carries the token the room accepts. |
| Room.SocketAfterSeq | cf/src/callRoom.js:74 | A socket's `after_seq` lies in [0, MAX_SAFE_INTEGER], defaults to 0, and keeps a given in-range value. |
| Room.SnapshotCallOf | cf/src/callRoom.js:91-107 | A missing call becomes the placeholder with status `unknown` and `last_seq` 0. Otherwise the snapshot is the stored row. |
| Room.CallRoom.constructor | cf/src/callRoom.js:6-16 | No `callId` yet. Every surviving socket is registered with its attachment, or `{afterSeq: 0}`. |
| Room.CallRoom.Attach | cf/src/callRoom.js:18-39 | The socket is registered once, with meta from the override, then the attachment, then `{afterSeq: 0}`. |
| Room.CallRoom.Remove | cf/src/callRoom.js:29-38 | A close or error removes exactly that socket. |
| Room.CallRoom.OnMessage | cf/src/callRoom.js:41-52 | A `ping` frame is answered with one `pong` to that socket. Any other frame sends nothing. |
| Room.CallRoom.HandleBroadcast | cf/src/callRoom.js:114-147 | A missing or wrong token gives 403. A bad or null body gives 400. Neither sends anything nor changes the registry. Otherwise the message is delivered and the failing clients are dropped. |
| Room.CallRoom.Deliver | cf/src/callRoom.js:131-141 | The registry and the sends after a broadcast, as `DeliverAll` states them. |
| Room.CallRoom.HandleWebSocket | cf/src/callRoom.js:72-89 | The socket is registered with the clamped `after_seq` and gets one snapshot of the segments after it, at most 200, ascending. The answer is 101. |
| Room.CallRoom.Fetch | cf/src/callRoom.js:54-70 | The id is latched. A path ending `/broadcast` is handled as a broadcast before the upgrade check: 403, 400, or 200 with the failing sockets dropped and the message sent to each survivor. A websocket upgrade registers the socket and sends it the snapshot. Everything else is 404 and changes nothing. |
| Dashboard.Apply | cf-pages/app.js:472-478 | Each of `status`, `started_at`, `ended_at`, `last_seq` and `updated_at` takes the update's value when the update has that key, and is kept otherwise. The id and URIs are kept. An empty update changes nothing. |
| Dashboard.MaxSeq | cf-pages/app.js:414 | `lastSeq` is at least 0 and at least every seq, and is 0 or some segment's seq. |
| Dashboard.NewSegmentsSeqs | cf-pages/app.js:404-415 | The appended segments have distinct seqs. With the old set, they cover exactly the batch's seqs. |
| Dashboard.NewSegmentsAppend | cf-pages/app.js:410-415 | Two batches append what the first keeps, then what the second keeps, in arrival order. |
| Dashboard.NewSegmentsRedelivered | cf-pages/app.js:410-415 | A batch delivered again adds nothing. |
| Dashboard.AppendKeepsInv | cf-pages/app.js:404-415 | After an append, the seq set is the transcript's seqs, no seq repeats, and `lastSeq` has not decreased. |
| Dashboard.MaxSeqConcat | cf-pages/app.js:414 | The largest seq after an append is the larger of the old `lastSeq` and the appended seqs' maximum. |
| Dashboard.CsvEscapeRoundTrip | cf-pages/app.js:680-684 | A CSV reader recovers the text from its quote-doubled form. |
| Dashboard.CsvEscape | cf-pages/app.js:682 | Quote doubling never shortens the text and leaves text without quotes unchanged. Its inverse is `Dashboard.CsvEscapeRoundTrip`. |
| Dashboard.CsvFieldCloses | dashboard/src/App.tsx:503-504 | The quoted text field ends at its closing quote, whatever quotes the text holds. |
| Dashboard.CsvLineSeq | dashboard/src/App.tsx:504 | A row's first column reads back as the segment's seq. |
| Dashboard.CsvLine | dashboard/src/App.tsx:503-504 | A row starts with the segment's seq and a comma, and ends with the closing quote of the text field. |
| Dashboard.ExportCsvLines | dashboard/src/App.tsx:501-506 | The header `seq,ts,speaker,text`, then one row per segment in transcript order. |
| Dashboard.TrimUri | dashboard/src/App.tsx:57-60 | A falsy value gives `-`. Otherwise the result is the value less one leading `sip:`, then one leading `tel:`. |
| Dashboard.TrimUriOfAddress | dashboard/src/App.tsx:57-60 | A bare number, a `sip:` address and a `tel:` address all trim to the number. |
| Dashboard.NormalizeBase | dashboard/src/App.tsx:53-55 | The result is a prefix with no trailing slash, and everything removed was a slash. |
| Dashboard.NormalizeBaseIdempotent | dashboard/src/App.tsx:53-55 | Normalising twice equals normalising once, and trailing slashes added to a normalised base are removed again. |
| Dashboard.SegmentTimeMillis | dashboard/src/App.tsx:67-73 | Falsy or non-finite input shows `-`. Values below 1e12 are seconds (×1000), and others are milliseconds. |
| Dashboard.SecondsAndMillisAgree | dashboard/src/App.tsx:67-73 | A time given in seconds and the same time in milliseconds show the same instant. |
| Dashboard.JsRem | cf-pages/app.js:109-114 | `%` takes the sign of the dividend. |
| Dashboard.DurationRecombines | cf-pages/app.js:109-114 | For a positive duration, minutes and seconds are whole, the seconds are below 60, and they add back to the duration. |
| Dashboard.DurationParts | cf-pages/app.js:109-113 | There are no parts exactly for 0 seconds. Otherwise the minutes are the floor of seconds / 60, and the seconds are the truncated remainder. That remainder lies strictly between -60 and 60, differs from the duration by a multiple of 60, and has the duration's sign. |
| Dashboard.FormatDuration | cf-pages/app.js:109-114 | The text is `-` exactly for 0 seconds. Any other duration prints as text ending in `s`. |
| Dashboard.SummaryCounts | dashboard/src/App.tsx:538-548 | Each count is the number of calls with that status, and other statuses are ignored. |
| Dashboard.Tally | dashboard/src/App.tsx:540-545 | One step adds one to the count named by a `live`, `incoming` or `ended` status and leaves the other counts unchanged. Any other status adds nothing. |
| Dashboard.SummaryOf | dashboard/src/App.tsx:538-548 | The three counts together never exceed the number of calls. The exact counts are `Dashboard.SummaryCounts`. |
| Dashboard.FilterCalls | dashboard/src/App.tsx:528-536 | An empty term returns the list. Otherwise exactly the calls whose id or trimmed from/to, lower-cased, contains the term. |
| Dashboard.FilterAppend | dashboard/src/App.tsx:528-536 | Filtering distributes over concatenation, so it keeps list order. |
| Dashboard.Matches | dashboard/src/App.tsx:530-535 | A call matches when its lower-cased id, trimmed from URI or trimmed to URI contains the term. |
| Dashboard.Keep | cf-pages/app.js:193-198 | The kept calls are exactly the listed calls that match the term, and there are never more of them than listed calls. |
| Dashboard.IsActionable | cf-pages/app.js:237-240 | An actionable call is loaded and neither `ended` nor `failed`. A loaded live, incoming or status-less call is actionable. |
| Dashboard.ActionsEnabled | cf-pages/app.js:242-246 | The buttons are disabled while an action is in flight, with no selected call, or with no detail loaded. When enabled, the detail is actionable. |
| Dashboard.EnabledActionsRefused | dashboard/src/App.tsx:524-526 | Whenever the action buttons are enabled, the request they send is refused with 405. |
| Dashboard.FirstIndex | cf-pages/app.js:473 | The first call with the id, or none when no call has it. |
| Dashboard.UpdateFirst | cf-pages/app.js:472-478 | The first call with the id gets the update merged in, and every other entry is unchanged. Nothing changes when no call has the id. |
| PagesApp.PushAll | cf-pages/app.js:410-415 | The push loop appends exactly the new segments in order and records their seqs. The count is their number, and `lastSeq` becomes max(old, their largest seq). |
| PagesApp.Board.constructor | cf-pages/app.js:41-64 | An empty buffer with `lastSeq` 0, nothing pending, no timer and no selection. |
| PagesApp.Board.AppendSegments | cf-pages/app.js:404-450 | An empty batch changes nothing. Otherwise the segments with new seqs are appended in order and their seqs recorded. Pending is reset when auto-scroll is on and the view is near the bottom, and otherwise grows by the number added. |
| PagesApp.Board.PushNew | cf-pages/app.js:410-415 | The push loop on the buffer fields, as `PushAll` states it. |
| PagesApp.Board.ClearTranscript | cf-pages/app.js:378-389 | Empty transcript and seq set, `lastSeq` 0, nothing pending. |
| PagesApp.Board.UpdateCallSummary | cf-pages/app.js:201-214 | The summary is the live/incoming/ended count of the list. |
| PagesApp.Board.UpdateCallInList | cf-pages/app.js:472-478 | The list becomes the first-match update and is recounted. When no call matches, nothing changes. |
| PagesApp.Board.ScheduleReconnect | cf-pages/app.js:619-627 | A timer starts only when none is pending and a call is selected, so at most one is ever live. |
| PagesApp.Board.ReconnectFires | cf-pages/app.js:621-625 | The fired timer frees its slot. It reconnects only when the socket is not connected. |
| PagesApp.Board.DisconnectWebSocket | cf-pages/app.js:608-617 | A pending reconnect timer is cleared. |
| PagesApp.Board.OnSnapshot | cf-pages/app.js:482-490 | A loaded detail takes the call's id, status, `started_at`, `ended_at` and `last_seq`, and keeps its URIs and `updated_at`. With no detail loaded, the call becomes the detail. The first list entry with the id takes the same keys. Then the segments are appended, with the pending count as `AppendSegments` states it. |
| PagesApp.Board.OnSegment | cf-pages/app.js:492-500 | The segment is appended. With a detail loaded, its `last_seq` becomes max(its `last_seq` or 0, the seq), nothing else of it changes, and the selected call's list entry gets that `last_seq` with the time. With none loaded, the detail and list are untouched. |
| PagesApp.Board.OnStatus | cf-pages/app.js:502-511 | With a detail loaded, it takes the status, and the `ended_at` only when that is non-zero, with nothing else changed. The list entry of the message's call takes both as sent. With none loaded, nothing changes. |
| PagesApp.Board.HandleWsMessage | cf-pages/app.js:480-512 | A snapshot, segment or status message has exactly the buffer, detail and list effects that `OnSnapshot`, `OnSegment` and `OnStatus` state. A status message leaves the buffer alone, and any other type changes nothing. |
| ReactApp.FiniteSegments | dashboard/src/App.tsx:234-235 | Segments with a non-finite seq are dropped, and none are added. When every seq is finite, the result is the whole batch, element by element. |
| ReactApp.FiniteSegmentsMembers | dashboard/src/App.tsx:234-235 | Every segment with a finite seq is kept, and everything kept comes from one. |
| ReactApp.FiniteSegmentsAppend | dashboard/src/App.tsx:234-235 | Filtering two batches and concatenating equals filtering their concatenation, so batch order is kept. |
| ReactApp.Reduce | dashboard/src/App.tsx:231-245 | The updater's loop appends exactly the segments with a finite, unseen seq, in order, and adds their seqs to the ref. `added` is their number. |
| ReactApp.AppendOutcome | dashboard/src/App.tsx:247-248 | `addedMaxSeq` is max(old `lastSeq`, the appended seqs). When nothing was added, nothing changed. |
| ReactApp.TranscriptView.constructor | dashboard/src/App.tsx:129-154 | An empty transcript and seq set, `lastSeq` 0, nothing pending. |
| ReactApp.TranscriptView.AppendSegments | dashboard/src/App.tsx:223-259 | New segments follow the old ones, and `lastSeq` becomes the max. Pending grows by `added` unless the view scrolls. A batch with nothing new changes nothing. |
| ReactApp.TranscriptView.Reset | dashboard/src/App.tsx:604-627 | Changing the selection clears the detail, the transcript, the seq set, `lastSeq` and pending. |
| ReactApp.UpdateAll | dashboard/src/App.tsx:219-221 | Every call with the id gets the update merged in, and the others are untouched. |
| ReactApp.UpdateAllIsUpdateFirst | dashboard/src/App.tsx:219-221 | With distinct ids, the React update equals the static dashboard's first-match update. |

## Left out

- I/O is not modelled: the D1 engine, `fetch` to the room, `WebSocketPair`, `accept` and attachments. Each query becomes its stated effect on in-memory maps, and each send is an outcome drawn from a given set of failing sockets.
- `btoa`/`atob` and JSON: the cursor is encoded as `started:call_id` text. Only the round trip and "undecodable text decodes to null" are kept. JSON bodies arrive already parsed, or as unparsable.
- The transcript table's unique key is not in these files. The model takes it to be (call_id, seq).
- Floating point: numbers are reals or NaN/±Infinity. The numeric reading of a string is given with the string, not computed from it.
- The dashboards hold seqs and times as integers, since the back end only stores integer seqs.
- Clocks and timers: "now" is a parameter. A timer firing is a separate method (`PagesApp.Board.ReconnectFires`).
- Locale formatting (`toLocaleString`, `toLocaleTimeString`) is left out. Only the scaling decision is kept.
- The static dashboard's `formatSegmentTime` shows "Invalid Date" for a non-finite value. The React dashboard's, which is modelled, shows `-`.
- Lower-casing covers ASCII letters only.
- `Dashboard.ExportCsvLines`: the speaker column is written unescaped, as in the source. No lemma is stated about reading that column back.
- `Dashboard.DurationRecombines`: only positive durations are recombined. For negative ones, `Dashboard.DurationParts` states only the bounds and the sign of the parts.
- `ReactApp.TranscriptView.AppendSegments`: React runs the `setTranscript` updater later, while the source reads `added` right after the call. The model gives the loop its evident sequential meaning. In the scroll branch the source also schedules `scrollTranscriptToBottom`, which later sets pending to 0 (dashboard/src/App.tsx:196-200). That deferred reset is not modelled, so the model's pending count is the value before it runs.
- `PagesApp.Board.AppendSegments`: the `lastSeq` maximum is stated by `PagesApp.Board.PushNew` and `Dashboard.MaxSeqConcat`. This method states only that `lastSeq` does not decrease.
- The React dashboard's `handleWsMessage`, `loadCalls` and `loadTranscriptPage` are left out, as are DOM rendering, scrolling geometry (`nearBottom` is a parameter), toasts and `localStorage`. The static dashboard's message handling is modelled.
- `src/server.js` is not part of this model. It only relays audio between two sockets.
- Whether `CALL_ROOM` is bound is a field of the environment. Without it, or without a call id, no broadcast is posted. A socket upgrade without it is the outcome `Throws`, the uncaught exception of `env.CALL_ROOM.idFromName`. What the platform answers then is not modelled.
- `Api.HandleIngestCall`, `Api.HandleIngestTranscript`: a payload's `call_id`, `event`, `status`, `text`, `speaker`, `raw_json` and URI fields are read only as strings. A non-string value, such as a numeric `call_id`, is treated as absent, while the source would use it as it is.
- `Db.CallStore.FetchCalls`, `Api.HandleCallsList`, `Api.HandleTranscript`, `Api.Fetch`: these run on the corrected limit defaults and cursor clause of the Findings table, not the code as written. The as-written behaviour is stated only by the as-written members listed there.
- `Api.IngestEndBroadcastMatchesRow`: the time is normalised twice, once by the handler and once by `upsertCall`. The lemma covers only times whose first normalisation is a non-zero whole number of seconds at or below 1e12. For other times the broadcast and the row can differ, as `Api.IngestEndBroadcastDiverges` shows.
- A room relays only the messages the API posts: status and segment. Its snapshot query runs in the same step as the upgrade, not asynchronously.

## Findings

| source | as written | input that shows it | evidently intended | confidence | as-written member | corrected member |
|---|---|---|---|---|---|---|
| cf/src/index.js:144 | `clamp(url.searchParams.get('limit'), 1, 200, 50)`: an absent parameter is `null`, `Number(null)` is 0, so the limit is 1 | `GET /api/calls` with no `limit` returns one call (likewise `/transcript` returns one segment, line 162) | default 50 (200 for transcripts) when `limit` is absent | not executed | Api.ListLimitAsWritten, Api.TranscriptLimitAsWritten, Api.LimitDefaultsUnreachable | Api.ListLimit, Api.TranscriptLimit, Api.HandleCallsList, Api.HandleTranscript, Api.Fetch |
| cf/src/db.js:48-51 | the cursor is applied only when `started_at` is truthy, and a NULL `started_at` never compares | calls `b`, `c` both with NULL `started_at`, pages of two: the page fetched with the first page's cursor again starts with `c` (`NullStartedAtPageRepeats`); a call with NULL `started_at` after a cursor with `started_at=100` is never listed (`NullStartedAtSkipped`) | keyset paging that continues after the cursor in (started_at DESC NULLS LAST, call_id DESC) order | not executed | Db.CandidatesAsWritten, Db.NullStartedAtPageRepeats, Db.NullStartedAtSkipped | Db.Candidates, Db.NextPageContinues, Db.CallStore.FetchCalls, Api.HandleCallsList |
