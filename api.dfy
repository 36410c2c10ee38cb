/** The ingest/read API of the edge back end (cf/src/index.js): the router
    over path segments and HTTP methods, the payload validation and
    defaulting of the two ingest handlers, the query-parameter clamping of
    the read handlers, and the store calls and room broadcasts they make. */
module Api {
  import opened Js
  import opened Text
  import opened Db
  import opened Http
  import opened Auth

  // ---------------------------------------------------------------------
  // Path segments
  // ---------------------------------------------------------------------

  /** The index of the first `/` at or after `i`, or `|p|`. */
  function SlashFrom(p: string, i: nat): (k: nat)
    requires i <= |p|
    ensures i <= k <= |p| && (k == |p| || p[k] == '/')
    ensures forall j :: i <= j < k ==> p[j] != '/'
    decreases |p| - i
  {
    if i == |p| || p[i] == '/' then i else SlashFrom(p, i + 1)
  }

  /** `pathname.split('/').filter(Boolean)`: the non-empty pieces between
      slashes, in order. */
  function Segments(p: string): (segs: seq<string>)
    ensures forall i :: 0 <= i < |segs| ==> segs[i] != "" && '/' !in segs[i]
    decreases |p|
  {
    if p == "" then []
    else if p[0] == '/' then Segments(p[1..])
    else
      var k := SlashFrom(p, 0);
      [p[..k]] + Segments(p[k..])
  }

  predicate IsSegment(s: string) {
    s != "" && '/' !in s
  }

  /** `/a/b/c` from `[a, b, c]`. */
  function JoinPath(segs: seq<string>): string {
    if |segs| == 0 then "" else "/" + segs[0] + JoinPath(segs[1..])
  }

  lemma SlashFromSegment(s: string, rest: string)
    requires IsSegment(s) && (rest == "" || rest[0] == '/')
    ensures SlashFrom(s + rest, 0) == |s|
  {
    var p := s + rest;
    assert forall j :: 0 <= j < |s| ==> p[j] == s[j];
    assert |s| < |p| ==> p[|s|] == '/';
  }

  /** Splitting a joined path gives back its segments. */
  lemma {:induction false} SegmentsOfJoin(segs: seq<string>)
    requires forall i :: 0 <= i < |segs| ==> IsSegment(segs[i])
    ensures Segments(JoinPath(segs)) == segs
  {
    if |segs| > 0 {
      var rest := JoinPath(segs[1..]);
      var p := "/" + segs[0] + rest;
      assert p[1..] == segs[0] + rest;
      SlashFromSegment(segs[0], rest);
      var q := segs[0] + rest;
      assert q[..|segs[0]|] == segs[0];
      assert q[|segs[0]|..] == rest;
      SegmentsOfJoin(segs[1..]);
      assert segs == [segs[0]] + segs[1..];
    }
  }

  // ---------------------------------------------------------------------
  // Router
  // ---------------------------------------------------------------------

  /** Where `fetch` sends a request. */
  datatype Route =
    | Preflight
    | IngestCall
    | IngestTranscript
    | ListCalls
    | ShowCall(callId: string)
    | ShowTranscript(callId: string)
    | Socket(callId: string)
    | Reject(status: int, code: string, message: string)

  const NotFound: Route := Reject(404, "not_found", "Not found")
  const MethodNotAllowed: Route := Reject(405, "method_not_allowed", "Method not allowed")

  /** `segments[i]`, undefined past the end. */
  function At(segs: seq<string>, i: nat): Option<string> {
    if i < |segs| then Some(segs[i]) else None
  }

  /** The `fetch` router. */
  function RouteOf(verb: string, path: string): (r: Route)
    ensures r.Preflight? <==> verb == "OPTIONS"
    ensures var segs := Segments(path);
            verb != "OPTIONS" && !(|segs| >= 1 && segs[0] == "ingest") &&
            !(|segs| >= 2 && segs[..2] == ["api", "calls"]) && !(|segs| >= 3 && segs[..2] == ["ws", "calls"]) ==>
              r == NotFound
    ensures var segs := Segments(path);
            verb != "OPTIONS" && |segs| >= 1 && segs[0] == "ingest" ==>
              (r == MethodNotAllowed <==> verb != "POST") &&
              (r == IngestCall <==> verb == "POST" && |segs| >= 2 && segs[1] == "call") &&
              (r == IngestTranscript <==> verb == "POST" && |segs| >= 2 && segs[1] == "transcript") &&
              (r == NotFound <==> verb == "POST" && !(|segs| >= 2 && segs[1] in {"call", "transcript"}))
    ensures var segs := Segments(path);
            verb != "OPTIONS" && |segs| >= 2 && segs[..2] == ["api", "calls"] ==>
              (r == MethodNotAllowed <==> verb != "GET") &&
              (r == ListCalls <==> verb == "GET" && |segs| == 2) &&
              (r == ShowCall(segs[|segs| - 1]) <==> verb == "GET" && |segs| == 3) &&
              (r.ShowTranscript? <==> verb == "GET" && |segs| == 4 && segs[3] == "transcript") &&
              (r == NotFound <==> verb == "GET" && |segs| > 3 && !(|segs| == 4 && segs[3] == "transcript"))
    ensures var segs := Segments(path);
            verb != "OPTIONS" && |segs| >= 3 && segs[..2] == ["ws", "calls"] ==>
              (r == MethodNotAllowed <==> verb != "GET") &&
              (r == Socket(segs[2]) <==> verb == "GET")
    ensures r.IngestCall? || r.IngestTranscript? ==>
              verb == "POST" && |Segments(path)| >= 2 && Segments(path)[0] == "ingest" &&
              Segments(path)[1] == (if r.IngestCall? then "call" else "transcript")
    ensures r.ListCalls? ==> verb == "GET" && Segments(path) == ["api", "calls"]
    ensures r.ShowCall? ==> verb == "GET" && Segments(path) == ["api", "calls", r.callId]
    ensures r.ShowTranscript? ==>
              verb == "GET" && Segments(path) == ["api", "calls", r.callId, "transcript"]
    ensures r.Socket? ==>
              verb == "GET" && |Segments(path)| >= 3 && Segments(path)[..2] == ["ws", "calls"] &&
              r.callId == Segments(path)[2]
    ensures r.Reject? ==> r in {NotFound, MethodNotAllowed}
  {
    if verb == "OPTIONS" then Preflight
    else
      var segs := Segments(path);
      if At(segs, 0) == Some("ingest") then
        if verb != "POST" then MethodNotAllowed
        else if At(segs, 1) == Some("call") then IngestCall
        else if At(segs, 1) == Some("transcript") then IngestTranscript
        else NotFound
      else if At(segs, 0) == Some("api") && At(segs, 1) == Some("calls") then
        if verb != "GET" then MethodNotAllowed
        else if |segs| == 2 then ListCalls
        else if segs[2] == "" then Reject(400, BadRequest, "call_id is required")
        else if |segs| == 3 then ShowCall(segs[2])
        else if |segs| == 4 && segs[3] == "transcript" then ShowTranscript(segs[2])
        else NotFound
      else if At(segs, 0) == Some("ws") && At(segs, 1) == Some("calls") && |segs| > 2 && segs[2] != "" then
        if verb != "GET" then MethodNotAllowed else Socket(segs[2])
      else NotFound
  }

  /** The dashboards' call actions, `POST /api/calls/{id}/actions/{action}`,
      are always refused with 405, and the same path fetched with GET is
      404: the back end has no action route. */
  lemma CallActionsRejected(callId: string, action: string)
    requires IsSegment(callId) && IsSegment(action)
    ensures RouteOf("POST", JoinPath(["api", "calls", callId, "actions", action])) == MethodNotAllowed
    ensures RouteOf("GET", JoinPath(["api", "calls", callId, "actions", action])) == NotFound
  {
    SegmentsOfJoin(["api", "calls", callId, "actions", action]);
  }

  /** The dashboards' read paths reach their handlers: the call list, */
  lemma ListRouted()
    ensures RouteOf("GET", JoinPath(["api", "calls"])) == ListCalls
  {
    SegmentsOfJoin(["api", "calls"]);
  }

  /** one call, */
  lemma DetailRouted(callId: string)
    requires IsSegment(callId)
    ensures RouteOf("GET", JoinPath(["api", "calls", callId])) == ShowCall(callId)
  {
    SegmentsOfJoin(["api", "calls", callId]);
  }

  /** its transcript, */
  lemma TranscriptRouted(callId: string)
    requires IsSegment(callId)
    ensures RouteOf("GET", JoinPath(["api", "calls", callId, "transcript"])) == ShowTranscript(callId)
  {
    SegmentsOfJoin(["api", "calls", callId, "transcript"]);
  }

  /** and its live socket. */
  lemma SocketRouted(callId: string)
    requires IsSegment(callId)
    ensures RouteOf("GET", JoinPath(["ws", "calls", callId])) == Socket(callId)
  {
    SegmentsOfJoin(["ws", "calls", callId]);
  }

  // ---------------------------------------------------------------------
  // Requests
  // ---------------------------------------------------------------------

  /** A query-string value and the number JavaScript reads from it. */
  datatype Param = Param(text: string, reading: Num)

  /** `url.searchParams.get(name)` as a JavaScript value: null when absent. */
  function ParamValue(query: map<string, Param>, name: string): Value {
    if name in query then Text(query[name].text, query[name].reading) else Null
  }

  function ParamText(query: map<string, Param>, name: string): Option<string> {
    if name in query then Some(query[name].text) else None
  }

  /** The fields the ingest handlers read from a JSON payload. String
      fields are None when absent or not a string. */
  datatype Payload = Payload(
    callId: Option<string>,
    event: Option<string>,
    status: Option<string>,
    ts: Value,
    startedAt: Value,
    endedAt: Value,
    createdAt: Value,
    fromUri: Option<string>,
    toUri: Option<string>,
    provider: Option<string>,
    conferenceName: Option<string>,
    callToken: Option<string>,
    lastSeq: Option<int>,
    seqNo: Value,
    speaker: Option<string>,
    text: Option<string>,
    raw: Option<string>,
    rawJson: Option<string>)

  /** What `request.json()` gives: a parse error, or a JSON value that is
      an object (Some) or anything else (None, e.g. `null`). */
  datatype JsonBody = Unparsable | Parsed(payload: Option<Payload>)

  datatype Request = Request(
    verb: string,
    path: string,
    authorization: Option<string>,
    query: map<string, Param>,
    body: JsonBody)

  /** The worker's bindings: `INGEST_TOKEN`, and whether `CALL_ROOM` is bound. */
  datatype Env = Env(ingestToken: Option<string>, hasCallRoom: bool)

  /** A message the back end posts to a call's room. */
  datatype RoomMessage =
    | StatusMessage(callId: string, status: string, endedAt: Option<int>)
    | SegmentMessage(segment: Segment)

  /** `broadcastToRoom`'s POST to `/broadcast` of the room named `callId`,
      with `x-internal-token: INGEST_TOKEN || ''`. */
  datatype RoomPost = RoomPost(callId: string, internalToken: string, message: RoomMessage)

  /** `broadcastToRoom(env, callId, payload)`: nothing without a room binding. */
  function PostTo(env: Env, callId: string, message: RoomMessage): Option<RoomPost> {
    if !env.hasCallRoom || callId == "" then None
    else Some(RoomPost(callId, NonEmpty(env.ingestToken).GetOr(""), message))
  }

  /** `Math.floor(Date.now() / 1000)` */
  function NowSeconds(nowMs: int): int {
    nowMs / 1000
  }

  // ---------------------------------------------------------------------
  // Ingest of call events
  // ---------------------------------------------------------------------

  /** `payload.event || 'status'` */
  function IngestEvent(p: Payload): (r: string)
    ensures r != ""
    ensures NonEmpty(p.event).Some? ==> r == p.event.value
    ensures NonEmpty(p.event).None? ==> r == "status"
  {
    NonEmpty(p.event).GetOr("status")
  }

  /** `payload.status || (event === 'end' ? 'ended' : 'incoming')` */
  function IngestStatus(p: Payload): (r: string)
    ensures r != ""
    ensures NonEmpty(p.status).Some? ==> r == p.status.value
    ensures NonEmpty(p.status).None? ==> (r == "ended" <==> IngestEvent(p) == "end") && r in {"ended", "incoming"}
  {
    if NonEmpty(p.status).Some? then p.status.value
    else if IngestEvent(p) == "end" then "ended"
    else "incoming"
  }

  /** `toSeconds(payload.ts || nowSeconds())` */
  function IngestTs(p: Payload, now: int): int {
    ToSeconds(Or(p.ts, Int(now)), now)
  }

  /** `{ ...payload, event, status, ts }` as `upsertCall` reads it. */
  function UpsertPayloadOf(p: Payload, callId: string, now: int): CallPayload {
    CallPayload(callId, IngestEvent(p), Some(IngestStatus(p)), Int(IngestTs(p, now)),
                p.startedAt, p.endedAt, p.createdAt, p.fromUri, p.toUri, p.provider,
                p.conferenceName, p.callToken, p.lastSeq)
  }

  /** The `call.status` broadcast: only for start and end events or an
      explicit status. */
  function StatusBroadcast(p: Payload, callId: string, now: int): (r: Option<RoomMessage>)
    ensures r.Some? <==> IngestEvent(p) in {"start", "end"} || NonEmpty(p.status).Some?
    ensures r.Some? ==> r.value.StatusMessage? && r.value.callId == callId && r.value.status == IngestStatus(p)
    ensures r.Some? && IngestEvent(p) == "end" ==> r.value.endedAt == Some(IngestTs(p, now))
    ensures r.Some? && IngestEvent(p) != "end" ==> r.value.endedAt == OptionalSeconds(p.endedAt, now)
  {
    var event := IngestEvent(p);
    if event == "start" || event == "end" || NonEmpty(p.status).Some? then
      Some(StatusMessage(callId, IngestStatus(p),
                         if event == "end" then Some(IngestTs(p, now)) else OptionalSeconds(p.endedAt, now)))
    else None
  }

  /** The status written to the row is the derived status, is never empty,
      and is what a `call.status` broadcast announces. */
  lemma IngestStatusStored(table: map<string, CallRow>, p: Payload, callId: string, now: int)
    ensures var row := Upserted(table, UpsertPayloadOf(p, callId, now), now)[callId];
            row.status == IngestStatus(p) && row.status != "" &&
            (NonEmpty(p.status).None? ==> row.status == (if IngestEvent(p) == "end" then "ended" else "incoming")) &&
            (StatusBroadcast(p, callId, now).Some? ==> StatusBroadcast(p, callId, now).value.status == row.status)
  {
  }

  /** After a `start` event the call's `started_at` is set, and it keeps
      the value it already had. */
  lemma IngestStartSetsStartedAt(table: map<string, CallRow>, p: Payload, callId: string, now: int)
    requires IngestEvent(p) == "start"
    ensures var row := Upserted(table, UpsertPayloadOf(p, callId, now), now)[callId];
            row.startedAt.Some? &&
            (callId in table && table[callId].startedAt.Some? ==> row.startedAt == table[callId].startedAt)
  {
  }

  /** For an `end` event whose time is a whole number of seconds, the
      `ended_at` broadcast to viewers is the one written to the row. */
  lemma IngestEndBroadcastMatchesRow(table: map<string, CallRow>, p: Payload, callId: string, now: int)
    requires IngestEvent(p) == "end"
    requires IngestTs(p, now) != 0 && IngestTs(p, now) as real <= MillisThreshold
    ensures var row := Upserted(table, UpsertPayloadOf(p, callId, now), now)[callId];
            StatusBroadcast(p, callId, now) == Some(StatusMessage(callId, row.status, row.endedAt)) &&
            row.endedAt == Some(IngestTs(p, now))
  {
    ToSecondsKeepsSeconds(IngestTs(p, now), now);
  }

  /** The handler normalises `ts` and `upsertCall` normalises it again, so
      a time that floors to 0 is broadcast as `ended_at` 0 while the row
      falls back to the clock: an `end` at `ts` 0.5 on a new call. */
  lemma IngestEndBroadcastDiverges()
    ensures var p := Payload(Some("c"), Some("end"), None, Number(Finite(0.5)), Undefined, Undefined, Undefined,
                             None, None, None, None, None, None, Undefined, None, None, None, None);
            var now := 1700000000;
            var row := Upserted(map[], UpsertPayloadOf(p, "c", now), now)["c"];
            StatusBroadcast(p, "c", now) == Some(StatusMessage("c", "ended", Some(0))) &&
            row.endedAt == Some(now)
  {
    var p := Payload(Some("c"), Some("end"), None, Number(Finite(0.5)), Undefined, Undefined, Undefined,
                     None, None, None, None, None, None, Undefined, None, None, None, None);
    var now := 1700000000;
    assert IngestTs(p, now) == 0;
    assert UpsertPayloadOf(p, "c", now).ts == Int(0);
  }

  // ---------------------------------------------------------------------
  // Ingest of transcript segments
  // ---------------------------------------------------------------------

  /** `payload.ts ? Number(payload.ts) : Date.now()` */
  function SegmentTs(p: Payload, nowMs: int): Num {
    if Truthy(p.ts) then ToNumber(p.ts) else Finite(nowMs as real)
  }

  /** `payload.raw ? JSON.stringify(payload.raw) : payload.raw_json || null`,
      with `raw` carried as its JSON text. */
  function SegmentRaw(p: Payload): Option<string> {
    if p.raw.Some? then p.raw else NonEmpty(p.rawJson)
  }

  /** The row `insertTranscript` is given, once `call_id`, `seq` and `text`
      passed validation. */
  function SegmentPayloadOf(p: Payload, callId: string, seqNo: int, nowMs: int): SegmentPayload
    requires NonEmpty(p.text).Some?
  {
    SegmentPayload(callId, seqNo, SegmentTs(p, nowMs), NonEmpty(p.speaker).GetOr("system"),
                   p.text.value, SegmentRaw(p))
  }

  // ---------------------------------------------------------------------
  // Query parameters
  // ---------------------------------------------------------------------

  /** The parameter is present, non-empty, and reads as a number whose
      floor lies in `[lo, hi]`. */
  predicate GivenIn(query: map<string, Param>, name: string, lo: int, hi: int) {
    name in query && query[name].text != "" && query[name].reading.Finite? &&
    lo <= query[name].reading.v.Floor <= hi
  }

  /** The list page size as written: `clamp(get('limit'), 1, 200, 50)`. */
  function ListLimitAsWritten(query: map<string, Param>): (r: int)
    ensures 1 <= r <= 200
    ensures "limit" !in query ==> r == 1
    ensures GivenIn(query, "limit", 1, 200) ==> r == query["limit"].reading.v.Floor
  {
    Clamp(ParamValue(query, "limit"), 1, 200, 50)
  }

  /** The list page size with an absent parameter read as the default:
      `clamp(get('limit') || 50, 1, 200, 50)`. */
  function ListLimit(query: map<string, Param>): (r: int)
    ensures 1 <= r <= 200
    ensures "limit" !in query || query["limit"].text == "" ==> r == 50
    ensures GivenIn(query, "limit", 1, 200) ==> r == query["limit"].reading.v.Floor
  {
    Clamp(Or(ParamValue(query, "limit"), Int(50)), 1, 200, 50)
  }

  /** The transcript page size as written: `clamp(get('limit'), 1, 1000, 200)`. */
  function TranscriptLimitAsWritten(query: map<string, Param>): (r: int)
    ensures 1 <= r <= 1000
    ensures "limit" !in query ==> r == 1
    ensures GivenIn(query, "limit", 1, 1000) ==> r == query["limit"].reading.v.Floor
  {
    Clamp(ParamValue(query, "limit"), 1, 1000, 200)
  }

  /** The transcript page size with an absent parameter read as the default. */
  function TranscriptLimit(query: map<string, Param>): (r: int)
    ensures 1 <= r <= 1000
    ensures "limit" !in query || query["limit"].text == "" ==> r == 200
    ensures GivenIn(query, "limit", 1, 1000) ==> r == query["limit"].reading.v.Floor
  {
    Clamp(Or(ParamValue(query, "limit"), Int(200)), 1, 1000, 200)
  }

  /** `clamp(get('after_seq'), 0, MAX_SAFE_INTEGER, 0)`; an absent parameter
      reads as 0, which is also the default. */
  function AfterSeq(query: map<string, Param>): (r: int)
    ensures 0 <= r <= MaxSafeInteger
    ensures "after_seq" !in query ==> r == 0
    ensures GivenIn(query, "after_seq", 0, MaxSafeInteger) ==> r == query["after_seq"].reading.v.Floor
  {
    Clamp(ParamValue(query, "after_seq"), 0, MaxSafeInteger, 0)
  }

  /** Without a `limit` parameter the page sizes as written are 1, not the
      defaults 50 and 200: `Number(null)` is 0, which is finite, so the
      fallback of `clamp` is never used and 0 is raised to the minimum. */
  lemma LimitDefaultsUnreachable(query: map<string, Param>)
    requires "limit" !in query
    ensures ListLimitAsWritten(query) == 1 && ListLimit(query) == 50
    ensures TranscriptLimitAsWritten(query) == 1 && TranscriptLimit(query) == 200
  {
    assert (0.0).Floor == 0;
  }

  /** A non-empty `limit` parameter gets the same page size either way. */
  lemma LimitsAgreeWhenGiven(query: map<string, Param>)
    requires "limit" in query && query["limit"].text != ""
    ensures ListLimitAsWritten(query) == ListLimit(query)
    ensures TranscriptLimitAsWritten(query) == TranscriptLimit(query)
  {
  }

  // ---------------------------------------------------------------------
  // Handlers
  // ---------------------------------------------------------------------

  /** What a handler gives back: a response and, for the ingest handlers,
      the post it made to the call's room. */
  datatype Handled = Handled(response: Response, post: Option<RoomPost>)

  /** What `handleIngestCall` answers and does to the calls table, from
      `calls0` to `calls`: 401 without a valid bearer token, 400 for
      unparsable JSON or a missing `call_id`, all three leaving the table
      alone; otherwise the upsert, 200, and the status post the event calls
      for. */
  ghost predicate IngestCallHandled(calls0: map<string, CallRow>, calls: map<string, CallRow>,
                                    env: Env, req: Request, nowMs: int, h: Handled)
  {
    if RequireIngestAuth(req.authorization, env.ingestToken).Some? then
      h == Handled(Unauthorized, None) && calls == calls0
    else if req.body.Unparsable? then
      h == Handled(ErrorResponse(400, "Invalid JSON payload", BadRequest), None) && calls == calls0
    else if req.body.payload.None? || NonEmpty(req.body.payload.value.callId).None? then
      h == Handled(ErrorResponse(400, "call_id is required", BadRequest), None) && calls == calls0
    else
      var p := req.body.payload.value;
      var now := NowSeconds(nowMs);
      calls == Upserted(calls0, UpsertPayloadOf(p, p.callId.value, now), now) &&
      h.response == JsonResponse(Ok, 200) &&
      h.post == (match StatusBroadcast(p, p.callId.value, now)
                 case None => None
                 case Some(m) => PostTo(env, p.callId.value, m))
  }

  /** `handleIngestCall`: authenticate, parse, require `call_id`, upsert,
      then broadcast the status when the event calls for it. */
  method HandleIngestCall(store: CallStore, env: Env, req: Request, nowMs: int) returns (h: Handled)
    requires store.Valid()
    modifies store
    ensures store.Valid() && store.segments == old(store.segments)
    ensures IngestCallHandled(old(store.calls), store.calls, env, req, nowMs, h)
  {
    var authError := RequireIngestAuth(req.authorization, env.ingestToken);
    if authError.Some? {
      return Handled(authError.value, None);
    }
    if req.body.Unparsable? {
      return Handled(ErrorResponse(400, "Invalid JSON payload", BadRequest), None);
    }
    var payload := req.body.payload;
    if payload.None? || NonEmpty(payload.value.callId).None? {
      return Handled(ErrorResponse(400, "call_id is required", BadRequest), None);
    }
    var p := payload.value;
    var callId := p.callId.value;
    var now := NowSeconds(nowMs);
    var _ := store.UpsertCall(UpsertPayloadOf(p, callId, now), now);
    var message := StatusBroadcast(p, callId, now);
    var post := if message.Some? then PostTo(env, callId, message.value) else None;
    h := Handled(JsonResponse(Ok, 200), post);
  }

  /** What `handleIngestTranscript` answers and does to the store, from
      `calls0`/`segments0` to `calls`/`segments`: 401, 400 for unparsable
      JSON, for a missing `call_id` or non-numeric `seq`, and for an empty
      `text`, all leaving the store alone; otherwise 200 with `inserted`
      true exactly when the (call, seq) pair is new, in which case the
      segment is stored, the call's `last_seq` raised and the segment
      posted to the room; a duplicate changes nothing and posts nothing. */
  ghost predicate IngestTranscriptHandled(calls0: map<string, CallRow>, segments0: map<(string, int), StoredSegment>,
                                          calls: map<string, CallRow>, segments: map<(string, int), StoredSegment>,
                                          env: Env, req: Request, nowMs: int, h: Handled)
  {
    if RequireIngestAuth(req.authorization, env.ingestToken).Some? then
      h == Handled(Unauthorized, None) && calls == calls0 && segments == segments0
    else if req.body.Unparsable? then
      h == Handled(ErrorResponse(400, "Invalid JSON payload", BadRequest), None) &&
      calls == calls0 && segments == segments0
    else if req.body.payload.None? || NonEmpty(req.body.payload.value.callId).None? ||
            !ToNumber(req.body.payload.value.seqNo).Finite? then
      h == Handled(ErrorResponse(400, "call_id and seq are required", BadRequest), None) &&
      calls == calls0 && segments == segments0
    else if NonEmpty(req.body.payload.value.text).None? then
      h == Handled(ErrorResponse(400, "text is required", BadRequest), None) &&
      calls == calls0 && segments == segments0
    else
      var p := req.body.payload.value;
      var callId := p.callId.value;
      var seqNo := ToNumber(p.seqNo).v.Floor;
      var row := SegmentPayloadOf(p, callId, seqNo, nowMs);
      var segment := Segment(seqNo, row.ts, row.speaker, row.text);
      var inserted := (callId, seqNo) !in segments0;
      h.response == JsonResponse(OkInserted(inserted), 200) &&
      h.post == (if inserted then PostTo(env, callId, SegmentMessage(segment)) else None) &&
      segments == (if inserted then segments0[(callId, seqNo) := StoredSegment(segment, row.rawJson)]
                   else segments0) &&
      calls == (if inserted then RaiseLastSeq(calls0, callId, seqNo, ToSeconds(Number(row.ts), NowSeconds(nowMs)))
                else calls0)
  }

  /** `handleIngestTranscript`: authenticate, parse, require `call_id`, a
      numeric `seq` and a non-empty `text`, insert, and broadcast the
      segment only when a row was inserted. */
  method HandleIngestTranscript(store: CallStore, env: Env, req: Request, nowMs: int) returns (h: Handled)
    requires store.Valid()
    modifies store
    ensures store.Valid() && LastSeqKept(old(store.calls), store.calls)
    ensures IngestTranscriptHandled(old(store.calls), old(store.segments), store.calls, store.segments,
                                    env, req, nowMs, h)
  {
    var authError := RequireIngestAuth(req.authorization, env.ingestToken);
    if authError.Some? {
      return Handled(authError.value, None);
    }
    if req.body.Unparsable? {
      return Handled(ErrorResponse(400, "Invalid JSON payload", BadRequest), None);
    }
    var payload := req.body.payload;
    var callId := if payload.Some? then NonEmpty(payload.value.callId) else None;
    var seqNo := if payload.Some? then ToInteger(payload.value.seqNo, None) else None;
    if callId.None? || seqNo.None? {
      return Handled(ErrorResponse(400, "call_id and seq are required", BadRequest), None);
    }
    var p := payload.value;
    if NonEmpty(p.text).None? {
      return Handled(ErrorResponse(400, "text is required", BadRequest), None);
    }
    var row := SegmentPayloadOf(p, callId.value, seqNo.value, nowMs);
    var inserted := store.InsertTranscript(row, NowSeconds(nowMs));
    var post := if inserted
                then PostTo(env, callId.value, SegmentMessage(Segment(row.seqNo, row.ts, row.speaker, row.text)))
                else None;
    h := Handled(JsonResponse(OkInserted(inserted), 200), post);
  }

  /** A transcript post retried after it was stored changes nothing, is
      answered `inserted: false` and posts nothing: the ingest is idempotent
      per (call, seq). */
  lemma IngestTranscriptRetried(calls0: map<string, CallRow>, segments0: map<(string, int), StoredSegment>,
                                calls1: map<string, CallRow>, segments1: map<(string, int), StoredSegment>,
                                calls2: map<string, CallRow>, segments2: map<(string, int), StoredSegment>,
                                env: Env, req: Request, nowMs: int, laterMs: int, first: Handled, retry: Handled)
    requires IngestTranscriptHandled(calls0, segments0, calls1, segments1, env, req, nowMs, first)
    requires IngestTranscriptHandled(calls1, segments1, calls2, segments2, env, req, laterMs, retry)
    ensures calls2 == calls1 && segments2 == segments1 && retry.post.None?
    ensures first.response.status == 200 ==> retry.response == JsonResponse(OkInserted(false), 200)
  {
  }

  /** What `handleCallsList` answers: 200 with a listing of the calls
      filtered by `status` and positioned by `cursor`, at most `limit` of
      them, and a next cursor exactly when more remain. */
  ghost predicate CallsListed(calls: map<string, CallRow>, query: map<string, Param>, r: Response) {
    var candidates := Candidates(calls, ParamText(query, "status"), DecodeCursor(ParamText(query, "cursor")));
    r.status == 200 && r.body.CallsPage? &&
    (exists rows :: IsListing(calls, candidates, rows, ListLimit(query)) && r.body.items == ListItems(rows)) &&
    |r.body.items| <= ListLimit(query) &&
    (r.body.nextCursor.Some? <==> |candidates| > ListLimit(query))
  }

  /** `handleCallsList`: one page of calls filtered by `status`, with the
      page size from `limit` and the position from `cursor`. */
  method HandleCallsList(store: CallStore, query: map<string, Param>) returns (r: Response)
    requires store.Valid()
    ensures CallsListed(store.calls, query, r)
  {
    var cursor := DecodeCursor(ParamText(query, "cursor"));
    var page;
    ghost var rows;
    page, rows := store.FetchCalls(ParamText(query, "status"), ListLimit(query), cursor);
    r := JsonResponse(CallsPage(page.items, page.nextCursor), 200);
  }

  /** `handleCallDetail`: the call, or 404 `not_found`. */
  method HandleCallDetail(store: CallStore, callId: string) returns (r: Response)
    ensures callId in store.calls ==> r == JsonResponse(CallBody(DetailOf(store.calls[callId])), 200)
    ensures callId !in store.calls ==> r == ErrorResponse(404, "Call not found", "not_found")
  {
    var call := store.FetchCall(callId);
    if call.None? {
      return ErrorResponse(404, "Call not found", "not_found");
    }
    r := JsonResponse(CallBody(call.value), 200);
  }

  /** What `handleTranscript` answers: 200 with the segments of `callId`
      after `after_seq`, ascending, at most `limit` of them, and the call's
      `last_seq` (0 for an unknown call). */
  ghost predicate TranscriptServed(segments: map<(string, int), StoredSegment>, calls: map<string, CallRow>,
                                   callId: string, query: map<string, Param>, r: Response)
  {
    r.status == 200 && r.body.TranscriptBody? &&
    r.body.callId == callId && r.body.afterSeq == AfterSeq(query) &&
    IsTranscriptPage(segments, callId, AfterSeq(query), r.body.segments, TranscriptLimit(query)) &&
    r.body.lastSeq == if callId in calls then calls[callId].lastSeq else 0
  }

  /** `handleTranscript`: segments after `after_seq`, at most `limit`, and
      the call's `last_seq` (0 for an unknown call). */
  method HandleTranscript(store: CallStore, callId: string, query: map<string, Param>) returns (r: Response)
    requires store.Valid()
    ensures TranscriptServed(store.segments, store.calls, callId, query, r)
  {
    var afterSeq := AfterSeq(query);
    var limit := TranscriptLimit(query);
    var items := store.FetchTranscript(callId, afterSeq, limit);
    var call := store.FetchCall(callId);
    var lastSeq := if call.Some? then call.value.lastSeq else 0;
    r := JsonResponse(TranscriptBody(callId, afterSeq, items, lastSeq), 200);
  }

  /** What `fetch` does with a request: answer it, or hand it to the room
      of a call (the WebSocket upgrade, with `x-call-id` set), or fail with an
      uncaught exception (`env.CALL_ROOM.idFromName` on an unbound namespace). */
  datatype Outcome = Answer(handled: Handled) | ToRoom(callId: string) | Throws

  /** The worker's `fetch`. */
  method Fetch(store: CallStore, env: Env, req: Request, nowMs: int) returns (o: Outcome)
    requires store.Valid()
    modifies store
    ensures store.Valid()
    ensures var route := RouteOf(req.verb, req.path);
            (route.Preflight? ==> o == Answer(Handled(Response(204, NoBody, true), None)) && unchanged(store)) &&
            (route.Reject? ==>
               o == Answer(Handled(ErrorResponse(route.status, route.message, route.code), None)) &&
               unchanged(store)) &&
            (route.Socket? ==>
               o == (if env.hasCallRoom then ToRoom(route.callId) else Throws) && unchanged(store)) &&
            (route.ListCalls? || route.ShowCall? || route.ShowTranscript? ==>
               o.Answer? && o.handled.post.None? && unchanged(store)) &&
            (route.ListCalls? ==> CallsListed(store.calls, req.query, o.handled.response)) &&
            (route.ShowCall? ==>
               o.handled.response == if route.callId in store.calls
                                     then JsonResponse(CallBody(DetailOf(store.calls[route.callId])), 200)
                                     else ErrorResponse(404, "Call not found", "not_found")) &&
            (route.ShowTranscript? ==>
               TranscriptServed(store.segments, store.calls, route.callId, req.query, o.handled.response)) &&
            (route.IngestCall? ==>
               o.Answer? && store.segments == old(store.segments) &&
               IngestCallHandled(old(store.calls), store.calls, env, req, nowMs, o.handled)) &&
            (route.IngestTranscript? ==>
               o.Answer? &&
               IngestTranscriptHandled(old(store.calls), old(store.segments), store.calls, store.segments,
                                       env, req, nowMs, o.handled))
  {
    var route := RouteOf(req.verb, req.path);
    match route {
      case Preflight =>
        o := Answer(Handled(Response(204, NoBody, true), None));
      case Reject(status, code, message) =>
        o := Answer(Handled(ErrorResponse(status, message, code), None));
      case IngestCall =>
        var h := HandleIngestCall(store, env, req, nowMs);
        o := Answer(h);
      case IngestTranscript =>
        var h := HandleIngestTranscript(store, env, req, nowMs);
        o := Answer(h);
      case ListCalls =>
        var r := HandleCallsList(store, req.query);
        o := Answer(Handled(r, None));
      case ShowCall(callId) =>
        var r := HandleCallDetail(store, callId);
        o := Answer(Handled(r, None));
      case ShowTranscript(callId) =>
        var r := HandleTranscript(store, callId, req.query);
        o := Answer(Handled(r, None));
      case Socket(callId) =>
        o := if env.hasCallRoom then ToRoom(callId) else Throws;
    }
  }
}
