/** The responses the edge back end (cf/src/index.js, cf/src/auth.js) and
    the live-viewer room (cf/src/callRoom.js) produce: a status code, a
    body shape, and whether the CORS headers were attached. */
module Http {
  import opened Js
  import Db

  /** Response bodies, by the JSON (or text) shape they carry. */
  datatype Body =
    | NoBody
    | Plain(text: string)
      /** `{ error: { code, message, details } }` (details is always absent) */
    | Error(code: string, message: string)
      /** `{ ok: true }` */
    | Ok
      /** `{ ok: true, inserted }` */
    | OkInserted(inserted: bool)
      /** `{ items, next_cursor }` */
    | CallsPage(items: seq<Db.ListItem>, nextCursor: Option<string>)
      /** `{ call }` */
    | CallBody(call: Db.CallDetail)
      /** `{ call_id, after_seq, items, last_seq }` (`items` named `segments` here) */
    | TranscriptBody(callId: string, afterSeq: int, segments: seq<Db.Segment>, lastSeq: int)

  /** A response; `cors` says whether the `Access-Control-Allow-*` headers
      were attached. */
  datatype Response = Response(status: int, body: Body, cors: bool)

  /** `jsonResponse(payload, status)`: JSON with the CORS headers. */
  function JsonResponse(body: Body, status: int): Response {
    Response(status, body, true)
  }

  /** `errorResponse(status, message, code)` */
  function ErrorResponse(status: int, message: string, code: string): Response {
    JsonResponse(Error(code, message), status)
  }

  /** The default error code of `errorResponse`. */
  const BadRequest: string := "bad_request"
}
