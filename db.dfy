/** The call/transcript store of the edge back end (cf/src/db.js): the
    integer normalisers, the opaque pagination cursor, and the `calls` and
    `transcript_segments` tables held as maps with one method per query. */
module Db {
  import opened Js
  import opened Text

  // ---------------------------------------------------------------------
  // Integer normalisers
  // ---------------------------------------------------------------------

  /** Values above this many are read as milliseconds. */
  const MillisThreshold: real := 1000000000000.0

  /** `toSeconds(value)`: falsy or non-finite input falls back to `now`
      (the caller's `Math.floor(Date.now() / 1000)`); values above 1e12 are
      milliseconds and are divided by 1000; the result is floored. */
  function ToSeconds(value: Value, now: int): (r: int)
    ensures !Truthy(value) || !ToNumber(value).Finite? ==> r == now
    ensures Truthy(value) && ToNumber(value).Finite? && ToNumber(value).v > MillisThreshold ==>
              (r as real) * 1000.0 <= ToNumber(value).v < (r as real + 1.0) * 1000.0
    ensures Truthy(value) && ToNumber(value).Finite? && ToNumber(value).v <= MillisThreshold ==>
              r as real <= ToNumber(value).v < r as real + 1.0
  {
    if !Truthy(value) then now
    else
      match ToNumber(value)
      case Finite(num) => if num > MillisThreshold then (num / 1000.0).Floor else num.Floor
      case _ => now
  }

  /** A whole number of seconds that is neither 0 nor in the millisecond
      range comes back unchanged from `toSeconds`, so normalising twice (as
      the ingest handler and `upsertCall` do) is harmless for it. */
  lemma ToSecondsKeepsSeconds(t: int, now: int)
    requires t != 0 && (t as real) <= MillisThreshold
    ensures ToSeconds(Int(t), now) == t
  {
  }

  /** `toInteger(value, fallback)` with `null` as fallback written None. */
  function ToInteger(value: Value, fallback: Option<int>): (r: Option<int>)
    ensures !ToNumber(value).Finite? ==> r == fallback
    ensures ToNumber(value).Finite? ==>
              r.Some? && r.value as real <= ToNumber(value).v < r.value as real + 1.0
  {
    match ToNumber(value)
    case Finite(num) => Some(num.Floor)
    case _ => fallback
  }

  /** `clamp(value, min, max, fallback)` */
  function Clamp(value: Value, min: int, max: int, fallback: int): (r: int)
    ensures min <= max ==> min <= r <= max
    ensures ToNumber(value).Finite? && min <= ToNumber(value).v.Floor <= max ==>
              r == ToNumber(value).v.Floor
    ensures !ToNumber(value).Finite? && min <= fallback <= max ==> r == fallback
    ensures ToNumber(value).Finite? && ToNumber(value).v.Floor < min ==> r == min
    ensures ToNumber(value).Finite? && min <= max < ToNumber(value).v.Floor ==> r == max
    ensures !ToNumber(value).Finite? && fallback < min ==> r == min
    ensures !ToNumber(value).Finite? && min <= max < fallback ==> r == max
  {
    var num := ToInteger(value, Some(fallback)).value;
    if num < min then min else if num > max then max else num
  }

  /** Clamping an already clamped value changes nothing. */
  lemma ClampIdempotent(value: Value, min: int, max: int, fallback: int)
    requires min <= max
    ensures Clamp(Int(Clamp(value, min, max, fallback)), min, max, fallback)
            == Clamp(value, min, max, fallback)
  {
    var c := Clamp(value, min, max, fallback);
    assert (c as real).Floor == c;
  }

  // ---------------------------------------------------------------------
  // Pagination cursor
  // ---------------------------------------------------------------------

  /** The position of the last listed call: its `started_at` and `call_id`. */
  datatype Cursor = Cursor(startedAt: Option<int>, callId: string)

  function StartedText(s: Option<int>): string {
    match s
    case None => "null"
    case Some(v) => IntToString(v)
  }

  function FirstColon(s: string): (r: Option<nat>)
    ensures r.Some? ==> r.value < |s| && s[r.value] == ':' && ':' !in s[..r.value]
    ensures r.None? ==> ':' !in s
  {
    if |s| == 0 then None
    else if s[0] == ':' then Some(0)
    else
      match FirstColon(s[1..])
      case None => None
      case Some(i) =>
        assert s[..i + 1] == [s[0]] + s[1..][..i];
        Some(i + 1)
  }

  /** `encodeCursor`: the pair rendered as text. The source's base64-of-JSON
      text is replaced by `started:call_id`; only the round trip matters. */
  function EncodeCursor(c: Cursor): (r: string)
    ensures r != "" && ':' in r
  {
    StartedText(c.startedAt) + ":" + c.callId
  }

  /** `decodeCursor`: an absent or empty cursor, or text that does not
      decode, gives None; decoding never fails otherwise. */
  function DecodeCursor(text: Option<string>): (r: Option<Cursor>)
    ensures text.None? || text.value == "" ==> r.None?
    ensures text.Some? && ':' !in text.value ==> r.None?
    ensures r.Some? ==> text.Some? && |r.value.callId| < |text.value|
  {
    if text.None? || text.value == "" then None
    else
      var s := text.value;
      match FirstColon(s)
      case None => None
      case Some(i) =>
        var head := s[..i];
        if head == "null" then Some(Cursor(None, s[i + 1..]))
        else
          match ParseInt(head)
          case None => None
          case Some(v) => Some(Cursor(Some(v), s[i + 1..]))
  }

  lemma {:induction false} FirstColonAfter(head: string, tail: string)
    requires ':' !in head
    ensures FirstColon(head + ":" + tail) == Some(|head|)
    decreases |head|
  {
    if |head| > 0 {
      assert (head + ":" + tail)[1..] == head[1..] + ":" + tail;
      FirstColonAfter(head[1..], tail);
    }
  }

  /** Decoding an encoded cursor gives back the same pair. */
  lemma CursorRoundTrip(c: Cursor)
    ensures DecodeCursor(Some(EncodeCursor(c))) == Some(c)
  {
    var head := StartedText(c.startedAt);
    var s := EncodeCursor(c);
    assert s == head + ":" + c.callId;
    FirstColonAfter(head, c.callId);
    assert s[..|head|] == head;
    assert s[|head| + 1..] == c.callId;
    match c.startedAt
    case None =>
    case Some(v) =>
      ParseIntToString(v);
      assert IntToString(v) != "null" by {
        assert IntToString(v)[0] == 'n' ==> false;
      }
  }

  // ---------------------------------------------------------------------
  // Tables
  // ---------------------------------------------------------------------

  /** A row of the `calls` table. */
  datatype CallRow = CallRow(
    callId: string,
    status: string,
    startedAt: Option<int>,
    endedAt: Option<int>,
    fromUri: Option<string>,
    toUri: Option<string>,
    provider: Option<string>,
    conferenceName: Option<string>,
    callToken: Option<string>,
    lastSeq: int,
    createdAt: int,
    updatedAt: int)

  /** The columns `fetchCall` selects (every column but `call_token`). */
  datatype CallDetail = CallDetail(
    callId: string,
    status: string,
    startedAt: Option<int>,
    endedAt: Option<int>,
    fromUri: Option<string>,
    toUri: Option<string>,
    provider: Option<string>,
    conferenceName: Option<string>,
    lastSeq: int,
    createdAt: int,
    updatedAt: int)

  /** The columns `fetchCalls` selects. */
  datatype ListItem = ListItem(
    callId: string,
    status: string,
    startedAt: Option<int>,
    endedAt: Option<int>,
    fromUri: Option<string>,
    toUri: Option<string>,
    conferenceName: Option<string>,
    lastSeq: int,
    updatedAt: int)

  function DetailOf(r: CallRow): CallDetail {
    CallDetail(r.callId, r.status, r.startedAt, r.endedAt, r.fromUri, r.toUri, r.provider,
               r.conferenceName, r.lastSeq, r.createdAt, r.updatedAt)
  }

  function ListItemOf(r: CallRow): ListItem {
    ListItem(r.callId, r.status, r.startedAt, r.endedAt, r.fromUri, r.toUri,
             r.conferenceName, r.lastSeq, r.updatedAt)
  }

  function ListItems(rows: seq<CallRow>): (items: seq<ListItem>)
    ensures |items| == |rows|
    ensures forall i :: 0 <= i < |rows| ==> items[i] == ListItemOf(rows[i])
  {
    seq(|rows|, i requires 0 <= i < |rows| => ListItemOf(rows[i]))
  }

  /** The columns `fetchTranscript` selects. */
  datatype Segment = Segment(seqNo: int, ts: Num, speaker: string, text: string)

  /** A row of `transcript_segments`; its unique key is taken to be
      (call_id, seq). */
  datatype StoredSegment = StoredSegment(segment: Segment, rawJson: Option<string>)

  /** What `upsertCall` reads from its payload. */
  datatype CallPayload = CallPayload(
    callId: string,
    event: string,
    status: Option<string>,
    ts: Value,
    startedAt: Value,
    endedAt: Value,
    createdAt: Value,
    fromUri: Option<string>,
    toUri: Option<string>,
    provider: Option<string>,
    conferenceName: Option<string>,
    callToken: Option<string>,
    lastSeq: Option<int>)

  /** What `upsertCall` returns. */
  datatype UpsertResult = UpsertResult(status: string, ts: int, endedAt: Option<int>)

  /** What `insertTranscript` reads from its payload. */
  datatype SegmentPayload = SegmentPayload(
    callId: string,
    seqNo: int,
    ts: Num,
    speaker: string,
    text: string,
    rawJson: Option<string>)

  // ---------------------------------------------------------------------
  // The upsert merge rule
  // ---------------------------------------------------------------------

  /** SQL `COALESCE(a, b)` */
  function Coalesce<T>(a: Option<T>, b: Option<T>): Option<T> {
    if a.Some? then a else b
  }

  /** `payload.x ? toSeconds(payload.x) : null` */
  function OptionalSeconds(x: Value, now: int): Option<int> {
    if Truthy(x) then Some(ToSeconds(x, now)) else None
  }

  function UpsertStatus(p: CallPayload): string {
    if NonEmpty(p.status).Some? then p.status.value else "incoming"
  }

  function UpsertTs(p: CallPayload, now: int): int {
    ToSeconds(p.ts, now)
  }

  function UpsertStartedAt(p: CallPayload, now: int): Option<int> {
    if p.event == "start" then Some(UpsertTs(p, now)) else OptionalSeconds(p.startedAt, now)
  }

  function UpsertEndedAt(p: CallPayload, now: int): Option<int> {
    if p.event == "end" then Some(UpsertTs(p, now)) else OptionalSeconds(p.endedAt, now)
  }

  /** The row of the INSERT ... VALUES clause. */
  function InsertedRow(p: CallPayload, now: int): CallRow {
    var ts := UpsertTs(p, now);
    CallRow(
      p.callId,
      UpsertStatus(p),
      UpsertStartedAt(p, now),
      UpsertEndedAt(p, now),
      NonEmpty(p.fromUri),
      NonEmpty(p.toUri),
      NonEmpty(p.provider),
      NonEmpty(p.conferenceName),
      NonEmpty(p.callToken),
      if p.lastSeq.Some? then p.lastSeq.value else 0,
      if Truthy(p.createdAt) then ToSeconds(p.createdAt, now) else ts,
      ts)
  }

  /** The ON CONFLICT(call_id) DO UPDATE clause: `existing` is the stored
      row, `excluded` the row that could not be inserted. */
  function MergeRow(existing: CallRow, excluded: CallRow): CallRow {
    existing.(
      status := excluded.status,
      startedAt := Coalesce(existing.startedAt, excluded.startedAt),
      endedAt := Coalesce(excluded.endedAt, existing.endedAt),
      fromUri := Coalesce(excluded.fromUri, existing.fromUri),
      toUri := Coalesce(excluded.toUri, existing.toUri),
      provider := Coalesce(excluded.provider, existing.provider),
      conferenceName := Coalesce(excluded.conferenceName, existing.conferenceName),
      callToken := Coalesce(excluded.callToken, existing.callToken),
      updatedAt := excluded.updatedAt)
  }

  function Upserted(table: map<string, CallRow>, p: CallPayload, now: int): map<string, CallRow> {
    var row := InsertedRow(p, now);
    table[p.callId := if p.callId in table then MergeRow(table[p.callId], row) else row]
  }

  /** Upserting the same payload twice leaves the row as upserting it once. */
  lemma UpsertIdempotent(table: map<string, CallRow>, p: CallPayload, now: int)
    ensures Upserted(Upserted(table, p, now), p, now) == Upserted(table, p, now)
  {
  }

  /** The row's state after a run of upserts of the given rows, starting
      from no row. */
  function AfterUpserts(existing: Option<CallRow>, rows: seq<CallRow>): CallRow
    requires existing.Some? || |rows| > 0
    decreases |rows|
  {
    if |rows| == 0 then existing.value
    else
      var first := if existing.None? then rows[0] else MergeRow(existing.value, rows[0]);
      AfterUpserts(Some(first), rows[1..])
  }

  /** The first non-null value in a list, or null. */
  function FirstSome<T>(xs: seq<Option<T>>): Option<T>
    decreases |xs|
  {
    if |xs| == 0 then None else Coalesce(xs[0], FirstSome(xs[1..]))
  }

  /** The last non-null value in a list, or null. */
  function LastSome<T>(xs: seq<Option<T>>): Option<T>
    decreases |xs|
  {
    if |xs| == 0 then None else Coalesce(LastSome(xs[1..]), xs[0])
  }

  function StartedAts(rows: seq<CallRow>): (r: seq<Option<int>>)
    ensures |r| == |rows| && forall i :: 0 <= i < |rows| ==> r[i] == rows[i].startedAt
  {
    seq(|rows|, i requires 0 <= i < |rows| => rows[i].startedAt)
  }

  /** The existing row's `started_at`, as a list of zero or one entries. */
  function ExistingStarted(existing: Option<CallRow>): seq<Option<int>> {
    if existing.Some? then [existing.value.startedAt] else []
  }

  lemma {:induction false} FirstSomeAppend<T>(xs: seq<Option<T>>, ys: seq<Option<T>>)
    ensures FirstSome(xs + ys) == Coalesce(FirstSome(xs), FirstSome(ys))
    decreases |xs|
  {
    if |xs| == 0 {
      assert xs + ys == ys;
    } else {
      assert (xs + ys)[0] == xs[0];
      assert (xs + ys)[1..] == xs[1..] + ys;
      FirstSomeAppend(xs[1..], ys);
    }
  }

  lemma {:induction false} LastSomeAppend<T>(xs: seq<Option<T>>, ys: seq<Option<T>>)
    ensures LastSome(xs + ys) == Coalesce(LastSome(ys), LastSome(xs))
    decreases |xs|
  {
    if |xs| == 0 {
      assert xs + ys == ys;
    } else {
      assert (xs + ys)[0] == xs[0];
      assert (xs + ys)[1..] == xs[1..] + ys;
      LastSomeAppend(xs[1..], ys);
    }
  }

  lemma StartedAtsCons(rows: seq<CallRow>)
    requires |rows| > 0
    ensures StartedAts(rows) == [rows[0].startedAt] + StartedAts(rows[1..])
  {
    var r := [rows[0].startedAt] + StartedAts(rows[1..]);
    forall i | 0 <= i < |rows|
      ensures StartedAts(rows)[i] == r[i]
    {
      if i > 0 {
        assert r[i] == StartedAts(rows[1..])[i - 1];
      }
    }
  }

  /** Over a run of upserts, `started_at` is the first non-null value offered. */
  lemma {:induction false} UpsertRunStarted(existing: Option<CallRow>, rows: seq<CallRow>)
    requires existing.Some? || |rows| > 0
    ensures AfterUpserts(existing, rows).startedAt
            == FirstSome(ExistingStarted(existing) + StartedAts(rows))
    decreases |rows|
  {
    if |rows| > 0 {
      var first := if existing.None? then rows[0] else MergeRow(existing.value, rows[0]);
      UpsertRunStarted(Some(first), rows[1..]);
      var s0 := ExistingStarted(existing);
      StartedAtsCons(rows);
      FirstSomeAppend(s0, [rows[0].startedAt] + StartedAts(rows[1..]));
      FirstSomeAppend([first.startedAt], StartedAts(rows[1..]));
      FirstSomeAppend(s0, [rows[0].startedAt]);
    }
  }

  /** The value a row holds in one column. */
  function Column<T>(rows: seq<CallRow>, col: CallRow -> Option<T>): (r: seq<Option<T>>)
    ensures |r| == |rows| && forall i :: 0 <= i < |rows| ==> r[i] == col(rows[i])
  {
    seq(|rows|, i requires 0 <= i < |rows| => col(rows[i]))
  }

  /** The existing row's value in one column, as a list of zero or one entries. */
  function ExistingColumn<T>(existing: Option<CallRow>, col: CallRow -> Option<T>): seq<Option<T>> {
    if existing.Some? then [col(existing.value)] else []
  }

  /** A column the conflict clause sets to `COALESCE(excluded.c, calls.c)`. */
  ghost predicate NewestWins<T>(col: CallRow -> Option<T>) {
    forall existing, excluded :: col(MergeRow(existing, excluded)) == Coalesce(col(excluded), col(existing))
  }

  function EndedAtOf(r: CallRow): Option<int> { r.endedAt }
  function FromUriOf(r: CallRow): Option<string> { r.fromUri }
  function ToUriOf(r: CallRow): Option<string> { r.toUri }
  function ProviderOf(r: CallRow): Option<string> { r.provider }
  function ConferenceNameOf(r: CallRow): Option<string> { r.conferenceName }
  function CallTokenOf(r: CallRow): Option<string> { r.callToken }

  lemma ColumnCons<T>(rows: seq<CallRow>, col: CallRow -> Option<T>)
    requires |rows| > 0
    ensures Column(rows, col) == [col(rows[0])] + Column(rows[1..], col)
  {
    var r := [col(rows[0])] + Column(rows[1..], col);
    forall i | 0 <= i < |rows|
      ensures Column(rows, col)[i] == r[i]
    {
      if i > 0 {
        assert r[i] == Column(rows[1..], col)[i - 1];
      }
    }
  }

  lemma CoalesceAssoc<T>(a: Option<T>, b: Option<T>, c: Option<T>)
    ensures Coalesce(a, Coalesce(b, c)) == Coalesce(Coalesce(a, b), c)
  {
  }

  /** Over a run of upserts, a column the newest non-null value wins holds
      the last non-null value offered. */
  lemma {:induction false} UpsertRunNewest<T>(existing: Option<CallRow>, rows: seq<CallRow>, col: CallRow -> Option<T>)
    requires NewestWins(col)
    requires existing.Some? || |rows| > 0
    ensures col(AfterUpserts(existing, rows)) == LastSome(ExistingColumn(existing, col) + Column(rows, col))
    decreases |rows|
  {
    if |rows| > 0 {
      var first := if existing.None? then rows[0] else MergeRow(existing.value, rows[0]);
      assert AfterUpserts(existing, rows) == AfterUpserts(Some(first), rows[1..]);
      UpsertRunNewest(Some(first), rows[1..], col);
      var e0, c0, rest := ExistingColumn(existing, col), col(rows[0]), Column(rows[1..], col);
      assert LastSome([c0]) == c0;
      assert col(first) == Coalesce(c0, LastSome(e0)) by {
        if existing.Some? {
          assert LastSome(e0) == col(existing.value);
        }
      }
      ColumnCons(rows, col);
      LastSomeAppend([col(first)], rest);
      assert LastSome([col(first)]) == col(first);
      LastSomeAppend(e0, [c0] + rest);
      LastSomeAppend([c0], rest);
      calc {
        col(AfterUpserts(existing, rows));
        LastSome([col(first)] + rest);
        Coalesce(LastSome(rest), Coalesce(c0, LastSome(e0)));
        { CoalesceAssoc(LastSome(rest), c0, LastSome(e0)); }
        Coalesce(Coalesce(LastSome(rest), c0), LastSome(e0));
        Coalesce(LastSome([c0] + rest), LastSome(e0));
        LastSome(e0 + ([c0] + rest));
      }
    } else {
      assert ExistingColumn(existing, col) + Column(rows, col) == [col(existing.value)];
    }
  }

  /** Over a run of upserts, `status` and `updated_at` are the last
      upsert's, and `last_seq`, `created_at` and `call_id` those of the row
      the run started from. */
  lemma {:induction false} UpsertRunKeeps(existing: Option<CallRow>, rows: seq<CallRow>)
    requires existing.Some? || |rows| > 0
    ensures |rows| > 0 ==> AfterUpserts(existing, rows).status == rows[|rows| - 1].status
    ensures |rows| > 0 ==> AfterUpserts(existing, rows).updatedAt == rows[|rows| - 1].updatedAt
    ensures var first := if existing.Some? then existing.value else rows[0];
            var r := AfterUpserts(existing, rows);
            r.lastSeq == first.lastSeq && r.createdAt == first.createdAt && r.callId == first.callId
    decreases |rows|
  {
    if |rows| > 0 {
      var first := if existing.None? then rows[0] else MergeRow(existing.value, rows[0]);
      assert AfterUpserts(existing, rows) == AfterUpserts(Some(first), rows[1..]);
      UpsertRunKeeps(Some(first), rows[1..]);
      if |rows| > 1 {
        assert rows[1..][|rows| - 2] == rows[|rows| - 1];
      }
    }
  }

  /** Over any run of upserts on one call, `started_at` is the first
      non-null value ever offered and `ended_at`, `from_uri`, `to_uri`,
      `provider`, `conference_name` and `call_token` the last non-null one;
      `status` and `updated_at` are the last upsert's, and `last_seq`,
      `created_at` and `call_id` stay those of the first insert. */
  lemma UpsertRunMerge(existing: Option<CallRow>, rows: seq<CallRow>)
    requires existing.Some? || |rows| > 0
    ensures AfterUpserts(existing, rows).startedAt
            == FirstSome(ExistingStarted(existing) + StartedAts(rows))
    ensures AfterUpserts(existing, rows).endedAt
            == LastSome(ExistingColumn(existing, EndedAtOf) + Column(rows, EndedAtOf))
    ensures AfterUpserts(existing, rows).fromUri
            == LastSome(ExistingColumn(existing, FromUriOf) + Column(rows, FromUriOf))
    ensures AfterUpserts(existing, rows).toUri
            == LastSome(ExistingColumn(existing, ToUriOf) + Column(rows, ToUriOf))
    ensures AfterUpserts(existing, rows).provider
            == LastSome(ExistingColumn(existing, ProviderOf) + Column(rows, ProviderOf))
    ensures AfterUpserts(existing, rows).conferenceName
            == LastSome(ExistingColumn(existing, ConferenceNameOf) + Column(rows, ConferenceNameOf))
    ensures AfterUpserts(existing, rows).callToken
            == LastSome(ExistingColumn(existing, CallTokenOf) + Column(rows, CallTokenOf))
    ensures |rows| > 0 ==> AfterUpserts(existing, rows).status == rows[|rows| - 1].status
    ensures |rows| > 0 ==> AfterUpserts(existing, rows).updatedAt == rows[|rows| - 1].updatedAt
    ensures var first := if existing.Some? then existing.value else rows[0];
            var r := AfterUpserts(existing, rows);
            r.lastSeq == first.lastSeq && r.createdAt == first.createdAt && r.callId == first.callId
  {
    UpsertRunStarted(existing, rows);
    UpsertRunNewest(existing, rows, EndedAtOf);
    UpsertRunNewest(existing, rows, FromUriOf);
    UpsertRunNewest(existing, rows, ToUriOf);
    UpsertRunNewest(existing, rows, ProviderOf);
    UpsertRunNewest(existing, rows, ConferenceNameOf);
    UpsertRunNewest(existing, rows, CallTokenOf);
    UpsertRunKeeps(existing, rows);
  }

  /** `last_seq` of every existing call is at least what it was. */
  ghost predicate LastSeqKept(before: map<string, CallRow>, after: map<string, CallRow>) {
    forall id :: id in before ==> id in after && after[id].lastSeq >= before[id].lastSeq
  }

  /** An upsert never changes `last_seq` or `created_at` of an existing call. */
  lemma UpsertKeepsLastSeq(table: map<string, CallRow>, p: CallPayload, now: int)
    ensures LastSeqKept(table, Upserted(table, p, now))
    ensures p.callId in table ==>
              Upserted(table, p, now)[p.callId].lastSeq == table[p.callId].lastSeq &&
              Upserted(table, p, now)[p.callId].createdAt == table[p.callId].createdAt
  {
  }

  // ---------------------------------------------------------------------
  // The transcript insert
  // ---------------------------------------------------------------------

  /** `UPDATE calls SET last_seq = MAX(last_seq, seq), updated_at = ...
      WHERE call_id = ...` */
  function RaiseLastSeq(table: map<string, CallRow>, callId: string, seqNo: int, updatedAt: int)
    : map<string, CallRow>
  {
    if callId in table then
      var r := table[callId];
      table[callId := r.(lastSeq := if seqNo > r.lastSeq then seqNo else r.lastSeq, updatedAt := updatedAt)]
    else table
  }

  /** The update raises `last_seq` to at least `seqNo` and never lowers it. */
  lemma RaiseLastSeqMonotone(table: map<string, CallRow>, callId: string, seqNo: int, updatedAt: int)
    ensures LastSeqKept(table, RaiseLastSeq(table, callId, seqNo, updatedAt))
    ensures RaiseLastSeq(table, callId, seqNo, updatedAt).Keys == table.Keys
    ensures callId in table ==> RaiseLastSeq(table, callId, seqNo, updatedAt)[callId].lastSeq >= seqNo
  {
  }

  // ---------------------------------------------------------------------
  // Listing order and keyset pages
  // ---------------------------------------------------------------------

  /** The sort key of `ORDER BY started_at DESC, call_id DESC`. */
  datatype ListKey = ListKey(startedAt: Option<int>, callId: string)

  function RowKey(r: CallRow): ListKey {
    ListKey(r.startedAt, r.callId)
  }

  function CursorKey(c: Cursor): ListKey {
    ListKey(c.startedAt, c.callId)
  }

  function CursorOf(r: CallRow): Cursor {
    Cursor(r.startedAt, r.callId)
  }

  /** `x > y` for `started_at`, where SQLite sorts NULL below every number. */
  predicate StartedGreater(x: Option<int>, y: Option<int>) {
    x.Some? && (y.None? || x.value > y.value)
  }

  /** `a` is listed before `b`. */
  predicate Before(a: ListKey, b: ListKey) {
    StartedGreater(a.startedAt, b.startedAt) ||
    (a.startedAt == b.startedAt && StrLess(b.callId, a.callId))
  }

  lemma BeforeIrreflexive(a: ListKey)
    ensures !Before(a, a)
  {
    StrLessIrreflexive(a.callId);
  }

  lemma BeforeTransitive(a: ListKey, b: ListKey, c: ListKey)
    requires Before(a, b) && Before(b, c)
    ensures Before(a, c)
  {
    if a.startedAt == b.startedAt == c.startedAt {
      StrLessTransitive(c.callId, b.callId, a.callId);
    }
  }

  lemma BeforeTotal(a: ListKey, b: ListKey)
    requires a.callId != b.callId
    ensures Before(a, b) || Before(b, a)
  {
    if a.startedAt == b.startedAt {
      StrLessTotal(a.callId, b.callId);
    }
  }

  /** Every row is stored under its own call_id. */
  ghost predicate KeysConsistent(table: map<string, CallRow>) {
    forall id :: id in table ==> table[id].callId == id
  }

  predicate StatusMatches(r: CallRow, status: Option<string>) {
    NonEmpty(status).None? || r.status == status.value
  }

  /** The rows of `fetchCalls`' WHERE clause, with the cursor condition read
      as "listed after the cursor" in the listing order (NULL `started_at`
      last), and applied whenever a cursor decoded. */
  function Candidates(table: map<string, CallRow>, status: Option<string>, cursor: Option<Cursor>)
    : (r: set<string>)
    ensures forall id :: id in r ==> id in table && StatusMatches(table[id], status)
    ensures cursor.None? ==> forall id :: id in table && StatusMatches(table[id], status) ==> id in r
    ensures cursor.Some? ==> forall id :: id in r ==> Before(CursorKey(cursor.value), RowKey(table[id]))
    ensures cursor.Some? && cursor.value.startedAt.Some? ==>
              forall id :: id in table && StatusMatches(table[id], status) && table[id].startedAt.None? ==> id in r
  {
    set id | id in table && StatusMatches(table[id], status) &&
             (cursor.None? || Before(CursorKey(cursor.value), RowKey(table[id])))
  }

  /** The WHERE clause of `fetchCalls` as written: the cursor is used only
      when both its fields are truthy, and `started_at < ?` is never true of
      a NULL `started_at`. */
  function CandidatesAsWritten(table: map<string, CallRow>, status: Option<string>, cursor: Option<Cursor>)
    : (r: set<string>)
    ensures forall id :: id in r ==> id in table && StatusMatches(table[id], status)
    ensures cursor.None? || cursor.value.startedAt.None? || cursor.value.startedAt == Some(0) ||
            cursor.value.callId == "" ==>
              forall id :: id in table && StatusMatches(table[id], status) ==> id in r
    ensures cursor.Some? && cursor.value.startedAt.Some? && cursor.value.startedAt.value != 0 &&
            cursor.value.callId != "" ==>
              forall id :: id in r ==> table[id].startedAt.Some?
  {
    var applies := cursor.Some? && cursor.value.startedAt.Some? &&
                   cursor.value.startedAt.value != 0 && cursor.value.callId != "";
    set id | id in table && StatusMatches(table[id], status) &&
             (!applies ||
              (table[id].startedAt.Some? &&
               (table[id].startedAt.value < cursor.value.startedAt.value ||
                (table[id].startedAt.value == cursor.value.startedAt.value &&
                 StrLess(table[id].callId, cursor.value.callId)))))
  }

  function Ids(rows: seq<CallRow>): set<string> {
    set i | 0 <= i < |rows| :: rows[i].callId
  }

  /** `rows` is what `SELECT ... WHERE <cand> ORDER BY started_at DESC,
      call_id DESC LIMIT n` returns: rows of the table from `cand`, in
      listing order, and every candidate left out comes after all of them
      on a full page. */
  ghost predicate IsListing(table: map<string, CallRow>, cand: set<string>, rows: seq<CallRow>, n: nat) {
    && cand <= table.Keys
    && |rows| <= n
    && (forall i :: 0 <= i < |rows| ==>
          rows[i].callId in cand && rows[i].callId in table && table[rows[i].callId] == rows[i])
    && (forall i, j :: 0 <= i < j < |rows| ==> Before(RowKey(rows[i]), RowKey(rows[j])))
    && (forall id :: id in cand && id !in Ids(rows) ==>
          |rows| == n && forall i :: 0 <= i < |rows| ==> Before(RowKey(rows[i]), RowKey(table[id])))
  }

  lemma IdsAppend(a: seq<CallRow>, b: seq<CallRow>)
    ensures Ids(a + b) == Ids(a) + Ids(b)
  {
    forall id | id in Ids(a + b)
      ensures id in Ids(a) + Ids(b)
    {
      var i :| 0 <= i < |a + b| && (a + b)[i].callId == id;
      if i >= |a| {
        assert b[i - |a|].callId == id;
      }
    }
    forall id | id in Ids(a) + Ids(b)
      ensures id in Ids(a + b)
    {
      if id in Ids(a) {
        var i :| 0 <= i < |a| && a[i].callId == id;
        assert (a + b)[i].callId == id;
      } else {
        var i :| 0 <= i < |b| && b[i].callId == id;
        assert (a + b)[|a| + i].callId == id;
      }
    }
  }

  lemma {:induction false} DistinctIdsCount(rows: seq<CallRow>)
    requires forall i, j :: 0 <= i < j < |rows| ==> rows[i].callId != rows[j].callId
    ensures |Ids(rows)| == |rows|
    decreases |rows|
  {
    if |rows| > 0 {
      var init := rows[..|rows| - 1];
      var last := rows[|rows| - 1];
      DistinctIdsCount(init);
      assert rows == init + [last];
      IdsAppend(init, [last]);
      IdsSingle(last);
      assert last.callId !in Ids(init);
    }
  }

  lemma IdsSingle(r: CallRow)
    ensures Ids([r]) == {r.callId}
  {
    assert [r][0] == r;
  }

  /** The rows of a listing are distinct calls. */
  lemma ListingDistinct(table: map<string, CallRow>, cand: set<string>, rows: seq<CallRow>, n: nat)
    requires IsListing(table, cand, rows, n)
    ensures forall i, j :: 0 <= i < j < |rows| ==> rows[i].callId != rows[j].callId
  {
    forall i, j | 0 <= i < j < |rows|
      ensures rows[i].callId != rows[j].callId
    {
      BeforeIrreflexive(RowKey(rows[i]));
    }
  }

  lemma {:induction false} SubsetSize(a: set<string>, b: set<string>)
    requires a <= b
    ensures |a| <= |b|
    decreases b
  {
    if a != {} {
      var x :| x in a;
      SubsetSize(a - {x}, b - {x});
    }
  }

  /** A listing holds min(n, number of candidates) rows. */
  lemma ListingSize(table: map<string, CallRow>, cand: set<string>, rows: seq<CallRow>, n: nat)
    requires IsListing(table, cand, rows, n)
    ensures |rows| == if |cand| < n then |cand| else n
  {
    ListingDistinct(table, cand, rows, n);
    DistinctIdsCount(rows);
    assert Ids(rows) <= cand;
    SubsetSize(Ids(rows), cand);
    if |rows| < n {
      assert cand == Ids(rows);
    }
  }

  /** The first k rows of a listing are the listing with limit k. */
  lemma ListingPrefix(table: map<string, CallRow>, cand: set<string>, rows: seq<CallRow>, n: nat, k: nat)
    requires IsListing(table, cand, rows, n) && k <= |rows|
    ensures IsListing(table, cand, rows[..k], k)
  {
    var p := rows[..k];
    forall id | id in cand && id !in Ids(p)
      ensures forall i :: 0 <= i < |p| ==> Before(RowKey(p[i]), RowKey(table[id]))
    {
      if id in Ids(rows) {
        var j :| 0 <= j < |rows| && rows[j].callId == id;
        assert j >= k;
        assert table[id] == rows[j];
      }
    }
  }

  /** Fetching one row more than the page size and dropping it tells
      whether more rows matched, and what is kept is a listing of the page. */
  lemma TrimFetched(table: map<string, CallRow>, cand: set<string>, fetched: seq<CallRow>, limit: nat)
    requires IsListing(table, cand, fetched, limit + 1)
    ensures |fetched| > limit <==> |cand| > limit
    ensures |fetched| > limit ==> IsListing(table, cand, fetched[..limit], limit)
    ensures |fetched| <= limit ==> IsListing(table, cand, fetched, limit)
  {
    ListingSize(table, cand, fetched, limit + 1);
    if |fetched| > limit {
      ListingPrefix(table, cand, fetched, limit + 1, limit);
    } else {
      ListingPrefix(table, cand, fetched, limit + 1, |fetched|);
      assert fetched[..|fetched|] == fetched;
    }
  }

  /** A non-empty set of stored calls has one that is listed first. */
  lemma {:induction false} FirstExists(table: map<string, CallRow>, s: set<string>)
    requires KeysConsistent(table) && s <= table.Keys && s != {}
    ensures exists k :: k in s &&
              forall j :: j in s && j != k ==> Before(RowKey(table[k]), RowKey(table[j]))
    decreases s
  {
    var x :| x in s;
    if s != {x} {
      var rest := s - {x};
      FirstExists(table, rest);
      var k :| k in rest && forall j :: j in rest && j != k ==> Before(RowKey(table[k]), RowKey(table[j]));
      BeforeTotal(RowKey(table[k]), RowKey(table[x]));
      if Before(RowKey(table[x]), RowKey(table[k])) {
        forall j | j in s && j != x
          ensures Before(RowKey(table[x]), RowKey(table[j]))
        {
          if j != k {
            BeforeTransitive(RowKey(table[x]), RowKey(table[k]), RowKey(table[j]));
          }
        }
      } else {
        assert forall j :: j in s && j != k ==> Before(RowKey(table[k]), RowKey(table[j]));
      }
    }
  }

  /** The candidates after the cursor of a page's last row are exactly the
      earlier candidates that the page did not list. */
  lemma NextCandidates(table: map<string, CallRow>, status: Option<string>, c0: Option<Cursor>,
                       p1: seq<CallRow>, n1: nat)
    requires KeysConsistent(table)
    requires IsListing(table, Candidates(table, status, c0), p1, n1) && |p1| == n1 > 0
    ensures Candidates(table, status, Some(CursorOf(p1[n1 - 1]))) ==
            Candidates(table, status, c0) - Ids(p1)
  {
    var cand0 := Candidates(table, status, c0);
    var lk := RowKey(p1[n1 - 1]);
    var cand1 := Candidates(table, status, Some(CursorOf(p1[n1 - 1])));
    assert CursorKey(CursorOf(p1[n1 - 1])) == lk;
    forall id | id in cand1
      ensures id in cand0 && id !in Ids(p1)
    {
      if c0.Some? {
        BeforeTransitive(CursorKey(c0.value), lk, RowKey(table[id]));
      }
      if id in Ids(p1) {
        var i :| 0 <= i < n1 && p1[i].callId == id;
        assert table[id] == p1[i];
        if i == n1 - 1 {
          BeforeIrreflexive(lk);
        } else {
          BeforeTransitive(RowKey(p1[i]), lk, RowKey(p1[i]));
          BeforeIrreflexive(RowKey(p1[i]));
        }
      }
    }
    forall id | id in cand0 && id !in Ids(p1)
      ensures id in cand1
    {
      assert Before(lk, RowKey(table[id]));
    }
  }

  /** A page followed by a page of rows listed after its last row is ordered. */
  lemma ConcatOrdered(p1: seq<CallRow>, p2: seq<CallRow>)
    requires |p1| > 0
    requires forall i, j :: 0 <= i < j < |p1| ==> Before(RowKey(p1[i]), RowKey(p1[j]))
    requires forall i, j :: 0 <= i < j < |p2| ==> Before(RowKey(p2[i]), RowKey(p2[j]))
    requires forall j :: 0 <= j < |p2| ==> Before(RowKey(p1[|p1| - 1]), RowKey(p2[j]))
    ensures forall i, j :: 0 <= i < j < |p1 + p2| ==> Before(RowKey((p1 + p2)[i]), RowKey((p1 + p2)[j]))
  {
    var all := p1 + p2;
    var n1 := |p1|;
    var lk := RowKey(p1[n1 - 1]);
    forall i, j | 0 <= i < j < |all|
      ensures Before(RowKey(all[i]), RowKey(all[j]))
    {
      if i < n1 && j >= n1 {
        assert all[j] == p2[j - n1];
        if i < n1 - 1 {
          BeforeTransitive(RowKey(p1[i]), lk, RowKey(all[j]));
        }
      }
    }
  }

  /** Two successive pages: the second page, fetched with the cursor of the
      first page's last row, continues the first without gap or overlap, so
      together they are the listing of both page sizes. */
  lemma NextPageContinues(table: map<string, CallRow>, status: Option<string>, c0: Option<Cursor>,
                          p1: seq<CallRow>, n1: nat, p2: seq<CallRow>, n2: nat)
    requires KeysConsistent(table)
    requires IsListing(table, Candidates(table, status, c0), p1, n1) && |p1| == n1 > 0
    requires IsListing(table, Candidates(table, status, Some(CursorOf(p1[n1 - 1]))), p2, n2)
    ensures IsListing(table, Candidates(table, status, c0), p1 + p2, n1 + n2)
  {
    var cand0 := Candidates(table, status, c0);
    var lk := RowKey(p1[n1 - 1]);
    var cand1 := Candidates(table, status, Some(CursorOf(p1[n1 - 1])));
    NextCandidates(table, status, c0, p1, n1);
    assert CursorKey(CursorOf(p1[n1 - 1])) == lk;
    forall j | 0 <= j < |p2|
      ensures Before(lk, RowKey(p2[j]))
    {
      assert p2[j].callId in cand1;
    }
    ConcatOrdered(p1, p2);
    var all := p1 + p2;
    IdsAppend(p1, p2);
    forall id | id in cand0 && id !in Ids(all)
      ensures |all| == n1 + n2 && forall i :: 0 <= i < |all| ==> Before(RowKey(all[i]), RowKey(table[id]))
    {
      assert id in cand1;
      forall i | 0 <= i < |all|
        ensures Before(RowKey(all[i]), RowKey(table[id]))
      {
        if i >= n1 {
          assert all[i] == p2[i - n1];
        } else {
          assert all[i] == p1[i];
        }
      }
    }
    forall i | 0 <= i < |all|
      ensures all[i].callId in cand0 && all[i].callId in table && table[all[i].callId] == all[i]
    {
      if i >= n1 {
        assert all[i] == p2[i - n1];
      }
    }
  }

  /** Two calls with no `started_at` and pages of two rows: the as-written
      query returns the same call on the page fetched with the first page's
      cursor, because a cursor whose `started_at` is null is ignored. */
  lemma NullStartedAtPageRepeats(p1: seq<CallRow>, p2: seq<CallRow>)
    requires var table := map["b" := SampleRow("b", None), "c" := SampleRow("c", None)];
             && IsListing(table, CandidatesAsWritten(table, None, None), p1, 2)
             && |p1| > 0
             && IsListing(table, CandidatesAsWritten(table, None, Some(CursorOf(p1[0]))), p2, 2)
    ensures |p1| == 2 && p1[0].callId == "c" && |p2| > 0 && p2[0] == p1[0]
  {
    var table := map["b" := SampleRow("b", None), "c" := SampleRow("c", None)];
    var cand := CandidatesAsWritten(table, None, None);
    assert "b" in cand && "c" in cand;
    assert StrLess("b", "c");
    assert !StrLess("c", "b");
    TopOfTwo(table, cand, p1);
    assert CandidatesAsWritten(table, None, Some(CursorOf(p1[0]))) == cand;
    TopOfTwo(table, cand, p2);
  }

  lemma TopOfTwo(table: map<string, CallRow>, cand: set<string>, p: seq<CallRow>)
    requires table == map["b" := SampleRow("b", None), "c" := SampleRow("c", None)]
    requires "b" in cand && "c" in cand
    requires IsListing(table, cand, p, 2)
    ensures |p| == 2 && p[0] == table["c"]
  {
    assert StrLess("b", "c") && !StrLess("c", "b");
    ShortIds(p);
    assert p[0].callId == "b" || p[0].callId == "c";
    assert p[1].callId == "b" || p[1].callId == "c";
  }

  lemma ShortIds(p: seq<CallRow>)
    ensures |p| < 2 ==> forall a, b :: a in Ids(p) && b in Ids(p) ==> a == b
  {
    if |p| == 1 {
      assert Ids(p) == {p[0].callId};
    } else if |p| == 0 {
      assert Ids(p) == {};
    }
  }

  /** A call started at 100 and one with no `started_at`: after
      the first page the as-written WHERE clause matches nothing, so the
      second call is never listed. */
  lemma NullStartedAtSkipped()
    ensures var table := map["a" := SampleRow("a", Some(100)), "b" := SampleRow("b", None)];
            "b" in CandidatesAsWritten(table, None, None) &&
            CandidatesAsWritten(table, None, Some(CursorOf(table["a"]))) == {}
  {
  }

  function SampleRow(id: string, startedAt: Option<int>): CallRow {
    CallRow(id, "live", startedAt, None, None, None, None, None, None, 0, 0, 0)
  }

  /** The state of the ordered SELECT part way: `rows` are the first
      candidates in listing order, `remaining` the ones not yet taken, all
      listed after them. */
  ghost predicate SelectInv(table: map<string, CallRow>, cand: set<string>, rows: seq<CallRow>,
                            remaining: set<string>)
  {
    && cand <= table.Keys
    && remaining !! Ids(rows)
    && remaining + Ids(rows) == cand
    && (forall i :: 0 <= i < |rows| ==>
          rows[i].callId in cand && rows[i].callId in table && table[rows[i].callId] == rows[i])
    && (forall i, j :: 0 <= i < j < |rows| ==> Before(RowKey(rows[i]), RowKey(rows[j])))
    && (forall id :: id in remaining ==>
          forall i :: 0 <= i < |rows| ==> Before(RowKey(rows[i]), RowKey(table[id])))
  }

  /** The state of the ordered transcript SELECT part way: `items` are the
      rows of `callId` whose seq was taken from `cand`, ascending, and every
      seq in `remaining` is larger. */
  ghost predicate TranscriptInv(segments: map<(string, int), StoredSegment>, callId: string,
                                afterSeq: int, cand: set<int>, items: seq<Segment>, remaining: set<int>)
  {
    && cand == (set k | k in segments.Keys && k.0 == callId && k.1 > afterSeq :: k.1)
    && remaining <= cand
    && (forall i :: 0 <= i < |items| ==>
          items[i].seqNo > afterSeq && (callId, items[i].seqNo) in segments &&
          segments[(callId, items[i].seqNo)].segment == items[i] &&
          items[i].seqNo !in remaining)
    && (forall i, j :: 0 <= i < j < |items| ==> items[i].seqNo < items[j].seqNo)
    && (forall s :: s in cand && s !in remaining ==>
          exists i :: 0 <= i < |items| && items[i].seqNo == s)
    && (forall s :: s in remaining ==> forall i :: 0 <= i < |items| ==> items[i].seqNo < s)
  }

  /** Taking the smallest remaining seq keeps `TranscriptInv`. */
  lemma TranscriptStep(segments: map<(string, int), StoredSegment>, callId: string,
                       afterSeq: int, cand: set<int>, items: seq<Segment>, remaining: set<int>, m: int)
    requires forall k :: k in segments ==> segments[k].segment.seqNo == k.1
    requires TranscriptInv(segments, callId, afterSeq, cand, items, remaining)
    requires m in remaining && forall x :: x in remaining ==> m <= x
    ensures (callId, m) in segments
    ensures TranscriptInv(segments, callId, afterSeq, cand,
                          items + [segments[(callId, m)].segment], remaining - {m})
  {
    assert m in cand;
    var next := items + [segments[(callId, m)].segment];
    assert next[|items|].seqNo == m;
    forall s | s in cand && s !in remaining - {m}
      ensures exists i :: 0 <= i < |next| && next[i].seqNo == s
    {
      if s != m {
        var i :| 0 <= i < |items| && items[i].seqNo == s;
        assert next[i] == items[i];
      }
    }
    forall i, j | 0 <= i < j < |next|
      ensures next[i].seqNo < next[j].seqNo
    {
      if j == |items| {
        assert next[i] == items[i];
      }
    }
  }

  /** Taking the first remaining candidate keeps `SelectInv`. */
  lemma SelectStep(table: map<string, CallRow>, cand: set<string>, rows: seq<CallRow>,
                   remaining: set<string>, best: string)
    requires KeysConsistent(table) && SelectInv(table, cand, rows, remaining)
    requires best in remaining
    requires forall j :: j in remaining && j != best ==> Before(RowKey(table[best]), RowKey(table[j]))
    ensures SelectInv(table, cand, rows + [table[best]], remaining - {best})
  {
    var next := rows + [table[best]];
    IdsAppend(rows, [table[best]]);
    IdsSingle(table[best]);
    forall i, j | 0 <= i < j < |next|
      ensures Before(RowKey(next[i]), RowKey(next[j]))
    {
      if j == |rows| {
        assert next[i] == rows[i];
      }
    }
    forall id | id in remaining - {best}
      ensures forall i :: 0 <= i < |next| ==> Before(RowKey(next[i]), RowKey(table[id]))
    {
      forall i | 0 <= i < |next|
        ensures Before(RowKey(next[i]), RowKey(table[id]))
      {
        if i < |rows| {
          assert next[i] == rows[i];
        }
      }
    }
  }

  /** A page of `fetchCalls`. */
  datatype Page = Page(items: seq<ListItem>, nextCursor: Option<string>)

  /** `fetchTranscript`'s result: `items` are the rows of `callId` with seq
      above `afterSeq`, ascending, and every such row left out has a larger
      seq than all of them on a full page. */
  ghost predicate IsTranscriptPage(segments: map<(string, int), StoredSegment>, callId: string,
                                   afterSeq: int, items: seq<Segment>, limit: nat)
  {
    && |items| <= limit
    && (forall i :: 0 <= i < |items| ==>
          items[i].seqNo > afterSeq && (callId, items[i].seqNo) in segments &&
          segments[(callId, items[i].seqNo)].segment == items[i])
    && (forall i, j :: 0 <= i < j < |items| ==> items[i].seqNo < items[j].seqNo)
    && (forall k :: (k in segments && k.0 == callId && k.1 > afterSeq &&
                     (forall i :: 0 <= i < |items| ==> items[i].seqNo != k.1)) ==>
          |items| == limit && forall i :: 0 <= i < |items| ==> items[i].seqNo < k.1)
  }

  /** A set with no element is empty. */
  lemma NoElementEmpty(s: set<int>)
    ensures (forall y :: y !in s) ==> s == {}
  {
    if forall y :: y !in s {
      assert s == {};
    }
  }

  /** The smallest element of a non-empty set of integers. */
  lemma {:induction false} MinOf(s: set<int>) returns (m: int)
    requires s != {}
    ensures m in s && forall x :: x in s ==> m <= x
    decreases |s|
  {
    NoElementEmpty(s);
    var y :| y in s;
    var rest := s - {y};
    if rest == {} {
      m := y;
      forall x | x in s
        ensures m <= x
      {
        assert x !in rest;
      }
    } else {
      var r := MinOf(rest);
      m := if y < r then y else r;
      forall x | x in s
        ensures m <= x
      {
        if x != y {
          assert x in rest;
        }
      }
    }
  }

  // ---------------------------------------------------------------------
  // The store
  // ---------------------------------------------------------------------

  class CallStore {
    var calls: map<string, CallRow>
    var segments: map<(string, int), StoredSegment>

    /** Rows are stored under their keys. */
    ghost predicate Valid()
      reads this
    {
      KeysConsistent(calls) &&
      forall k :: k in segments ==> segments[k].segment.seqNo == k.1
    }

    constructor ()
      ensures Valid() && calls == map[] && segments == map[]
    {
      calls := map[];
      segments := map[];
    }

    /** `upsertCall`: insert the call or merge it into the stored row. */
    method UpsertCall(p: CallPayload, now: int) returns (r: UpsertResult)
      requires Valid()
      modifies this
      ensures Valid()
      ensures calls == Upserted(old(calls), p, now)
      ensures segments == old(segments)
      ensures LastSeqKept(old(calls), calls)
      ensures r == UpsertResult(UpsertStatus(p), UpsertTs(p, now), UpsertEndedAt(p, now))
    {
      var row := InsertedRow(p, now);
      if p.callId in calls {
        calls := calls[p.callId := MergeRow(calls[p.callId], row)];
      } else {
        calls := calls[p.callId := row];
      }
      UpsertKeepsLastSeq(old(calls), p, now);
      r := UpsertResult(row.status, row.updatedAt, row.endedAt);
    }

    /** `insertTranscript`: INSERT OR IGNORE the segment and, only when a row
        was inserted, raise the call's `last_seq`. */
    method InsertTranscript(p: SegmentPayload, now: int) returns (inserted: bool)
      requires Valid()
      modifies this
      ensures Valid()
      ensures inserted <==> (p.callId, p.seqNo) !in old(segments)
      ensures segments == if inserted
                then old(segments)[(p.callId, p.seqNo) :=
                       StoredSegment(Segment(p.seqNo, p.ts, p.speaker, p.text), p.rawJson)]
                else old(segments)
      ensures calls == if inserted
                then RaiseLastSeq(old(calls), p.callId, p.seqNo, ToSeconds(Number(p.ts), now))
                else old(calls)
      ensures LastSeqKept(old(calls), calls)
    {
      inserted := (p.callId, p.seqNo) !in segments;
      if inserted {
        segments := segments[(p.callId, p.seqNo) :=
                      StoredSegment(Segment(p.seqNo, p.ts, p.speaker, p.text), p.rawJson)];
        calls := RaiseLastSeq(calls, p.callId, p.seqNo, ToSeconds(Number(p.ts), now));
        RaiseLastSeqMonotone(old(calls), p.callId, p.seqNo, ToSeconds(Number(p.ts), now));
      }
    }

    /** The row `SELECT ... FROM calls WHERE call_id = ?` finds. */
    method FindCall(callId: string) returns (r: Option<CallRow>)
      ensures r.Some? <==> callId in calls
      ensures r.Some? ==> r.value == calls[callId]
    {
      r := if callId in calls then Some(calls[callId]) else None;
    }

    /** `fetchCall`: the stored call without its `call_token`, or null. */
    method FetchCall(callId: string) returns (r: Option<CallDetail>)
      ensures r.Some? <==> callId in calls
      ensures r.Some? ==> r.value == DetailOf(calls[callId])
    {
      var row := FindCall(callId);
      r := if row.Some? then Some(DetailOf(row.value)) else None;
    }

    /** `fetchTranscript`: segments of `callId` with seq above `afterSeq`,
        ascending, at most `limit` of them. */
    method FetchTranscript(callId: string, afterSeq: int, limit: nat) returns (items: seq<Segment>)
      requires Valid()
      ensures IsTranscriptPage(segments, callId, afterSeq, items, limit)
    {
      var remaining := set k | k in segments.Keys && k.0 == callId && k.1 > afterSeq :: k.1;
      ghost var cand := remaining;
      items := [];
      while |items| < limit && remaining != {}
        invariant TranscriptInv(segments, callId, afterSeq, cand, items, remaining)
        invariant |items| <= limit
        decreases |remaining|
      {
        ghost var least := MinOf(remaining);
        var m :| m in remaining && forall x :: x in remaining ==> m <= x;
        TranscriptStep(segments, callId, afterSeq, cand, items, remaining, m);
        items := items + [segments[(callId, m)].segment];
        remaining := remaining - {m};
      }
      forall k | k in segments && k.0 == callId && k.1 > afterSeq &&
                 (forall i :: 0 <= i < |items| ==> items[i].seqNo != k.1)
        ensures |items| == limit && forall i :: 0 <= i < |items| ==> items[i].seqNo < k.1
      {
        assert k.1 in cand;
      }
    }

    /** The ordered SELECT of `fetchCalls`, `n` rows from `cand`. */
    method SelectListing(cand: set<string>, n: nat) returns (rows: seq<CallRow>)
      requires Valid() && cand <= calls.Keys
      ensures IsListing(calls, cand, rows, n)
    {
      rows := [];
      var remaining := cand;
      while |rows| < n && remaining != {}
        invariant SelectInv(calls, cand, rows, remaining)
        invariant |rows| <= n
        decreases |remaining|
      {
        FirstExists(calls, remaining);
        var best :| best in remaining &&
                    forall j :: j in remaining && j != best ==> Before(RowKey(calls[best]), RowKey(calls[j]));
        SelectStep(calls, cand, rows, remaining, best);
        rows := rows + [calls[best]];
        remaining := remaining - {best};
      }
    }

    /** `fetchCalls`: one page of calls in listing order, at most `limit`,
        and a cursor for the next page exactly when more rows matched. */
    method FetchCalls(status: Option<string>, limit: int, cursor: Option<Cursor>)
      returns (page: Page, ghost rows: seq<CallRow>)
      requires Valid() && limit >= 1
      ensures IsListing(calls, Candidates(calls, status, cursor), rows, limit)
      ensures page.items == ListItems(rows) && |page.items| <= limit
      ensures page.nextCursor.Some? <==> |Candidates(calls, status, cursor)| > limit
      ensures page.nextCursor.Some? ==>
                |rows| == limit && DecodeCursor(page.nextCursor) == Some(CursorOf(rows[limit - 1]))
    {
      var cand := Candidates(calls, status, cursor);
      var fetched := SelectListing(cand, limit + 1);
      TrimFetched(calls, cand, fetched, limit);
      var hasMore := |fetched| > limit;
      if hasMore {
        var got := fetched[..limit];
        var last := got[limit - 1];
        CursorRoundTrip(Cursor(last.startedAt, last.callId));
        page := Page(ListItems(got), Some(EncodeCursor(Cursor(last.startedAt, last.callId))));
        rows := got;
      } else {
        page := Page(ListItems(fetched), None);
        rows := fetched;
      }
    }
  }
}
