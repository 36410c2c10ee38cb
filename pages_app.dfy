/** The static dashboard (cf-pages/app.js): its global `state` object as a
    class. The transcript buffer deduplicates by seq and tracks the largest
    seq and the count of segments not yet scrolled to; the call list is
    updated by id and summarised; the reconnect timer is never doubled. */
module PagesApp {
  import opened Js
  import opened Dashboard

  /** A message from the call's room, as `handleWsMessage` reads it. */
  datatype WsMessage =
    | SnapshotMsg(call: Option<CallEntry>, segments: seq<Seg>)
    | SegmentMsg(segment: Seg)
    | StatusMsg(callId: string, status: Option<string>, endedAt: Option<int>)
    | OtherMsg

  /** The keys of a snapshot's call record, as an update. */
  function SnapshotPatch(c: CallEntry): Patch {
    Patch(Some(c.status), Some(c.startedAt), Some(c.endedAt), Some(c.lastSeq), None)
  }

  /** `appendSegments` on the buffer, from (`transcript0`, `seen0`,
      `pending0`): an empty batch changes nothing; otherwise the segments
      with new seqs are appended in order, their seqs remembered, and the
      pending count cleared when the view scrolls or raised by the number
      appended. */
  ghost predicate Appended(transcript0: seq<Seg>, seen0: set<int>, pending0: nat,
                           transcript: seq<Seg>, seen: set<int>, pending: nat,
                           segments: seq<Seg>, scrolls: bool)
  {
    if segments == [] then transcript == transcript0 && seen == seen0 && pending == pending0
    else
      var added := NewSegments(seen0, segments);
      transcript == transcript0 + added && seen == seen0 + SeqsOf(segments) &&
      pending == (if scrolls then 0 else pending0 + |added|)
  }

  /** A snapshot's call record taken into the detail and the list: the
      detail takes the record's status, times, `last_seq` and id and keeps
      its other keys (with no detail loaded the record becomes the detail),
      and the first list entry with the id takes the same keys. */
  ghost predicate SnapshotMerged(detail0: Option<CallEntry>, calls0: seq<CallEntry>,
                                 detail: Option<CallEntry>, calls: seq<CallEntry>, call: Option<CallEntry>)
  {
    match call
    case None => detail == detail0 && calls == calls0
    case Some(c) =>
      detail.Some? && calls == UpdateFirst(calls0, c.callId, SnapshotPatch(c)) &&
      (var d := detail.value;
       d.callId == c.callId && d.status == c.status && d.startedAt == c.startedAt &&
       d.endedAt == c.endedAt && d.lastSeq == c.lastSeq &&
       (detail0.None? ==> d == c) &&
       (detail0.Some? ==> d.fromUri == detail0.value.fromUri && d.toUri == detail0.value.toUri &&
                          d.updatedAt == detail0.value.updatedAt))
  }

  /** A live segment's effect on a loaded detail: its `last_seq` becomes
      the larger of its own (0 when absent) and the segment's seq, nothing
      else of it changes, and the selected call's list entry takes that
      `last_seq` and the time; with no detail loaded nothing changes. */
  ghost predicate SegmentRaised(detail0: Option<CallEntry>, calls0: seq<CallEntry>,
                                detail: Option<CallEntry>, calls: seq<CallEntry>,
                                selected: Option<string>, segment: Seg, nowSeconds: int)
  {
    match detail0
    case None => detail == detail0 && calls == calls0
    case Some(d0) =>
      var current := d0.lastSeq.GetOr(0);
      var raised := if segment.seqNo > current then segment.seqNo else current;
      detail == Some(d0.(lastSeq := Some(raised))) &&
      calls == (if selected.None? then calls0
                else UpdateFirst(calls0, selected.value,
                                 Patch(None, None, None, Some(Some(raised)), Some(Some(nowSeconds)))))
  }

  /** A status message's effect on a loaded detail: it takes the status,
      and the `ended_at` only when that is present and non-zero; the list
      entry of the message's call takes both as sent. With no detail
      loaded nothing changes. */
  ghost predicate StatusTaken(detail0: Option<CallEntry>, calls0: seq<CallEntry>,
                              detail: Option<CallEntry>, calls: seq<CallEntry>,
                              callId: string, status: Option<string>, endedAt: Option<int>)
  {
    match detail0
    case None => detail == detail0 && calls == calls0
    case Some(d0) =>
      detail == Some(d0.(status := status,
                         endedAt := if endedAt.Some? && endedAt.value != 0 then endedAt else d0.endedAt)) &&
      calls == UpdateFirst(calls0, callId, Patch(Some(status), None, Some(endedAt), None, None))
  }

  lemma PushStart(transcript: seq<Seg>, segmentSet: set<int>, lastSeq: int, segments: seq<Seg>)
    requires BufferInv(transcript, segmentSet, lastSeq)
    ensures PushInv(transcript, segmentSet, lastSeq, segments, 0, transcript, segmentSet, lastSeq, 0)
  {
    assert segments[..0] == [];
    assert SeqsOf([]) == {};
    assert transcript + [] == transcript;
  }

  lemma PushDone(t0: seq<Seg>, set0: set<int>, last0: int, segments: seq<Seg>, i: int,
                 transcript: seq<Seg>, segmentSet: set<int>, lastSeq: int, addedCount: nat)
    requires PushInv(t0, set0, last0, segments, i, transcript, segmentSet, lastSeq, addedCount)
    requires i >= |segments|
    ensures BufferInv(transcript, segmentSet, lastSeq)
    ensures transcript == t0 + NewSegments(set0, segments)
    ensures segmentSet == set0 + SeqsOf(segments)
    ensures addedCount == |NewSegments(set0, segments)|
    ensures lastSeq >= last0
  {
    assert segments[..i] == segments;
  }

  /** One step of the push loop: the `i`-th segment of the batch is
      pushed, its seq recorded and the largest seq raised, exactly when its
      seq is not held yet; otherwise nothing changes. */
  lemma PushStep(t0: seq<Seg>, set0: set<int>, last0: int, segments: seq<Seg>, i: int,
                 transcript: seq<Seg>, segmentSet: set<int>, lastSeq: int, addedCount: nat,
                 transcript': seq<Seg>, segmentSet': set<int>, lastSeq': int, addedCount': nat)
    requires 0 < i <= |segments|
    requires PushInv(t0, set0, last0, segments, i - 1, transcript, segmentSet, lastSeq, addedCount)
    requires var x := segments[i - 1];
             if x.seqNo in segmentSet then
               transcript' == transcript && segmentSet' == segmentSet &&
               lastSeq' == lastSeq && addedCount' == addedCount
             else
               transcript' == transcript + [x] && segmentSet' == segmentSet + {x.seqNo} &&
               lastSeq' == (if x.seqNo > lastSeq then x.seqNo else lastSeq) &&
               addedCount' == addedCount + 1
    ensures PushInv(t0, set0, last0, segments, i, transcript', segmentSet', lastSeq', addedCount')
  {
    var x := segments[i - 1];
    var before := segments[..i - 1];
    var kept := NewSegments(set0, before);
    assert segments[..i] == before + [x];
    NewSegmentsSnoc(set0, before, x);
    if x.seqNo !in segmentSet {
      assert NewSegments(set0, before + [x]) == kept + [x];
      assert transcript + [x] == t0 + (kept + [x]);
      PushKeepsInv(transcript, segmentSet, lastSeq, x);
    } else {
      assert NewSegments(set0, before + [x]) == kept + [];
      assert kept + [] == kept;
      assert segmentSet + {x.seqNo} == segmentSet;
    }
  }

  /** The loop of `appendSegments`: push each segment whose seq is not
      in the set yet, recording its seq and raising the largest seq. */
  method PushAll(t0: seq<Seg>, seen0: set<int>, last0: int, segments: seq<Seg>)
    returns (t: seq<Seg>, seen: set<int>, last: int, addedCount: nat)
    requires BufferInv(t0, seen0, last0)
    ensures BufferInv(t, seen, last)
    ensures t == t0 + NewSegments(seen0, segments)
    ensures seen == seen0 + SeqsOf(segments)
    ensures addedCount == |NewSegments(seen0, segments)|
    ensures var kept := NewSegments(seen0, segments);
            last == (if MaxSeq(kept) > last0 then MaxSeq(kept) else last0)
  {
    t, seen, last := t0, seen0, last0;
    addedCount := 0;
    var i := 0;
    PushStart(t, seen, last, segments);
    while i < |segments|
      invariant PushInv(t0, seen0, last0, segments, i, t, seen, last, addedCount)
    {
      var segment := segments[i];
      ghost var t', seen', last', added' := t, seen, last, addedCount;
      if segment.seqNo !in seen {
        seen := seen + {segment.seqNo};
        t := t + [segment];
        last := if segment.seqNo > last then segment.seqNo else last;
        addedCount := addedCount + 1;
      }
      i := i + 1;
      PushStep(t0, seen0, last0, segments, i, t', seen', last', added', t, seen, last, addedCount);
    }
    PushDone(t0, seen0, last0, segments, i, t, seen, last, addedCount);
    MaxSeqConcat(t0, NewSegments(seen0, segments));
  }

  class Board {
    var calls: seq<CallEntry>
    /** The counts shown above the list. */
    var summary: Counts
    var transcript: seq<Seg>
    var segmentSet: set<int>
    var lastSeq: int
    var pendingNewSegments: nat
    var autoScroll: bool
    var selectedCallId: Option<string>
    var callDetail: Option<CallEntry>
    var wsConnected: bool
    /** Whether `reconnectTimer` holds a timer. */
    var reconnectTimer: bool
    /** Reconnect timers scheduled and neither fired nor cleared. */
    var liveTimers: nat

    ghost predicate Valid()
      reads this`transcript, this`segmentSet, this`lastSeq, this`reconnectTimer, this`liveTimers
    {
      BufferInv(transcript, segmentSet, lastSeq) &&
      liveTimers == (if reconnectTimer then 1 else 0)
    }

    /** The initial state: nothing loaded, no timer. */
    constructor()
      ensures Valid()
      ensures calls == [] && transcript == [] && lastSeq == 0 && pendingNewSegments == 0
      ensures !reconnectTimer && liveTimers == 0 && selectedCallId.None? && callDetail.None?
      ensures autoScroll
    {
      calls := [];
      summary := Counts(0, 0, 0);
      transcript := [];
      segmentSet := {};
      lastSeq := 0;
      pendingNewSegments := 0;
      autoScroll := true;
      selectedCallId := None;
      callDetail := None;
      wsConnected := false;
      reconnectTimer := false;
      liveTimers := 0;
    }

    /** `appendSegments`: push each segment whose seq is new, in order;
        then either clear the pending count (auto-scroll near the bottom)
        or add the number pushed to it. An empty batch changes nothing. */
    method AppendSegments(segments: seq<Seg>, nearBottom: bool)
      requires Valid()
      modifies this`transcript, this`segmentSet, this`lastSeq, this`pendingNewSegments
      ensures Valid()
      ensures Appended(old(transcript), old(segmentSet), old(pendingNewSegments),
                       transcript, segmentSet, pendingNewSegments, segments, autoScroll && nearBottom)
      ensures segments == [] ==> lastSeq == old(lastSeq)
      ensures lastSeq >= old(lastSeq)
    {
      if |segments| == 0 {
        return;
      }
      var addedCount := PushNew(segments);
      if autoScroll && nearBottom {
        pendingNewSegments := 0;
      } else if addedCount > 0 {
        pendingNewSegments := pendingNewSegments + addedCount;
      }
    }

    /** The loop of `appendSegments` run on the buffer fields. */
    method PushNew(segments: seq<Seg>) returns (addedCount: nat)
      requires BufferInv(transcript, segmentSet, lastSeq)
      modifies this`transcript, this`segmentSet, this`lastSeq
      ensures BufferInv(transcript, segmentSet, lastSeq)
      ensures transcript == old(transcript) + NewSegments(old(segmentSet), segments)
      ensures segmentSet == old(segmentSet) + SeqsOf(segments)
      ensures addedCount == |NewSegments(old(segmentSet), segments)|
      ensures var kept := NewSegments(old(segmentSet), segments);
              lastSeq == (if MaxSeq(kept) > old(lastSeq) then MaxSeq(kept) else old(lastSeq))
    {
      transcript, segmentSet, lastSeq, addedCount := PushAll(transcript, segmentSet, lastSeq, segments);
    }

    /** `clearTranscript`: an empty buffer with `lastSeq` 0 and nothing
        pending. */
    method ClearTranscript()
      requires Valid()
      modifies this`transcript, this`segmentSet, this`lastSeq, this`pendingNewSegments
      ensures Valid()
      ensures transcript == [] && segmentSet == {} && lastSeq == 0 && pendingNewSegments == 0
    {
      transcript := [];
      lastSeq := 0;
      segmentSet := {};
      pendingNewSegments := 0;
    }

    /** `updateCallSummary`: recount the list. */
    method UpdateCallSummary()
      modifies this`summary
      ensures summary == SummaryOf(calls)
    {
      var counts := Counts(0, 0, 0);
      var i := 0;
      while i < |calls|
        invariant 0 <= i <= |calls|
        invariant counts == SummaryOf(calls[..i])
      {
        assert calls[..i + 1][..i] == calls[..i];
        counts := Tally(counts, calls[i].status);
        i := i + 1;
      }
      assert calls[..i] == calls;
      summary := counts;
    }

    /** `updateCallInList`: merge the update into the first call with the
        id and recount; nothing happens when no call has the id. */
    method UpdateCallInList(callId: string, updates: Patch)
      modifies this`calls, this`summary
      ensures calls == UpdateFirst(old(calls), callId, updates)
      ensures FirstIndex(old(calls), callId).Some? ==> summary == SummaryOf(calls)
      ensures FirstIndex(old(calls), callId).None? ==> summary == old(summary)
    {
      var i := 0;
      while i < |calls| && calls[i].callId != callId
        invariant 0 <= i <= |calls|
        invariant forall j :: 0 <= j < i ==> calls[j].callId != callId
      {
        i := i + 1;
      }
      if i == |calls| {
        return;
      }
      calls := calls[i := Apply(calls[i], updates)];
      UpdateCallSummary();
    }

    /** `scheduleReconnect`: start a timer only when none is pending and a
        call is selected. */
    method ScheduleReconnect()
      requires Valid()
      modifies this`reconnectTimer, this`liveTimers
      ensures Valid() && liveTimers <= 1
      ensures reconnectTimer == (old(reconnectTimer) || NonEmpty(old(selectedCallId)).Some?)
      ensures liveTimers == old(liveTimers) +
                            (if !old(reconnectTimer) && NonEmpty(old(selectedCallId)).Some? then 1 else 0)
    {
      if reconnectTimer || NonEmpty(selectedCallId).None? {
        return;
      }
      reconnectTimer := true;
      liveTimers := liveTimers + 1;
    }

    /** The reconnect timer firing: the slot is freed, and the caller
        reconnects when `connect` is true. */
    method ReconnectFires() returns (connect: bool)
      requires Valid() && reconnectTimer
      modifies this`reconnectTimer, this`liveTimers
      ensures Valid() && !reconnectTimer && liveTimers == 0
      ensures connect == !wsConnected
    {
      reconnectTimer := false;
      liveTimers := liveTimers - 1;
      connect := !wsConnected;
    }

    /** `disconnectWebSocket`: a pending reconnect timer is cleared. */
    method DisconnectWebSocket()
      requires Valid()
      modifies this`reconnectTimer, this`liveTimers
      ensures Valid() && !reconnectTimer && liveTimers == 0
    {
      if reconnectTimer {
        reconnectTimer := false;
        liveTimers := liveTimers - 1;
      }
    }

    /** A `snapshot` message: the call, when present, is merged into the
        detail and into the list; then its segments are appended. */
    method OnSnapshot(call: Option<CallEntry>, segments: seq<Seg>, nearBottom: bool)
      requires Valid()
      modifies this`transcript, this`segmentSet, this`lastSeq, this`pendingNewSegments
      modifies this`callDetail, this`calls, this`summary
      ensures Valid() && lastSeq >= old(lastSeq)
      ensures Appended(old(transcript), old(segmentSet), old(pendingNewSegments),
                       transcript, segmentSet, pendingNewSegments, segments, autoScroll && nearBottom)
      ensures SnapshotMerged(old(callDetail), old(calls), callDetail, calls, call)
    {
      if call.Some? {
        var c := call.value;
        callDetail := Some(match callDetail
                           case None => c
                           case Some(d) => Apply(d, SnapshotPatch(c)).(callId := c.callId));
        UpdateCallInList(c.callId, SnapshotPatch(c));
      }
      AppendSegments(segments, nearBottom);
    }

    /** A `transcript.segment` message: the segment is appended, and with a
        detail loaded its `last_seq` is raised to the segment's seq and
        copied, with the time, into the selected call's list entry. */
    method OnSegment(segment: Seg, nearBottom: bool, nowSeconds: int)
      requires Valid()
      modifies this`transcript, this`segmentSet, this`lastSeq, this`pendingNewSegments
      modifies this`callDetail, this`calls, this`summary
      ensures Valid() && lastSeq >= old(lastSeq)
      ensures Appended(old(transcript), old(segmentSet), old(pendingNewSegments),
                       transcript, segmentSet, pendingNewSegments, [segment], autoScroll && nearBottom)
      ensures SegmentRaised(old(callDetail), old(calls), callDetail, calls, selectedCallId, segment, nowSeconds)
    {
      AppendSegments([segment], nearBottom);
      RaiseDetail(segment, nowSeconds);
    }

    /** The detail and list part of a `transcript.segment` message. */
    method RaiseDetail(segment: Seg, nowSeconds: int)
      modifies this`callDetail, this`calls, this`summary
      ensures SegmentRaised(old(callDetail), old(calls), callDetail, calls, selectedCallId, segment, nowSeconds)
    {
      if callDetail.Some? {
        var d := callDetail.value;
        var current := d.lastSeq.GetOr(0);
        var raised := if segment.seqNo > current then segment.seqNo else current;
        callDetail := Some(d.(lastSeq := Some(raised)));
        if selectedCallId.Some? {
          UpdateCallInList(selectedCallId.value, Patch(None, None, None, Some(Some(raised)), Some(Some(nowSeconds))));
        }
      }
    }

    /** A `call.status` message: with a detail loaded, its status (and a
        non-zero `ended_at`) is taken, and the list entry updated. */
    method OnStatus(callId: string, status: Option<string>, endedAt: Option<int>)
      modifies this`callDetail, this`calls, this`summary
      ensures StatusTaken(old(callDetail), old(calls), callDetail, calls, callId, status, endedAt)
    {
      if callDetail.Some? {
        var d := callDetail.value.(status := status);
        callDetail := Some(if endedAt.Some? && endedAt.value != 0 then d.(endedAt := endedAt) else d);
        UpdateCallInList(callId, Patch(Some(status), None, Some(endedAt), None, None));
      }
    }

    /** `handleWsMessage`: dispatch on the message's type; any other
        message changes nothing. */
    method HandleWsMessage(message: WsMessage, nearBottom: bool, nowSeconds: int)
      requires Valid()
      modifies this`transcript, this`segmentSet, this`lastSeq, this`pendingNewSegments
      modifies this`callDetail, this`calls, this`summary
      ensures Valid() && lastSeq >= old(lastSeq)
      ensures message.SnapshotMsg? ==>
                Appended(old(transcript), old(segmentSet), old(pendingNewSegments),
                         transcript, segmentSet, pendingNewSegments, message.segments, autoScroll && nearBottom) &&
                SnapshotMerged(old(callDetail), old(calls), callDetail, calls, message.call)
      ensures message.SegmentMsg? ==>
                Appended(old(transcript), old(segmentSet), old(pendingNewSegments),
                         transcript, segmentSet, pendingNewSegments, [message.segment], autoScroll && nearBottom) &&
                SegmentRaised(old(callDetail), old(calls), callDetail, calls, selectedCallId, message.segment, nowSeconds)
      ensures message.StatusMsg? ==>
                transcript == old(transcript) && segmentSet == old(segmentSet) && lastSeq == old(lastSeq) &&
                pendingNewSegments == old(pendingNewSegments) &&
                StatusTaken(old(callDetail), old(calls), callDetail, calls, message.callId, message.status, message.endedAt)
      ensures message.OtherMsg? ==>
                transcript == old(transcript) && segmentSet == old(segmentSet) && lastSeq == old(lastSeq) &&
                pendingNewSegments == old(pendingNewSegments) && calls == old(calls) && callDetail == old(callDetail)
    {
      match message {
        case SnapshotMsg(call, segments) =>
          OnSnapshot(call, segments, nearBottom);
        case SegmentMsg(segment) =>
          OnSegment(segment, nearBottom, nowSeconds);
        case StatusMsg(callId, status, endedAt) =>
          OnStatus(callId, status, endedAt);
        case OtherMsg =>
      }
    }
  }
}
