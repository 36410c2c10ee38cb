/** The React dashboard (dashboard/src/App.tsx): the transcript buffer kept
    in state and refs, which `appendSegments` extends through a state
    updater, the reset done when the selected call changes, and the
    call-list update by id. */
module ReactApp {
  import opened Js
  import opened Dashboard

  /** A segment as a message or a page delivers it, with `Number(seq)`
      already read: None when that number is not finite. */
  datatype Incoming = Incoming(seqNo: Option<int>, ts: int, speaker: Option<string>, text: Option<string>)

  /** `{ ...segment, seq }` */
  function SegOf(x: Incoming): (r: Seg)
    requires x.seqNo.Some?
    ensures r.seqNo == x.seqNo.value && r.text == x.text && r.speaker == x.speaker
  {
    Seg(x.seqNo.value, x.ts, x.speaker, x.text)
  }

  /** The segments of a batch whose seq is finite, in batch order. */
  function FiniteSegments(batch: seq<Incoming>): (r: seq<Seg>)
    ensures |r| <= |batch|
    ensures (forall j :: 0 <= j < |batch| ==> batch[j].seqNo.None?) ==> r == []
    ensures (forall j :: 0 <= j < |batch| ==> batch[j].seqNo.Some?) ==>
              |r| == |batch| && forall j :: 0 <= j < |batch| ==> r[j] == SegOf(batch[j])
  {
    if batch == [] then []
    else
      var x := batch[|batch| - 1];
      FiniteSegments(batch[..|batch| - 1]) + (if x.seqNo.Some? then [SegOf(x)] else [])
  }

  /** Filtering a batch in two parts and concatenating is filtering the
      whole batch: the kept segments stay in batch order. */
  lemma {:induction false} FiniteSegmentsAppend(a: seq<Incoming>, b: seq<Incoming>)
    ensures FiniteSegments(a + b) == FiniteSegments(a) + FiniteSegments(b)
    decreases |b|
  {
    if b == [] {
      assert a + b == a;
    } else {
      var x := b[|b| - 1];
      var b' := b[..|b| - 1];
      assert (a + b)[..|a + b| - 1] == a + b';
      assert (a + b)[|a + b| - 1] == x;
      FiniteSegmentsAppend(a, b');
    }
  }

  /** Every segment of the batch with a finite seq is kept, and everything
      kept comes from such a segment. */
  lemma {:induction false} FiniteSegmentsMembers(batch: seq<Incoming>)
    ensures forall j :: 0 <= j < |batch| && batch[j].seqNo.Some? ==> SegOf(batch[j]) in FiniteSegments(batch)
    ensures forall y :: y in FiniteSegments(batch) ==>
              exists j :: 0 <= j < |batch| && batch[j].seqNo.Some? && y == SegOf(batch[j])
    decreases |batch|
  {
    if batch != [] {
      var n := |batch| - 1;
      var prefix := batch[..n];
      FiniteSegmentsMembers(prefix);
      var tail := if batch[n].seqNo.Some? then [SegOf(batch[n])] else [];
      assert FiniteSegments(batch) == FiniteSegments(prefix) + tail;
      forall j | 0 <= j < |batch| && batch[j].seqNo.Some?
        ensures SegOf(batch[j]) in FiniteSegments(batch)
      {
        if j < n {
          assert prefix[j] == batch[j];
        }
      }
      forall y | y in FiniteSegments(batch)
        ensures exists j :: 0 <= j < |batch| && batch[j].seqNo.Some? && y == SegOf(batch[j])
      {
        if y in FiniteSegments(prefix) {
          var j :| 0 <= j < |prefix| && prefix[j].seqNo.Some? && y == SegOf(prefix[j]);
          assert batch[j] == prefix[j];
        } else {
          assert y == SegOf(batch[n]);
        }
      }
    }
  }

  /** The state of the updater's loop after `i` segments of the batch:
      `next`, the seq set, `addedMaxSeq` and `added`. */
  ghost predicate ReduceInv(t0: seq<Seg>, set0: set<int>, last0: int, batch: seq<Incoming>, i: int,
                            next: seq<Seg>, seen: set<int>, maxSeq: int, added: nat)
  {
    && 0 <= i <= |batch|
    && BufferInv(next, seen, maxSeq)
    && next == t0 + NewSegments(set0, FiniteSegments(batch[..i]))
    && seen == set0 + SeqsOf(FiniteSegments(batch[..i]))
    && added == |NewSegments(set0, FiniteSegments(batch[..i]))|
    && maxSeq >= last0
  }

  lemma ReduceStart(t0: seq<Seg>, set0: set<int>, last0: int, batch: seq<Incoming>)
    requires BufferInv(t0, set0, last0)
    ensures ReduceInv(t0, set0, last0, batch, 0, t0, set0, last0, 0)
  {
    assert batch[..0] == [];
    assert SeqsOf([]) == {};
    assert t0 + [] == t0;
  }

  /** One step of the loop: a segment with a non-finite seq or a seq
      already in the set is skipped; any other is pushed, its seq recorded
      and `addedMaxSeq` raised to it. */
  lemma ReduceStep(t0: seq<Seg>, set0: set<int>, last0: int, batch: seq<Incoming>, i: int,
                   next: seq<Seg>, seen: set<int>, maxSeq: int, added: nat,
                   next': seq<Seg>, seen': set<int>, maxSeq': int, added': nat)
    requires 0 < i <= |batch|
    requires ReduceInv(t0, set0, last0, batch, i - 1, next, seen, maxSeq, added)
    requires var x := batch[i - 1];
             if x.seqNo.None? || x.seqNo.value in seen then
               next' == next && seen' == seen && maxSeq' == maxSeq && added' == added
             else
               next' == next + [SegOf(x)] && seen' == seen + {x.seqNo.value} &&
               maxSeq' == (if x.seqNo.value > maxSeq then x.seqNo.value else maxSeq) &&
               added' == added + 1
    ensures ReduceInv(t0, set0, last0, batch, i, next', seen', maxSeq', added')
  {
    var x := batch[i - 1];
    var before := FiniteSegments(batch[..i - 1]);
    assert batch[..i][..i - 1] == batch[..i - 1];
    assert batch[..i][i - 1] == x;
    if x.seqNo.Some? {
      var y := SegOf(x);
      var kept := NewSegments(set0, before);
      assert FiniteSegments(batch[..i]) == before + [y];
      NewSegmentsSnoc(set0, before, y);
      if x.seqNo.value !in seen {
        assert NewSegments(set0, before + [y]) == kept + [y];
        assert next + [y] == t0 + (kept + [y]);
        PushKeepsInv(next, seen, maxSeq, y);
      } else {
        assert NewSegments(set0, before + [y]) == kept + [];
        assert kept + [] == kept;
        assert seen + {y.seqNo} == seen;
      }
    } else {
      assert FiniteSegments(batch[..i]) == before + [];
      assert before + [] == before;
    }
  }

  lemma ReduceDone(t0: seq<Seg>, set0: set<int>, last0: int, batch: seq<Incoming>, i: int,
                   next: seq<Seg>, seen: set<int>, maxSeq: int, added: nat)
    requires ReduceInv(t0, set0, last0, batch, i, next, seen, maxSeq, added)
    requires i >= |batch|
    ensures BufferInv(next, seen, maxSeq)
    ensures next == t0 + NewSegments(set0, FiniteSegments(batch))
    ensures seen == set0 + SeqsOf(FiniteSegments(batch))
    ensures added == |NewSegments(set0, FiniteSegments(batch))|
    ensures maxSeq >= last0
  {
    assert batch[..i] == batch;
  }

  /** The loop inside `appendSegments`' transcript updater: starting from
      the previous transcript, push each segment whose seq is finite and
      not yet in the seq set, counting them and tracking the largest seq
      from `lastSeqRef`. */
  method Reduce(prev: seq<Seg>, set0: set<int>, lastSeqRef: int, segments: seq<Incoming>)
    returns (next: seq<Seg>, seen: set<int>, addedMaxSeq: int, added: nat)
    requires BufferInv(prev, set0, lastSeqRef)
    ensures BufferInv(next, seen, addedMaxSeq)
    ensures next == prev + NewSegments(set0, FiniteSegments(segments))
    ensures seen == set0 + SeqsOf(FiniteSegments(segments))
    ensures added == |NewSegments(set0, FiniteSegments(segments))|
    ensures addedMaxSeq >= lastSeqRef
  {
    next, seen, addedMaxSeq := prev, set0, lastSeqRef;
    added := 0;
    var i := 0;
    ReduceStart(prev, set0, lastSeqRef, segments);
    while i < |segments|
      invariant ReduceInv(prev, set0, lastSeqRef, segments, i, next, seen, addedMaxSeq, added)
    {
      var segment := segments[i];
      ghost var next0, seen0, max0, added0 := next, seen, addedMaxSeq, added;
      if segment.seqNo.Some? && segment.seqNo.value !in seen {
        var s := segment.seqNo.value;
        seen := seen + {s};
        next := next + [SegOf(segment)];
        added := added + 1;
        if s > addedMaxSeq {
          addedMaxSeq := s;
        }
      }
      i := i + 1;
      ReduceStep(prev, set0, lastSeqRef, segments, i, next0, seen0, max0, added0, next, seen, addedMaxSeq, added);
    }
    ReduceDone(prev, set0, lastSeqRef, segments, i, next, seen, addedMaxSeq, added);
  }

  /** What the updater's result means for the state: nothing new leaves
      the transcript and the seq set as they were, and the largest seq
      tracked is the larger of the old `lastSeq` and the new segments'. */
  lemma AppendOutcome(prev: seq<Seg>, set0: set<int>, last0: int, segments: seq<Incoming>,
                      next: seq<Seg>, seen: set<int>, addedMaxSeq: int, added: nat)
    requires BufferInv(prev, set0, last0) && BufferInv(next, seen, addedMaxSeq)
    requires next == prev + NewSegments(set0, FiniteSegments(segments))
    requires seen == set0 + SeqsOf(FiniteSegments(segments))
    requires added == |NewSegments(set0, FiniteSegments(segments))|
    ensures var kept := NewSegments(set0, FiniteSegments(segments));
            addedMaxSeq == (if MaxSeq(kept) > last0 then MaxSeq(kept) else last0)
    ensures added == 0 ==> next == prev && seen == set0 && addedMaxSeq == last0
  {
    var kept := NewSegments(set0, FiniteSegments(segments));
    NewSegmentsSeqs(set0, FiniteSegments(segments));
    MaxSeqConcat(prev, kept);
    if added == 0 {
      assert kept == [];
      assert prev + [] == prev;
      assert SeqsOf(kept) == {};
    }
  }

  /** The transcript part of the component's state. */
  class TranscriptView {
    var transcript: seq<Seg>
    var lastSeq: int
    var pendingNewSegments: nat
    /** `segmentSetRef.current`, updated in place. */
    var segmentSet: set<int>
    var autoScroll: bool
    var callDetail: Option<CallEntry>

    ghost predicate Valid()
      reads this
    {
      BufferInv(transcript, segmentSet, lastSeq)
    }

    constructor()
      ensures Valid()
      ensures transcript == [] && lastSeq == 0 && pendingNewSegments == 0 && autoScroll
      ensures callDetail.None?
    {
      transcript := [];
      lastSeq := 0;
      pendingNewSegments := 0;
      segmentSet := {};
      autoScroll := true;
      callDetail := None;
    }

    /** `appendSegments`: the new segments (finite, unseen seq) follow the
        old ones in batch order; `lastSeq` becomes the larger of its old
        value and their largest seq; the pending count grows by their
        number unless the view scrolls. A batch with nothing new leaves
        everything as it was. */
    method AppendSegments(segments: seq<Incoming>, nearBottom: bool) returns (added: nat)
      requires Valid()
      modifies this
      ensures Valid()
      ensures var kept := NewSegments(old(segmentSet), FiniteSegments(segments));
              && transcript == old(transcript) + kept
              && segmentSet == old(segmentSet) + SeqsOf(FiniteSegments(segments))
              && added == |kept|
              && lastSeq == (if MaxSeq(kept) > old(lastSeq) then MaxSeq(kept) else old(lastSeq))
      ensures pendingNewSegments ==
              (if added == 0 || (autoScroll && nearBottom) then old(pendingNewSegments)
               else old(pendingNewSegments) + added)
      ensures added == 0 ==>
                transcript == old(transcript) && segmentSet == old(segmentSet) && lastSeq == old(lastSeq)
      ensures autoScroll == old(autoScroll) && callDetail == old(callDetail)
    {
      if |segments| == 0 {
        assert FiniteSegments(segments) == [];
        assert transcript + [] == transcript && segmentSet + SeqsOf([]) == segmentSet;
        return 0;
      }
      var shouldScroll := autoScroll && nearBottom;
      var next, seen, addedMaxSeq;
      next, seen, addedMaxSeq, added := Reduce(transcript, segmentSet, lastSeq, segments);
      AppendOutcome(transcript, segmentSet, lastSeq, segments, next, seen, addedMaxSeq, added);
      segmentSet := seen;
      transcript := next;
      if added == 0 {
        return;
      }
      lastSeq := if addedMaxSeq > lastSeq then addedMaxSeq else lastSeq;
      if !shouldScroll {
        pendingNewSegments := pendingNewSegments + added;
      }
    }

    /** The reset when the selected call changes: no detail, an empty
        transcript and seq set, `lastSeq` 0 and nothing pending. */
    method Reset()
      modifies this
      ensures Valid()
      ensures transcript == [] && segmentSet == {} && lastSeq == 0 && pendingNewSegments == 0
      ensures callDetail.None? && autoScroll == old(autoScroll)
    {
      callDetail := None;
      transcript := [];
      lastSeq := 0;
      pendingNewSegments := 0;
      segmentSet := {};
    }
  }

  /** `updateCallInList` of the React dashboard: every call with the id
      gets the update merged in. */
  function UpdateAll(calls: seq<CallEntry>, callId: string, p: Patch): (r: seq<CallEntry>)
    ensures |r| == |calls|
    ensures forall i :: 0 <= i < |calls| && calls[i].callId != callId ==> r[i] == calls[i]
    ensures forall i :: 0 <= i < |calls| && calls[i].callId == callId ==> r[i] == Apply(calls[i], p)
  {
    if calls == [] then []
    else
      var rest := UpdateAll(calls[..|calls| - 1], callId, p);
      var c := calls[|calls| - 1];
      rest + [if c.callId == callId then Apply(c, p) else c]
  }

  /** While call ids are distinct, the React dashboard's update and the
      static dashboard's first-match update agree. */
  lemma UpdateAllIsUpdateFirst(calls: seq<CallEntry>, callId: string, p: Patch)
    requires DistinctIds(calls)
    ensures UpdateAll(calls, callId, p) == UpdateFirst(calls, callId, p)
  {
    var r := UpdateAll(calls, callId, p);
    match FirstIndex(calls, callId)
    case None =>
    case Some(k) =>
      forall i | 0 <= i < |calls| ensures r[i] == calls[k := Apply(calls[k], p)][i] {
        if i != k {
          assert calls[i].callId != calls[k].callId;
        }
      }
  }
}
