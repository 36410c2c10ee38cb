/** What the two operator dashboards (cf-pages/app.js and
    dashboard/src/App.tsx) share: the call and segment records they hold,
    the rule that decides which incoming segments are new, the CSV export,
    URI and base-URL trimming, time scaling, the call-list summary and
    filter, and when the call actions are enabled. */
module Dashboard {
  import opened Js
  import opened Text
  import Api

  /** `CALLS_PAGE_SIZE` and `TRANSCRIPT_PAGE_SIZE`, sent as `limit`. */
  const CallsPageSize: int := 50
  const TranscriptPageSize: int := 200

  /** A transcript segment as the dashboards hold it. */
  datatype Seg = Seg(seqNo: int, ts: int, speaker: Option<string>, text: Option<string>)

  /** A call in the list, and the call detail. */
  datatype CallEntry = CallEntry(
    callId: string,
    status: Option<string>,
    startedAt: Option<int>,
    endedAt: Option<int>,
    fromUri: Option<string>,
    toUri: Option<string>,
    lastSeq: Option<int>,
    updatedAt: Option<int>)

  /** An update merged into a call with `Object.assign` or a spread: each
      field is Some when the update object has that key (whose value may
      itself be null). */
  datatype Patch = Patch(
    status: Option<Option<string>>,
    startedAt: Option<Option<int>>,
    endedAt: Option<Option<int>>,
    lastSeq: Option<Option<int>>,
    updatedAt: Option<Option<int>>)

  function Pick<T>(current: T, update: Option<T>): T {
    if update.Some? then update.value else current
  }

  /** The call with the keys of the update overwritten. */
  function Apply(c: CallEntry, p: Patch): (r: CallEntry)
    ensures r.callId == c.callId && r.fromUri == c.fromUri && r.toUri == c.toUri
    ensures p.status.Some? ==> r.status == p.status.value
    ensures p.status.None? ==> r.status == c.status
    ensures p.endedAt.Some? ==> r.endedAt == p.endedAt.value
    ensures p.endedAt.None? ==> r.endedAt == c.endedAt
    ensures p.startedAt.Some? ==> r.startedAt == p.startedAt.value
    ensures p.startedAt.None? ==> r.startedAt == c.startedAt
    ensures p.lastSeq.Some? ==> r.lastSeq == p.lastSeq.value
    ensures p.lastSeq.None? ==> r.lastSeq == c.lastSeq
    ensures p.updatedAt.Some? ==> r.updatedAt == p.updatedAt.value
    ensures p.updatedAt.None? ==> r.updatedAt == c.updatedAt
    ensures p == Patch(None, None, None, None, None) ==> r == c
  {
    c.(status := Pick(c.status, p.status),
       startedAt := Pick(c.startedAt, p.startedAt),
       endedAt := Pick(c.endedAt, p.endedAt),
       lastSeq := Pick(c.lastSeq, p.lastSeq),
       updatedAt := Pick(c.updatedAt, p.updatedAt))
  }

  // ---------------------------------------------------------------------
  // The transcript buffer: which segments are new
  // ---------------------------------------------------------------------

  /** The seqs a transcript holds. */
  function SeqsOf(t: seq<Seg>): set<int> {
    set i | 0 <= i < |t| :: t[i].seqNo
  }

  predicate DistinctSeqs(t: seq<Seg>) {
    forall i, j :: 0 <= i < j < |t| ==> t[i].seqNo != t[j].seqNo
  }

  /** `lastSeq` of a transcript: the running `Math.max` from 0. */
  function MaxSeq(t: seq<Seg>): (r: int)
    ensures r >= 0
    ensures forall i :: 0 <= i < |t| ==> t[i].seqNo <= r
    ensures r == 0 || exists i :: 0 <= i < |t| && t[i].seqNo == r
  {
    if t == [] then 0
    else
      var m := MaxSeq(t[..|t| - 1]);
      if t[|t| - 1].seqNo > m then t[|t| - 1].seqNo else m
  }

  /** The segments of a batch that an append keeps, in batch order: those
      whose seq is neither already `seen` nor earlier in the batch. */
  function NewSegments(seen: set<int>, batch: seq<Seg>): (r: seq<Seg>)
    ensures |r| <= |batch|
    ensures forall i :: 0 <= i < |r| ==> r[i].seqNo !in seen && r[i] in batch
    decreases |batch|
  {
    if batch == [] then []
    else if batch[0].seqNo in seen then NewSegments(seen, batch[1..])
    else [batch[0]] + NewSegments(seen + {batch[0].seqNo}, batch[1..])
  }

  lemma SeqsOfAppend(a: seq<Seg>, b: seq<Seg>)
    ensures SeqsOf(a + b) == SeqsOf(a) + SeqsOf(b)
  {
    forall x | x in SeqsOf(a + b) ensures x in SeqsOf(a) + SeqsOf(b) {
      var i :| 0 <= i < |a + b| && (a + b)[i].seqNo == x;
      if i >= |a| {
        assert b[i - |a|].seqNo == x;
      }
    }
    forall x | x in SeqsOf(b) ensures x in SeqsOf(a + b) {
      var i :| 0 <= i < |b| && b[i].seqNo == x;
      assert (a + b)[i + |a|].seqNo == x;
    }
    forall x | x in SeqsOf(a) ensures x in SeqsOf(a + b) {
      var i :| 0 <= i < |a| && a[i].seqNo == x;
      assert (a + b)[i].seqNo == x;
    }
  }

  /** The kept segments have distinct seqs, and together with `seen` they
      cover exactly the seqs of the batch. */
  lemma NewSegmentsSeqs(seen: set<int>, batch: seq<Seg>)
    ensures DistinctSeqs(NewSegments(seen, batch))
    ensures seen + SeqsOf(NewSegments(seen, batch)) == seen + SeqsOf(batch)
  {
    NewSegmentsCover(seen, batch);
    NewSegmentsDistinct(seen, batch);
  }

  lemma {:induction false} NewSegmentsCover(seen: set<int>, batch: seq<Seg>)
    ensures seen + SeqsOf(NewSegments(seen, batch)) == seen + SeqsOf(batch)
    decreases |batch|
  {
    if batch != [] {
      var x := batch[0];
      var tail := batch[1..];
      assert batch == [x] + tail;
      SeqsOfAppend([x], tail);
      assert [x][0] == x;
      assert SeqsOf([x]) == {x.seqNo};
      if x.seqNo in seen {
        NewSegmentsCover(seen, tail);
      } else {
        var rest := NewSegments(seen + {x.seqNo}, tail);
        NewSegmentsCover(seen + {x.seqNo}, tail);
        SeqsOfAppend([x], rest);
        assert NewSegments(seen, batch) == [x] + rest;
      }
    }
  }

  lemma {:induction false} NewSegmentsDistinct(seen: set<int>, batch: seq<Seg>)
    ensures DistinctSeqs(NewSegments(seen, batch))
    decreases |batch|
  {
    if batch != [] {
      var x := batch[0];
      var tail := batch[1..];
      if x.seqNo in seen {
        NewSegmentsDistinct(seen, tail);
      } else {
        var rest := NewSegments(seen + {x.seqNo}, tail);
        NewSegmentsDistinct(seen + {x.seqNo}, tail);
        var r := [x] + rest;
        assert NewSegments(seen, batch) == r;
        forall i, j | 0 <= i < j < |r| ensures r[i].seqNo != r[j].seqNo {
          assert r[j] == rest[j - 1];
          if i > 0 {
            assert r[i] == rest[i - 1];
          }
        }
      }
    }
  }

  /** Appending two batches keeps what the first batch keeps, then what
      the second keeps once the first's seqs are seen: the kept segments
      stay in arrival order. */
  lemma {:induction false} NewSegmentsAppend(seen: set<int>, a: seq<Seg>, b: seq<Seg>)
    ensures NewSegments(seen, a + b) == NewSegments(seen, a) + NewSegments(seen + SeqsOf(a), b)
    decreases |a|
  {
    if a == [] {
      assert a + b == b;
      assert SeqsOf(a) == {};
      assert seen + SeqsOf(a) == seen;
    } else {
      var x := a[0];
      assert (a + b)[0] == x && (a + b)[1..] == a[1..] + b;
      assert a == [x] + a[1..];
      SeqsOfAppend([x], a[1..]);
      assert SeqsOf([x]) == {x.seqNo};
      if x.seqNo in seen {
        NewSegmentsAppend(seen, a[1..], b);
        assert seen + SeqsOf(a[1..]) == seen + SeqsOf(a);
      } else {
        NewSegmentsAppend(seen + {x.seqNo}, a[1..], b);
        assert seen + {x.seqNo} + SeqsOf(a[1..]) == seen + SeqsOf(a);
      }
    }
  }

  /** One more segment at the end of a batch is kept exactly when its seq
      is new. */
  lemma NewSegmentsSnoc(seen: set<int>, a: seq<Seg>, x: Seg)
    ensures NewSegments(seen, a + [x]) ==
            NewSegments(seen, a) + (if x.seqNo in seen + SeqsOf(a) then [] else [x])
    ensures SeqsOf(a + [x]) == SeqsOf(a) + {x.seqNo}
  {
    NewSegmentsAppend(seen, a, [x]);
    SeqsOfAppend(a, [x]);
    assert [x][0].seqNo == x.seqNo;
    assert SeqsOf([x]) == {x.seqNo};
    assert [x][1..] == [];
  }

  /** A batch delivered again (a repeated snapshot after a reconnect)
      adds nothing. */
  lemma {:induction false} NewSegmentsRedelivered(seen: set<int>, batch: seq<Seg>)
    ensures NewSegments(seen + SeqsOf(batch), batch) == []
    decreases |batch|
  {
    if batch != [] {
      var x := batch[0];
      assert batch == [x] + batch[1..];
      SeqsOfAppend([x], batch[1..]);
      assert SeqsOf([x]) == {x.seqNo};
      assert x.seqNo in seen + SeqsOf(batch);
      NewSegmentsRedelivered(seen + {x.seqNo}, batch[1..]);
      assert seen + {x.seqNo} + SeqsOf(batch[1..]) == seen + SeqsOf(batch);
    }
  }

  /** The buffer invariant both dashboards keep: the seq set is the
      transcript's seqs, no seq appears twice, and `lastSeq` is the largest
      seq (0 when empty). */
  predicate BufferInv(transcript: seq<Seg>, segmentSet: set<int>, lastSeq: int) {
    segmentSet == SeqsOf(transcript) && DistinctSeqs(transcript) && lastSeq == MaxSeq(transcript)
  }

  /** The state of a dashboard's push loop after `i` segments of the batch. */
  ghost predicate PushInv(t0: seq<Seg>, set0: set<int>, last0: int, segments: seq<Seg>, i: int,
                          transcript: seq<Seg>, segmentSet: set<int>, lastSeq: int, addedCount: nat)
  {
    && 0 <= i <= |segments|
    && BufferInv(transcript, segmentSet, lastSeq)
    && transcript == t0 + NewSegments(set0, segments[..i])
    && segmentSet == set0 + SeqsOf(segments[..i])
    && addedCount == |NewSegments(set0, segments[..i])|
    && lastSeq >= last0
  }

  /** Pushing a segment with an unseen seq keeps the buffer invariant. */
  lemma PushKeepsInv(transcript: seq<Seg>, segmentSet: set<int>, lastSeq: int, x: Seg)
    requires BufferInv(transcript, segmentSet, lastSeq) && x.seqNo !in segmentSet
    ensures BufferInv(transcript + [x], segmentSet + {x.seqNo}, if x.seqNo > lastSeq then x.seqNo else lastSeq)
  {
    var t := transcript + [x];
    assert t[..|t| - 1] == transcript;
    SeqsOfAppend(transcript, [x]);
    assert [x][0].seqNo == x.seqNo;
    assert SeqsOf([x]) == {x.seqNo};
    forall i, j | 0 <= i < j < |t| ensures t[i].seqNo != t[j].seqNo {
      if j == |t| - 1 {
        assert t[i].seqNo in SeqsOf(transcript);
      }
    }
  }

  /** The buffer a batch leaves: the old transcript followed by the new
      segments, and `lastSeq` raised to their largest seq. */
  lemma AppendKeepsInv(transcript: seq<Seg>, segmentSet: set<int>, lastSeq: int, batch: seq<Seg>)
    requires BufferInv(transcript, segmentSet, lastSeq)
    ensures var added := NewSegments(segmentSet, batch);
            BufferInv(transcript + added, segmentSet + SeqsOf(batch), MaxSeq(transcript + added)) &&
            MaxSeq(transcript + added) >= lastSeq
  {
    var added := NewSegments(segmentSet, batch);
    NewSegmentsSeqs(segmentSet, batch);
    SeqsOfAppend(transcript, added);
    var t := transcript + added;
    forall i, j | 0 <= i < j < |t| ensures t[i].seqNo != t[j].seqNo {
      if i < |transcript| <= j {
        assert t[j] == added[j - |transcript|];
        assert t[i].seqNo in SeqsOf(transcript);
      } else if |transcript| <= i {
        assert t[i] == added[i - |transcript|] && t[j] == added[j - |transcript|];
      }
    }
    MaxSeqPrefix(transcript, added);
  }

  lemma {:induction false} MaxSeqPrefix(a: seq<Seg>, b: seq<Seg>)
    ensures MaxSeq(a + b) >= MaxSeq(a)
    decreases |b|
  {
    if b == [] {
      assert a + b == a;
    } else {
      var t := a + b;
      assert t[..|t| - 1] == a + b[..|b| - 1];
      MaxSeqPrefix(a, b[..|b| - 1]);
    }
  }

  /** The largest seq of two runs is the larger of their largest seqs. */
  lemma {:induction false} MaxSeqConcat(a: seq<Seg>, b: seq<Seg>)
    ensures MaxSeq(a + b) == if MaxSeq(b) > MaxSeq(a) then MaxSeq(b) else MaxSeq(a)
    decreases |b|
  {
    if b == [] {
      assert a + b == a;
    } else {
      var t := a + b;
      var b' := b[..|b| - 1];
      assert t[..|t| - 1] == a + b';
      assert t[|t| - 1] == b[|b| - 1];
      MaxSeqConcat(a, b');
    }
  }

  // ---------------------------------------------------------------------
  // CSV export
  // ---------------------------------------------------------------------

  const CsvHeader: string := "seq,ts,speaker,text"

  /** `text.replace(/"/g, '""')` */
  function CsvEscape(t: string): (r: string)
    ensures |r| >= |t|
    ensures '"' !in t ==> r == t
  {
    if t == [] then []
    else (if t[0] == '"' then "\"\"" else [t[0]]) + CsvEscape(t[1..])
  }

  /** A CSV reader's reading of a quoted field's inside: `""` is one quote. */
  function CsvUnescape(s: string): string {
    if |s| >= 2 && s[0] == '"' && s[1] == '"' then "\"" + CsvUnescape(s[2..])
    else if s == [] then []
    else [s[0]] + CsvUnescape(s[1..])
  }

  /** Where a quoted field ends: the first quote not doubled. */
  function QuotedEnd(s: string): Option<nat> {
    if s == [] then None
    else if s[0] == '"' then
      if |s| >= 2 && s[1] == '"' then
        match QuotedEnd(s[2..]) case None => None case Some(k) => Some(k + 2)
      else Some(0)
    else match QuotedEnd(s[1..]) case None => None case Some(k) => Some(k + 1)
  }

  /** A reader recovers the escaped text. */
  lemma {:induction false} CsvEscapeRoundTrip(t: string)
    ensures CsvUnescape(CsvEscape(t)) == t
  {
    if t != [] {
      var rest := CsvEscape(t[1..]);
      CsvEscapeRoundTrip(t[1..]);
      if t[0] == '"' {
        assert CsvEscape(t) == "\"\"" + rest;
        assert ("\"\"" + rest)[2..] == rest;
      } else {
        assert CsvEscape(t) == [t[0]] + rest;
        assert ([t[0]] + rest)[1..] == rest;
      }
      assert t == [t[0]] + t[1..];
    }
  }

  /** In `"<escaped text>"` followed by the end of the line, the field ends
      at the closing quote, whatever quotes the text holds. */
  lemma {:induction false} CsvFieldCloses(t: string, rest: string)
    requires rest == [] || rest[0] != '"'
    ensures QuotedEnd(CsvEscape(t) + "\"" + rest) == Some(|CsvEscape(t)|)
  {
    var s := CsvEscape(t) + "\"" + rest;
    if t == [] {
      assert s == "\"" + rest;
      assert s[0] == '"' && (|s| < 2 || s[1] != '"');
    } else {
      var tail := CsvEscape(t[1..]);
      CsvFieldCloses(t[1..], rest);
      if t[0] == '"' {
        assert s == "\"\"" + (tail + "\"" + rest);
        assert s[2..] == tail + "\"" + rest;
      } else {
        assert s == [t[0]] + (tail + "\"" + rest);
        assert s[1..] == tail + "\"" + rest;
      }
    }
  }

  /** One CSV row: `${seq},${ts},${speaker || ''},"${escaped text}"`. */
  function CsvLine(s: Seg): (r: string)
    ensures |r| > |IntToString(s.seqNo)| && r[..|IntToString(s.seqNo)| + 1] == IntToString(s.seqNo) + ","
    ensures r[|r| - 1] == '"'
  {
    IntToString(s.seqNo) + "," + IntToString(s.ts) + "," + s.speaker.GetOr("") + ",\"" +
    CsvEscape(s.text.GetOr("")) + "\""
  }

  /** The text up to the first `c`. */
  function UpTo(s: string, c: char): (r: string)
    ensures |r| <= |s| && r == s[..|r|] && c !in r
  {
    if s == [] || s[0] == c then [] else [s[0]] + UpTo(s[1..], c)
  }

  lemma {:induction false} UpToPrefix(a: string, b: string, c: char)
    requires c !in a && b != [] && b[0] == c
    ensures UpTo(a + b, c) == a
  {
    if a == [] {
      assert a + b == b;
    } else {
      assert (a + b)[1..] == a[1..] + b;
      UpToPrefix(a[1..], b, c);
      assert a == [a[0]] + a[1..];
    }
  }

  /** The first column of a row reads back as the segment's seq. */
  lemma CsvLineSeq(s: Seg)
    ensures ParseInt(UpTo(CsvLine(s), ',')) == Some(s.seqNo)
  {
    var head := IntToString(s.seqNo);
    var tail := "," + IntToString(s.ts) + "," + s.speaker.GetOr("") + ",\"" + CsvEscape(s.text.GetOr("")) + "\"";
    assert CsvLine(s) == head + tail;
    UpToPrefix(head, tail, ',');
    ParseIntToString(s.seqNo);
  }

  /** The CSV branch of `exportTranscript`: the header, then one row per
      segment in transcript order. */
  method ExportCsvLines(transcript: seq<Seg>) returns (lines: seq<string>)
    ensures |lines| == |transcript| + 1 && lines[0] == CsvHeader
    ensures forall i :: 0 <= i < |transcript| ==> lines[i + 1] == CsvLine(transcript[i])
  {
    lines := [CsvHeader];
    var i := 0;
    while i < |transcript|
      invariant 0 <= i <= |transcript|
      invariant |lines| == i + 1 && lines[0] == CsvHeader
      invariant forall j :: 0 <= j < i ==> lines[j + 1] == CsvLine(transcript[j])
    {
      lines := lines + [CsvLine(transcript[i])];
      i := i + 1;
    }
  }

  // ---------------------------------------------------------------------
  // URIs, base URLs, times
  // ---------------------------------------------------------------------

  function StripPrefix(s: string, prefix: string): (r: string)
    ensures StartsWith(s, prefix) ==> s == prefix + r
    ensures !StartsWith(s, prefix) ==> r == s
  {
    if StartsWith(s, prefix) then s[|prefix|..] else s
  }

  /** `trimUri`: `-` for a missing or empty value, else the value without
      one leading `sip:` and then one leading `tel:`. */
  function TrimUri(v: Option<string>): (r: string)
    ensures NonEmpty(v).None? ==> r == "-"
    ensures NonEmpty(v).Some? ==> EndsWith(v.value, r) && |v.value| - |r| in {0, 4, 8}
  {
    if NonEmpty(v).None? then "-" else StripPrefix(StripPrefix(v.value, "sip:"), "tel:")
  }

  /** A number written bare, as `sip:` or as `tel:` trims to itself. */
  lemma TrimUriOfAddress(n: string)
    requires n != "" && !StartsWith(n, "sip:") && !StartsWith(n, "tel:")
    ensures TrimUri(Some(n)) == n
    ensures TrimUri(Some("sip:" + n)) == n
    ensures TrimUri(Some("tel:" + n)) == n
  {
    assert ("sip:" + n)[..4] == "sip:" && ("sip:" + n)[4..] == n;
    assert ("tel:" + n)[..4] == "tel:" && ("tel:" + n)[4..] == n;
    assert !StartsWith("tel:" + n, "sip:") by {
      assert ("tel:" + n)[0] == 't';
    }
  }

  /** `normalizeBase`: the value without its trailing slashes. */
  function NormalizeBase(s: string): (r: string)
    ensures StartsWith(s, r)
    ensures r == "" || r[|r| - 1] != '/'
    ensures forall i :: |r| <= i < |s| ==> s[i] == '/'
  {
    if s != [] && s[|s| - 1] == '/' then NormalizeBase(s[..|s| - 1]) else s
  }

  /** Normalising twice is normalising once, and slashes added to a
      normalised base are removed again. */
  lemma {:induction false} NormalizeBaseIdempotent(s: string, k: nat)
    ensures NormalizeBase(NormalizeBase(s)) == NormalizeBase(s)
    ensures NormalizeBase(NormalizeBase(s) + Slashes(k)) == NormalizeBase(s)
  {
    NormalizeBaseSlashes(NormalizeBase(s), k);
  }

  function Slashes(k: nat): (r: string)
    ensures |r| == k && forall i :: 0 <= i < k ==> r[i] == '/'
  {
    if k == 0 then "" else Slashes(k - 1) + "/"
  }

  lemma {:induction false} NormalizeBaseSlashes(b: string, k: nat)
    requires b == "" || b[|b| - 1] != '/'
    ensures NormalizeBase(b + Slashes(k)) == b
  {
    if k == 0 {
      assert b + Slashes(k) == b;
    } else {
      var t := b + Slashes(k - 1);
      var u := t + "/";
      assert Slashes(k) == Slashes(k - 1) + "/";
      assert b + Slashes(k) == u;
      assert u[..|u| - 1] == t;
      assert NormalizeBase(u) == NormalizeBase(t);
      NormalizeBaseSlashes(b, k - 1);
    }
  }

  /** The milliseconds `formatSegmentTime` formats, or None for `-`:
      values below 1e12 are seconds. */
  function SegmentTimeMillis(raw: Value): (r: Option<real>)
    ensures r.Some? <==> Truthy(raw) && ToNumber(raw).Finite?
    ensures r.Some? && ToNumber(raw).v >= 1000000000000.0 ==> r.value == ToNumber(raw).v
    ensures r.Some? && ToNumber(raw).v < 1000000000000.0 ==> r.value == ToNumber(raw).v * 1000.0
  {
    if !Truthy(raw) then None
    else
      var num := ToNumber(raw);
      if !num.Finite? then None
      else Some(if num.v < 1000000000000.0 then num.v * 1000.0 else num.v)
  }

  /** A time given in seconds and the same time given in milliseconds
      show the same instant, for times from 2001 until the millisecond
      scale takes over. */
  lemma SecondsAndMillisAgree(t: int)
    requires 1000000000 <= t < 1000000000000
    ensures SegmentTimeMillis(Int(t)) == SegmentTimeMillis(Int(t * 1000)) == Some((t * 1000) as real)
  {
    assert (t * 1000) as real == (t as real) * 1000.0;
  }

  /** JavaScript's `%`: the remainder takes the sign of the dividend. */
  function JsRem(a: int, b: int): (r: int)
    requires b > 0
    ensures a >= 0 ==> 0 <= r < b
    ensures a < 0 ==> -b < r <= 0
  {
    if a >= 0 then a % b else -((-a) % b)
  }

  /** `formatDuration`'s minutes and seconds (None for `-`). */
  function DurationParts(seconds: int): (r: Option<(int, int)>)
    ensures r.None? <==> seconds == 0
    ensures r.Some? ==> var (m, s) := r.value;
              m * 60 <= seconds < m * 60 + 60 && -60 < s < 60 && (s - seconds) % 60 == 0 &&
              (seconds > 0 ==> s >= 0) && (seconds < 0 ==> s <= 0)
  {
    if seconds == 0 then None else Some((seconds / 60, JsRem(seconds, 60)))
  }

  function FormatDuration(seconds: int): (r: string)
    ensures r == "-" <==> seconds == 0
    ensures seconds != 0 ==> |r| > 3 && r[|r| - 1] == 's'
  {
    match DurationParts(seconds)
    case None => "-"
    case Some((m, s)) => IntToString(m) + "m " + IntToString(s) + "s"
  }

  /** For a positive duration the parts are whole minutes and the seconds
      left over, and they add back up to the duration. */
  lemma DurationRecombines(seconds: int)
    requires seconds > 0
    ensures DurationParts(seconds).Some?
    ensures var (m, s) := DurationParts(seconds).value;
            m >= 0 && 0 <= s < 60 && m * 60 + s == seconds
  {
  }

  // ---------------------------------------------------------------------
  // Call list: summary, filter, actions, updates
  // ---------------------------------------------------------------------

  /** The live / incoming / ended counts. */
  datatype Counts = Counts(live: nat, incoming: nat, ended: nat)

  /** One step of the count: other statuses are ignored. */
  function Tally(c: Counts, status: Option<string>): (r: Counts)
    ensures r.live + r.incoming + r.ended ==
            c.live + c.incoming + c.ended + (if status in {Some("live"), Some("incoming"), Some("ended")} then 1 else 0)
    ensures r.live >= c.live && r.incoming >= c.incoming && r.ended >= c.ended
    ensures status == Some("live") ==> r.live == c.live + 1
    ensures status == Some("incoming") ==> r.incoming == c.incoming + 1
    ensures status == Some("ended") ==> r.ended == c.ended + 1
  {
    if status == Some("live") then c.(live := c.live + 1)
    else if status == Some("incoming") then c.(incoming := c.incoming + 1)
    else if status == Some("ended") then c.(ended := c.ended + 1)
    else c
  }

  /** The summary of a list, counted from the front. */
  function SummaryOf(calls: seq<CallEntry>): (r: Counts)
    ensures r.live + r.incoming + r.ended <= |calls|
  {
    if calls == [] then Counts(0, 0, 0) else Tally(SummaryOf(calls[..|calls| - 1]), calls[|calls| - 1].status)
  }

  function Statuses(calls: seq<CallEntry>): (r: seq<Option<string>>)
    ensures |r| == |calls| && forall i :: 0 <= i < |calls| ==> r[i] == calls[i].status
  {
    seq(|calls|, i requires 0 <= i < |calls| => calls[i].status)
  }

  /** Each count is the number of calls with that status. */
  lemma {:induction false} SummaryCounts(calls: seq<CallEntry>)
    ensures var m := multiset(Statuses(calls));
            SummaryOf(calls) == Counts(m[Some("live")], m[Some("incoming")], m[Some("ended")])
  {
    if calls != [] {
      var init := calls[..|calls| - 1];
      SummaryCounts(init);
      assert Statuses(calls) == Statuses(init) + [calls[|calls| - 1].status];
    }
  }

  /** `getFilteredCalls` / `filteredCalls`: a call matches when its id or
      its trimmed from/to URI, lower-cased, contains the term. */
  predicate Matches(c: CallEntry, term: string)
    ensures Contains(Lower(c.callId), term) ==> Matches(c, term)
    ensures Contains(Lower(TrimUri(c.fromUri)), term) ==> Matches(c, term)
    ensures Contains(Lower(TrimUri(c.toUri)), term) ==> Matches(c, term)
  {
    Contains(Lower(c.callId), term) || Contains(Lower(TrimUri(c.fromUri)), term) ||
    Contains(Lower(TrimUri(c.toUri)), term)
  }

  function Keep(calls: seq<CallEntry>, term: string): (r: seq<CallEntry>)
    ensures |r| <= |calls|
    ensures forall c :: c in r <==> c in calls && Matches(c, term)
  {
    if calls == [] then []
    else (if Matches(calls[0], term) then [calls[0]] else []) + Keep(calls[1..], term)
  }

  function FilterCalls(calls: seq<CallEntry>, term: string): (r: seq<CallEntry>)
    ensures term == "" ==> r == calls
    ensures forall c :: c in r <==> c in calls && (term == "" || Matches(c, term))
  {
    if term == "" then calls else Keep(calls, term)
  }

  /** Filtering keeps the list order: it distributes over concatenation. */
  lemma {:induction false} FilterAppend(a: seq<CallEntry>, b: seq<CallEntry>, term: string)
    ensures FilterCalls(a + b, term) == FilterCalls(a, term) + FilterCalls(b, term)
  {
    if term != "" {
      KeepAppend(a, b, term);
    }
  }

  lemma {:induction false} KeepAppend(a: seq<CallEntry>, b: seq<CallEntry>, term: string)
    ensures Keep(a + b, term) == Keep(a, term) + Keep(b, term)
    decreases |a|
  {
    if a == [] {
      assert a + b == b;
    } else {
      assert (a + b)[0] == a[0] && (a + b)[1..] == a[1..] + b;
      KeepAppend(a[1..], b, term);
    }
  }

  /** `isActionableCall` / the status part of `actionableCall`. */
  predicate IsActionable(detail: Option<CallEntry>)
    ensures IsActionable(detail) ==>
              detail.Some? && detail.value.status != Some("ended") && detail.value.status != Some("failed")
    ensures detail.Some? && detail.value.status in {Some("live"), Some("incoming"), None} ==> IsActionable(detail)
  {
    detail.Some? && detail.value.status != Some("ended") && detail.value.status != Some("failed")
  }

  /** The transfer and hang-up buttons are enabled. */
  predicate ActionsEnabled(selected: Option<string>, detail: Option<CallEntry>, inFlight: bool)
    ensures inFlight || selected.None? || selected == Some("") || detail.None? ==> !ActionsEnabled(selected, detail, inFlight)
    ensures ActionsEnabled(selected, detail, inFlight) ==> IsActionable(detail)
  {
    NonEmpty(selected).Some? && IsActionable(detail) && !inFlight
  }

  /** Whenever the dashboards enable an action, the request it sends is
      refused by the back end with 405. */
  lemma EnabledActionsRefused(selected: Option<string>, detail: Option<CallEntry>, inFlight: bool, action: string)
    requires ActionsEnabled(selected, detail, inFlight)
    requires '/' !in selected.value && Api.IsSegment(action)
    ensures Api.RouteOf("POST", Api.JoinPath(["api", "calls", selected.value, "actions", action]))
            == Api.MethodNotAllowed
  {
    Api.CallActionsRejected(selected.value, action);
  }

  /** The first call with the id. */
  function FirstIndex(calls: seq<CallEntry>, callId: string): (r: Option<nat>)
    ensures r.Some? ==> r.value < |calls| && calls[r.value].callId == callId &&
                        forall j :: 0 <= j < r.value ==> calls[j].callId != callId
    ensures r.None? ==> forall j :: 0 <= j < |calls| ==> calls[j].callId != callId
  {
    if calls == [] then None
    else if calls[0].callId == callId then Some(0)
    else match FirstIndex(calls[1..], callId)
         case None => None
         case Some(k) => Some(k + 1)
  }

  /** `updateCallInList` of cf-pages/app.js: only the first call with the
      id is updated. */
  function UpdateFirst(calls: seq<CallEntry>, callId: string, p: Patch): (r: seq<CallEntry>)
    ensures |r| == |calls|
    ensures FirstIndex(calls, callId).None? ==> r == calls
    ensures FirstIndex(calls, callId).Some? ==>
              var i := FirstIndex(calls, callId).value;
              r[i] == Apply(calls[i], p) && forall j :: 0 <= j < |calls| && j != i ==> r[j] == calls[j]
  {
    match FirstIndex(calls, callId)
    case None => calls
    case Some(i) => calls[i := Apply(calls[i], p)]
  }

  predicate DistinctIds(calls: seq<CallEntry>) {
    forall i, j :: 0 <= i < j < |calls| ==> calls[i].callId != calls[j].callId
  }
}
