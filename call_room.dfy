/** The live-viewer room of one call (cf/src/callRoom.js): a durable object
    that latches its call id from the first request naming one, keeps a
    registry of the viewer sockets in insertion order, sends each new
    socket a snapshot of the call, and relays broadcasts from the back end
    to every socket, dropping the sockets whose send fails. */
module Room {
  import opened Js
  import opened Text
  import opened Db
  import opened Http
  import opened Api

  /** `SNAPSHOT_LIMIT`: the most segments a snapshot carries. */
  const SnapshotLimit: nat := 200

  /** A socket, by identity. */
  type SocketId = nat

  /** The attachment of a socket: the seq it asked to start after. */
  datatype Meta = Meta(afterSeq: int)

  /** The call record of a snapshot. */
  datatype SnapshotCall = SnapshotCall(
    callId: string,
    status: string,
    startedAt: Option<int>,
    endedAt: Option<int>,
    lastSeq: int)

  /** What the room sends on a socket. */
  datatype Outgoing =
    | SnapshotOut(call: SnapshotCall, segments: seq<Segment>)
    | Relay(message: RoomMessage)
    | Pong(t: Value)

  /** The body of a broadcast request: unparsable JSON, a falsy JSON value
      (None), or a message. */
  datatype BroadcastBody = Unparsable | Parsed(message: Option<RoomMessage>)

  /** A text frame from a viewer: unparsable JSON, or a parsed value with
      its `type` (None when absent or not a string) and its `t`. */
  datatype ClientFrame = BadFrame | Frame(kind: Option<string>, t: Value)

  /** A request to the room: its path, the `x-call-id`,
      `x-internal-token` and `Upgrade` headers, the query, the body of a
      broadcast, the new socket of an upgrade, and the sockets whose send
      throws while it is handled. */
  datatype RoomRequest = RoomRequest(
    path: string,
    callIdHeader: Option<string>,
    internalToken: Option<string>,
    upgrade: Option<string>,
    query: map<string, Param>,
    body: BroadcastBody,
    socket: SocketId,
    failing: set<SocketId>)

  /** The sequence without `x`, order kept. */
  function Without(s: seq<SocketId>, x: SocketId): (r: seq<SocketId>)
    ensures forall y :: y in r <==> y in s && y != x
    ensures |r| <= |s|
  {
    if s == [] then []
    else if s[0] == x then Without(s[1..], x)
    else [s[0]] + Without(s[1..], x)
  }

  /** The sockets of `s` whose send does not fail, order kept. */
  function Survivors(s: seq<SocketId>, failing: set<SocketId>): (r: seq<SocketId>)
    ensures forall y :: y in r <==> y in s && y !in failing
    ensures |r| <= |s|
  {
    if s == [] then []
    else if s[0] in failing then Survivors(s[1..], failing)
    else [s[0]] + Survivors(s[1..], failing)
  }

  /** One delivery of `m` to each socket of `s`, in order. */
  function Deliveries(s: seq<SocketId>, m: Outgoing): (r: seq<(SocketId, Outgoing)>)
    ensures |r| == |s|
    ensures forall i :: 0 <= i < |s| ==> r[i] == (s[i], m)
  {
    if s == [] then [] else [(s[0], m)] + Deliveries(s[1..], m)
  }

  predicate Distinct(s: seq<SocketId>) {
    forall i, j :: 0 <= i < j < |s| ==> s[i] != s[j]
  }

  /** How many of the sends went to `ws`. */
  function SendsTo(sent: seq<(SocketId, Outgoing)>, ws: SocketId): nat {
    if sent == [] then 0 else (if sent[0].0 == ws then 1 else 0) + SendsTo(sent[1..], ws)
  }

  lemma {:induction false} SendsToAppend(a: seq<(SocketId, Outgoing)>, b: seq<(SocketId, Outgoing)>, ws: SocketId)
    ensures SendsTo(a + b, ws) == SendsTo(a, ws) + SendsTo(b, ws)
    decreases |a|
  {
    if a == [] {
      assert a + b == b;
    } else {
      assert (a + b)[1..] == a[1..] + b;
      SendsToAppend(a[1..], b, ws);
    }
  }

  /** In a broadcast to distinct sockets, each surviving socket is sent the
      message exactly once and a failing or unregistered socket never. */
  lemma {:induction false} DeliveredOnce(s: seq<SocketId>, failing: set<SocketId>, m: Outgoing, ws: SocketId)
    requires Distinct(s)
    ensures SendsTo(Deliveries(Survivors(s, failing), m), ws) == if ws in s && ws !in failing then 1 else 0
  {
    if s != [] {
      assert Distinct(s[1..]) by {
        forall i, j | 0 <= i < j < |s[1..]| ensures s[1..][i] != s[1..][j] {
          assert s[1..][i] == s[i + 1] && s[1..][j] == s[j + 1];
        }
      }
      DeliveredOnce(s[1..], failing, m, ws);
      assert s[0] !in s[1..] by {
        forall i | 0 <= i < |s[1..]| ensures s[1..][i] != s[0] {
          assert s[1..][i] == s[i + 1];
        }
      }
      if s[0] !in failing {
        var rest := Survivors(s[1..], failing);
        assert Survivors(s, failing) == [s[0]] + rest;
        assert Deliveries([s[0]] + rest, m) == [(s[0], m)] + Deliveries(rest, m) by {
          assert ([s[0]] + rest)[1..] == rest;
        }
        SendsToAppend([(s[0], m)], Deliveries(rest, m), ws);
      }
    }
  }

  lemma {:induction false} WithoutAppend(a: seq<SocketId>, b: seq<SocketId>, x: SocketId)
    ensures Without(a + b, x) == Without(a, x) + Without(b, x)
    decreases |a|
  {
    if a == [] {
      assert a + b == b;
    } else {
      assert (a + b)[1..] == a[1..] + b;
      WithoutAppend(a[1..], b, x);
    }
  }

  lemma {:induction false} WithoutAbsent(a: seq<SocketId>, x: SocketId)
    requires x !in a
    ensures Without(a, x) == a
  {
    if a != [] {
      assert x !in a[1..];
      WithoutAbsent(a[1..], x);
      assert a == [a[0]] + a[1..];
    }
  }

  lemma {:induction false} SurvivorsSnoc(s: seq<SocketId>, x: SocketId, failing: set<SocketId>)
    ensures Survivors(s + [x], failing) == Survivors(s, failing) + (if x in failing then [] else [x])
    decreases |s|
  {
    if s == [] {
      assert s + [x] == [x];
      assert [x][1..] == [];
    } else {
      assert (s + [x])[1..] == s[1..] + [x];
      SurvivorsSnoc(s[1..], x, failing);
    }
  }

  /** Deleting the socket the broadcast loop is at, from the registry the
      loop has produced so far, leaves the survivors before it and the
      sockets after it. */
  lemma DeleteCurrent(targets: seq<SocketId>, i: nat, failing: set<SocketId>)
    requires Distinct(targets) && i < |targets|
    ensures Without(Survivors(targets[..i], failing) + targets[i..], targets[i])
            == Survivors(targets[..i], failing) + targets[i + 1..]
  {
    var x := targets[i];
    var done := Survivors(targets[..i], failing);
    WithoutAppend(done, targets[i..], x);
    assert x !in targets[..i];
    WithoutAbsent(done, x);
    assert targets[i..] == [x] + targets[i + 1..];
    WithoutAppend([x], targets[i + 1..], x);
    assert x !in targets[i + 1..];
    WithoutAbsent(targets[i + 1..], x);
  }

  lemma {:induction false} WithoutDistinct(s: seq<SocketId>, x: SocketId)
    requires Distinct(s)
    ensures Distinct(Without(s, x))
  {
    if s != [] {
      assert Distinct(s[1..]) by {
        forall i, j | 0 <= i < j < |s[1..]| ensures s[1..][i] != s[1..][j] {
          assert s[1..][i] == s[i + 1] && s[1..][j] == s[j + 1];
        }
      }
      WithoutDistinct(s[1..], x);
      assert s[0] !in s[1..] by {
        forall i | 0 <= i < |s[1..]| ensures s[1..][i] != s[0] {
          assert s[1..][i] == s[i + 1];
        }
      }
    }
  }

  lemma {:induction false} SurvivorsDistinct(s: seq<SocketId>, failing: set<SocketId>)
    requires Distinct(s)
    ensures Distinct(Survivors(s, failing))
  {
    if s != [] {
      assert Distinct(s[1..]) by {
        forall i, j | 0 <= i < j < |s[1..]| ensures s[1..][i] != s[1..][j] {
          assert s[1..][i] == s[i + 1] && s[1..][j] == s[j + 1];
        }
      }
      SurvivorsDistinct(s[1..], failing);
      assert s[0] !in s[1..] by {
        forall i | 0 <= i < |s[1..]| ensures s[1..][i] != s[0] {
          assert s[1..][i] == s[i + 1];
        }
      }
    }
  }

  /** The call id after a request carrying `header`: set by the first
      non-empty header, then kept. */
  function Latch(current: Option<string>, header: Option<string>): Option<string> {
    if NonEmpty(header).Some? && current.None? then header else current
  }

  function LatchAll(current: Option<string>, headers: seq<Option<string>>): Option<string>
    decreases |headers|
  {
    if headers == [] then current else LatchAll(Latch(current, headers[0]), headers[1..])
  }

  /** The first non-empty header of a sequence of requests. */
  function FirstHeader(headers: seq<Option<string>>): Option<string> {
    if headers == [] then None
    else if NonEmpty(headers[0]).Some? then headers[0]
    else FirstHeader(headers[1..])
  }

  /** Over any run of requests, a room that starts unlatched ends with
      the first non-empty `x-call-id` it saw, and a latched room keeps its
      call id. */
  lemma {:induction false} LatchKeepsFirst(current: Option<string>, headers: seq<Option<string>>)
    ensures current.Some? ==> LatchAll(current, headers) == current
    ensures current.None? ==> LatchAll(current, headers) == FirstHeader(headers)
    decreases |headers|
  {
    if headers != [] {
      LatchKeepsFirst(Latch(current, headers[0]), headers[1..]);
    }
  }

  /** The broadcast loop after `i` sockets of `targets`: the registry holds
      the survivors so far and the sockets still to visit, and each
      survivor so far was sent `m` once. */
  ghost predicate DeliverInv(targets: seq<SocketId>, failing: set<SocketId>, m: Outgoing, i: int,
                             clients: seq<SocketId>, meta: map<SocketId, Meta>, meta0: map<SocketId, Meta>,
                             sent: seq<(SocketId, Outgoing)>, sent0: seq<(SocketId, Outgoing)>)
  {
    && Distinct(targets) && (forall x :: x in meta0 <==> x in targets)
    && 0 <= i <= |targets|
    && clients == Survivors(targets[..i], failing) + targets[i..]
    && meta == meta0 - Dropped(targets[..i], failing)
    && sent == sent0 + Deliveries(Survivors(targets[..i], failing), m)
  }

  lemma DeliveriesSnoc(s: seq<SocketId>, x: SocketId, m: Outgoing)
    ensures Deliveries(s + [x], m) == Deliveries(s, m) + [(x, m)]
  {
    var l, r := Deliveries(s + [x], m), Deliveries(s, m) + [(x, m)];
    assert forall k :: 0 <= k < |l| ==> l[k] == r[k];
  }

  /** The `i`-th step when the send to `targets[i - 1]` fails. */
  lemma DeliverFails(targets: seq<SocketId>, failing: set<SocketId>, m: Outgoing, i: int,
                     clients: seq<SocketId>, meta: map<SocketId, Meta>, meta0: map<SocketId, Meta>,
                     sent: seq<(SocketId, Outgoing)>, sent0: seq<(SocketId, Outgoing)>)
    requires 0 < i <= |targets|
    requires DeliverInv(targets, failing, m, i - 1, clients, meta, meta0, sent, sent0)
    requires targets[i - 1] in failing
    ensures DeliverInv(targets, failing, m, i, Without(clients, targets[i - 1]), meta - {targets[i - 1]}, meta0, sent, sent0)
  {
    var ws := targets[i - 1];
    FailedDropped(targets, failing, i);
    assert targets[..i] == targets[..i - 1] + [ws];
    DroppedSnoc(targets[..i - 1], ws, failing);
    assert meta - {ws} == meta0 - (Dropped(targets[..i - 1], failing) + {ws});
  }

  /** The sockets of `s` whose send fails. */
  function Dropped(s: seq<SocketId>, failing: set<SocketId>): set<SocketId> {
    set x | x in s && x in failing
  }

  lemma DroppedSnoc(s: seq<SocketId>, x: SocketId, failing: set<SocketId>)
    ensures Dropped(s + [x], failing) == Dropped(s, failing) + (if x in failing then {x} else {})
  {
    assert forall y :: y in s + [x] <==> y in s || y == x;
  }

  /** Deleting a failed socket from the registry the loop has produced
      keeps it equal to the survivors so far followed by the sockets still
      to visit, and the survivors are unchanged. */
  lemma FailedDropped(targets: seq<SocketId>, failing: set<SocketId>, i: int)
    requires Distinct(targets) && 0 < i <= |targets| && targets[i - 1] in failing
    ensures Survivors(targets[..i], failing) == Survivors(targets[..i - 1], failing)
    ensures Without(Survivors(targets[..i - 1], failing) + targets[i - 1..], targets[i - 1])
            == Survivors(targets[..i], failing) + targets[i..]
  {
    var k := i - 1;
    assert targets[..i] == targets[..k] + [targets[k]];
    SurvivorsSnoc(targets[..k], targets[k], failing);
    DeleteCurrent(targets, k, failing);
  }

  /** The `i`-th step when the send to `targets[i - 1]` succeeds. */
  lemma DeliverSends(targets: seq<SocketId>, failing: set<SocketId>, m: Outgoing, i: int,
                     clients: seq<SocketId>, meta: map<SocketId, Meta>, meta0: map<SocketId, Meta>,
                     sent: seq<(SocketId, Outgoing)>, sent0: seq<(SocketId, Outgoing)>)
    requires 0 < i <= |targets|
    requires DeliverInv(targets, failing, m, i - 1, clients, meta, meta0, sent, sent0)
    requires targets[i - 1] !in failing
    ensures DeliverInv(targets, failing, m, i, clients, meta, meta0, sent + [(targets[i - 1], m)], sent0)
  {
    var k := i - 1;
    var ws := targets[k];
    var done := Survivors(targets[..k], failing);
    assert targets[..i] == targets[..k] + [ws];
    SurvivorsSnoc(targets[..k], ws, failing);
    assert Survivors(targets[..i], failing) == done + [ws];
    assert targets[k..] == [ws] + targets[i..];
    assert clients == (done + [ws]) + targets[i..];
    DeliveriesSnoc(done, ws, m);
    DroppedSnoc(targets[..k], ws, failing);
  }

  /** One step of the broadcast loop: the `i`-th target is deleted from
      the registry when its send fails, and is sent `m` otherwise. */
  lemma DeliverStep(targets: seq<SocketId>, failing: set<SocketId>, m: Outgoing, i: int,
                    clients: seq<SocketId>, meta: map<SocketId, Meta>, sent: seq<(SocketId, Outgoing)>,
                    clients': seq<SocketId>, meta': map<SocketId, Meta>, sent': seq<(SocketId, Outgoing)>,
                    meta0: map<SocketId, Meta>, sent0: seq<(SocketId, Outgoing)>)
    requires 0 < i <= |targets|
    requires DeliverInv(targets, failing, m, i - 1, clients, meta, meta0, sent, sent0)
    requires var ws := targets[i - 1];
             if ws in failing then
               clients' == Without(clients, ws) && meta' == meta - {ws} && sent' == sent
             else
               clients' == clients && meta' == meta && sent' == sent + [(ws, m)]
    ensures DeliverInv(targets, failing, m, i, clients', meta', meta0, sent', sent0)
  {
    if targets[i - 1] in failing {
      DeliverFails(targets, failing, m, i, clients, meta, meta0, sent, sent0);
    } else {
      DeliverSends(targets, failing, m, i, clients, meta, meta0, sent, sent0);
    }
  }

  lemma DeliverDone(targets: seq<SocketId>, failing: set<SocketId>, m: Outgoing, i: int,
                    clients: seq<SocketId>, meta: map<SocketId, Meta>, meta0: map<SocketId, Meta>,
                    sent: seq<(SocketId, Outgoing)>, sent0: seq<(SocketId, Outgoing)>)
    requires DeliverInv(targets, failing, m, i, clients, meta, meta0, sent, sent0)
    requires i >= |targets|
    ensures clients == Survivors(targets, failing) && Distinct(clients)
    ensures forall ws :: ws in meta <==> ws in clients
    ensures meta == meta0 - failing
    ensures sent == sent0 + Deliveries(Survivors(targets, failing), m)
  {
    assert targets[..i] == targets;
    SurvivorsDistinct(targets, failing);
    assert meta == meta0 - failing;
  }

  /** The broadcast loop: send `m` to every registered socket in order,
      deleting from the registry each socket whose send fails. */
  method DeliverAll(targets: seq<SocketId>, meta0: map<SocketId, Meta>, sent0: seq<(SocketId, Outgoing)>,
                    m: Outgoing, failing: set<SocketId>)
    returns (clients: seq<SocketId>, meta: map<SocketId, Meta>, sent: seq<(SocketId, Outgoing)>)
    requires Distinct(targets) && (forall ws :: ws in meta0 <==> ws in targets)
    ensures clients == Survivors(targets, failing) && Distinct(clients)
    ensures forall ws :: ws in meta <==> ws in clients
    ensures meta == meta0 - failing
    ensures sent == sent0 + Deliveries(Survivors(targets, failing), m)
  {
    clients, meta, sent := targets, meta0, sent0;
    var i := 0;
    assert targets[..0] == [] && targets[0..] == targets;
    assert meta0 - Dropped([], failing) == meta0;
    while i < |targets|
      invariant DeliverInv(targets, failing, m, i, clients, meta, meta0, sent, sent0)
    {
      var ws := targets[i];
      ghost var clients0, meta1, sent1 := clients, meta, sent;
      if ws in failing {
        clients := Without(clients, ws);
        meta := meta - {ws};
      } else {
        sent := sent + [(ws, m)];
      }
      i := i + 1;
      DeliverStep(targets, failing, m, i, clients0, meta1, sent1, clients, meta, sent, meta0, sent0);
    }
    DeliverDone(targets, failing, m, i, clients, meta, meta0, sent, sent0);
  }

  /** `handleBroadcast`'s token check. */
  predicate BroadcastAuthorized(token: Option<string>, ingestToken: Option<string>) {
    NonEmpty(token).Some? && token == ingestToken
  }

  /** The back end's posts pass the room's token check exactly when
      `INGEST_TOKEN` is set and non-empty. */
  lemma ApiPostAuthorized(env: Env, callId: string, m: RoomMessage)
    requires PostTo(env, callId, m).Some?
    ensures BroadcastAuthorized(Some(PostTo(env, callId, m).value.internalToken), env.ingestToken)
            <==> NonEmpty(env.ingestToken).Some?
  {
  }

  /** The `after_seq` of a new socket: `clamp(get('after_seq') || 0, ...)`. */
  function SocketAfterSeq(query: map<string, Param>): (r: int)
    ensures 0 <= r <= MaxSafeInteger
    ensures "after_seq" !in query ==> r == 0
    ensures GivenIn(query, "after_seq", 0, MaxSafeInteger) ==> r == query["after_seq"].reading.v.Floor
  {
    Clamp(Or(ParamValue(query, "after_seq"), Int(0)), 0, MaxSafeInteger, 0)
  }

  /** The snapshot's call record: the stored call, or the placeholder. */
  function SnapshotCallOf(calls: map<string, CallRow>, callId: string): (r: SnapshotCall)
    ensures callId !in calls ==> r == SnapshotCall(callId, "unknown", None, None, 0)
    ensures callId in calls ==> r.callId == calls[callId].callId && r.status == calls[callId].status && r.lastSeq == calls[callId].lastSeq &&
                                r.startedAt == calls[callId].startedAt && r.endedAt == calls[callId].endedAt
  {
    if callId in calls then
      var row := calls[callId];
      SnapshotCall(row.callId, row.status, row.startedAt, row.endedAt, row.lastSeq)
    else SnapshotCall(callId, "unknown", None, None, 0)
  }

  const Forbidden: Response := Response(403, Plain("Forbidden"), false)
  const BadBroadcast: Response := Response(400, Plain("Bad Request"), false)
  const RoomNotFound: Response := Response(404, Plain("Not found"), false)
  const Switching: Response := Response(101, NoBody, false)

  class CallRoom {
    /** The call this room serves, once latched. */
    var callId: Option<string>
    /** The registered sockets, in the order the Map keeps them. */
    var clients: seq<SocketId>
    /** Each registered socket's attachment. */
    var meta: map<SocketId, Meta>
    /** Every frame the room has sent, in order. */
    var sent: seq<(SocketId, Outgoing)>
    /** `env.INGEST_TOKEN` */
    const ingestToken: Option<string>
    /** `env.DB` */
    const db: CallStore

    ghost predicate Valid()
      reads this
    {
      Distinct(clients) && (forall ws :: ws in meta <==> ws in clients)
    }

    /** The room as the runtime wakes it: unlatched, with the sockets it
        still holds registered in order under their stored attachments. */
    constructor(sockets: seq<SocketId>, attachments: map<SocketId, Meta>, ingestToken: Option<string>, db: CallStore)
      requires Distinct(sockets)
      ensures Valid()
      ensures this.callId.None? && this.clients == sockets && this.sent == []
      ensures forall ws :: ws in sockets ==>
                this.meta[ws] == if ws in attachments then attachments[ws] else Meta(0)
      ensures this.ingestToken == ingestToken && this.db == db
    {
      this.callId := None;
      this.ingestToken := ingestToken;
      this.db := db;
      this.sent := [];
      this.clients := [];
      this.meta := map[];
      new;
      var i := 0;
      while i < |sockets|
        invariant 0 <= i <= |sockets|
        invariant this.clients == sockets[..i] && this.callId.None? && this.sent == []
        invariant Valid()
        invariant forall ws :: ws in sockets[..i] ==>
                    this.meta[ws] == if ws in attachments then attachments[ws] else Meta(0)
      {
        assert sockets[i] !in sockets[..i];
        Attach(sockets[i], None, if sockets[i] in attachments then Some(attachments[sockets[i]]) else None);
        assert sockets[..i + 1] == sockets[..i] + [sockets[i]];
        i := i + 1;
      }
    }

    /** `attachSocket`: register `ws` under `metaOverride || attachment ||
        { afterSeq: 0 }`; a socket already registered keeps its place. */
    method Attach(ws: SocketId, metaOverride: Option<Meta>, attachment: Option<Meta>)
      requires Valid()
      modifies this
      ensures Valid()
      ensures meta == old(meta)[ws := if metaOverride.Some? then metaOverride.value
                                      else attachment.GetOr(Meta(0))]
      ensures clients == if ws in old(clients) then old(clients) else old(clients) + [ws]
      ensures callId == old(callId) && sent == old(sent)
    {
      var m := if metaOverride.Some? then metaOverride.value else attachment.GetOr(Meta(0));
      if ws !in clients {
        clients := clients + [ws];
      }
      meta := meta[ws := m];
    }

    /** A `close` or `error` event: `ws` leaves the registry and no other
        socket does. */
    method Remove(ws: SocketId)
      requires Valid()
      modifies this
      ensures Valid()
      ensures clients == Without(old(clients), ws) && meta == old(meta) - {ws}
      ensures callId == old(callId) && sent == old(sent)
    {
      WithoutDistinct(clients, ws);
      clients := Without(clients, ws);
      meta := meta - {ws};
    }

    /** `onMessage`: a ping is answered with a pong carrying its `t`, or
        the current time; anything else is ignored. */
    method OnMessage(ws: SocketId, frame: ClientFrame, nowMs: int)
      modifies this
      ensures frame.Frame? && frame.kind == Some("ping") ==>
                sent == old(sent) + [(ws, Pong(Or(frame.t, Int(nowMs))))]
      ensures !(frame.Frame? && frame.kind == Some("ping")) ==> sent == old(sent)
      ensures callId == old(callId) && clients == old(clients) && meta == old(meta)
    {
      if frame.Frame? && frame.kind == Some("ping") {
        sent := sent + [(ws, Pong(Or(frame.t, Int(nowMs))))];
      }
    }

    /** `handleBroadcast`: refuse a bad token (403) or body (400) without
        sending anything; otherwise send the message to every registered
        socket in order and drop exactly those whose send failed. */
    method HandleBroadcast(token: Option<string>, body: BroadcastBody, failing: set<SocketId>)
      returns (r: Response)
      requires Valid()
      modifies this
      ensures Valid()
      ensures callId == old(callId)
      ensures !BroadcastAuthorized(token, ingestToken) ==>
                r == Forbidden && clients == old(clients) && meta == old(meta) && sent == old(sent)
      ensures BroadcastAuthorized(token, ingestToken) && (body.Unparsable? || body.message.None?) ==>
                r == BadBroadcast && clients == old(clients) && meta == old(meta) && sent == old(sent)
      ensures BroadcastAuthorized(token, ingestToken) && body.Parsed? && body.message.Some? ==>
                r == Response(200, Ok, false) &&
                clients == Survivors(old(clients), failing) &&
                meta == old(meta) - failing &&
                sent == old(sent) + Deliveries(Survivors(old(clients), failing), Relay(body.message.value))
    {
      if !BroadcastAuthorized(token, ingestToken) {
        return Forbidden;
      }
      if body.Unparsable? || body.message.None? {
        return BadBroadcast;
      }
      Deliver(Relay(body.message.value), failing);
      r := Response(200, Ok, false);
    }

    /** The broadcast loop run on the registry and the sent frames. */
    method Deliver(m: Outgoing, failing: set<SocketId>)
      requires Valid()
      modifies this`clients, this`meta, this`sent
      ensures Valid()
      ensures clients == Survivors(old(clients), failing) && meta == old(meta) - failing
      ensures sent == old(sent) + Deliveries(Survivors(old(clients), failing), m)
    {
      clients, meta, sent := DeliverAll(clients, meta, sent, m, failing);
    }

    /** `handleWebSocket` and `sendSnapshot`: register the new socket with
        its clamped `after_seq` and send it the call (or the placeholder for
        an unknown call) and at most 200 segments after that seq. */
    method HandleWebSocket(ws: SocketId, query: map<string, Param>) returns (r: Response)
      requires Valid() && db.Valid()
      modifies this
      ensures Valid() && r == Switching
      ensures meta == old(meta)[ws := Meta(SocketAfterSeq(query))]
      ensures clients == if ws in old(clients) then old(clients) else old(clients) + [ws]
      ensures callId == old(callId)
      ensures exists segs ::
                IsTranscriptPage(db.segments, callId.GetOr("unknown"), SocketAfterSeq(query), segs, SnapshotLimit) &&
                sent == old(sent) + [(ws, SnapshotOut(SnapshotCallOf(db.calls, callId.GetOr("unknown")), segs))]
    {
      var afterSeq := SocketAfterSeq(query);
      Attach(ws, Some(Meta(afterSeq)), None);
      var id := callId.GetOr("unknown");
      var row := db.FindCall(id);
      var segs := db.FetchTranscript(id, afterSeq, SnapshotLimit);
      var call := if row.Some? then SnapshotCall(row.value.callId, row.value.status, row.value.startedAt,
                                                 row.value.endedAt, row.value.lastSeq)
                  else SnapshotCall(id, "unknown", None, None, 0);
      sent := sent + [(ws, SnapshotOut(call, segs))];
      r := Switching;
    }

    /** The room's `fetch`: latch the call id, then a path ending in
        `/broadcast` is a broadcast, an upgrade is a new socket, and
        anything else is 404. */
    method Fetch(req: RoomRequest) returns (r: Response)
      requires Valid() && db.Valid()
      modifies this
      ensures Valid()
      ensures callId == Latch(old(callId), req.callIdHeader)
      ensures EndsWith(req.path, "/broadcast") && !BroadcastAuthorized(req.internalToken, ingestToken) ==>
                r == Forbidden && clients == old(clients) && meta == old(meta) && sent == old(sent)
      ensures EndsWith(req.path, "/broadcast") && BroadcastAuthorized(req.internalToken, ingestToken) &&
              (req.body.Unparsable? || req.body.message.None?) ==>
                r == BadBroadcast && clients == old(clients) && meta == old(meta) && sent == old(sent)
      ensures EndsWith(req.path, "/broadcast") && BroadcastAuthorized(req.internalToken, ingestToken) &&
              req.body.Parsed? && req.body.message.Some? ==>
                r == Response(200, Ok, false) &&
                clients == Survivors(old(clients), req.failing) &&
                meta == old(meta) - req.failing &&
                sent == old(sent) + Deliveries(Survivors(old(clients), req.failing), Relay(req.body.message.value))
      ensures !EndsWith(req.path, "/broadcast") && req.upgrade == Some("websocket") ==>
                r == Switching &&
                meta == old(meta)[req.socket := Meta(SocketAfterSeq(req.query))] &&
                clients == (if req.socket in old(clients) then old(clients) else old(clients) + [req.socket]) &&
                exists segs ::
                  IsTranscriptPage(db.segments, callId.GetOr("unknown"), SocketAfterSeq(req.query), segs, SnapshotLimit) &&
                  sent == old(sent) + [(req.socket, SnapshotOut(SnapshotCallOf(db.calls, callId.GetOr("unknown")), segs))]
      ensures !EndsWith(req.path, "/broadcast") && req.upgrade != Some("websocket") ==>
                r == RoomNotFound && clients == old(clients) && meta == old(meta) && sent == old(sent)
    {
      if NonEmpty(req.callIdHeader).Some? && callId.None? {
        callId := req.callIdHeader;
      }
      if EndsWith(req.path, "/broadcast") {
        r := HandleBroadcast(req.internalToken, req.body, req.failing);
      } else if req.upgrade == Some("websocket") {
        r := HandleWebSocket(req.socket, req.query);
      } else {
        r := RoomNotFound;
      }
    }
  }
}
