/** Inbound QoS 2: a PUBLISH from the client is staged in its session and answered with PUBREC; the
PUBREL routes it. The session's table survives save and restore. */
module Inbound {
  import opened Basics
  import opened Outbound

  const PACKET_ID_IN_USE := 0x91
  const RECEIVE_MAX_EXCEEDED := 0x93

  /** What the client's protocol version allows the broker to answer. */
  datatype Spec = Spec(reasonCodes: bool, serverDisconnect: bool)

  /** A staged message; `serial` numbers the PUBLISH packets of a run and is history only. */
  datatype Staged = Staged(serial: nat, topic: string, payload: seq<int>, retain: bool)

  type Table = map<PacketId, Staged>

  datatype Reply = RecReply(id: PacketId, reason: int) | CompReply(id: PacketId) | Closed(reason: int)

  // ---------------------------------------------------------------- the handlers

  /** The QoS 2 part of handlePublish, for a PUBLISH that passed the rate, topic and access checks. */
  function Stage(spec: Spec, receiveMax: nat, t: Table, id: PacketId, msg: Staged, dup: bool): (r: (Table, Reply))
  {
    if id in t then
      (t, RecReply(id, if !dup && spec.reasonCodes then PACKET_ID_IN_USE else 0))
    else if receiveMax > 0 && |t| >= receiveMax then
      (t, if spec.serverDisconnect then Closed(RECEIVE_MAX_EXCEEDED) else RecReply(id, 0))
    else
      (t[id := msg], RecReply(id, 0))
  }

  /** handlePubRel: the staged message, if there is one, is routed; the PUBCOMP is sent regardless. */
  function Unstage(t: Table, id: PacketId): (r: (Table, seq<Staged>, Reply)) {
    if id in t then (t - {id}, [t[id]], CompReply(id)) else (t, [], CompReply(id))
  }

  class InboundSession {
    const spec: Spec
    const receiveMax: nat
    var inboundQoS2: Table
    /** Messages handed to the router, oldest first. */
    var routed: seq<Staged>
    var replies: seq<Reply>

    constructor (spec: Spec, receiveMax: nat)
      ensures this.spec == spec && this.receiveMax == receiveMax && inboundQoS2 == map[] && routed == [] &&
          replies == []
    {
      this.spec, this.receiveMax, inboundQoS2, routed, replies := spec, receiveMax, map[], [], [];
    }

    method AddInboundQoS2(id: PacketId, msg: Staged) returns (ok: bool)
      modifies this`inboundQoS2
      ensures ok == !(receiveMax > 0 && |old(inboundQoS2)| >= receiveMax)
      ensures inboundQoS2 == if ok then old(inboundQoS2)[id := msg] else old(inboundQoS2)
    {
      if receiveMax > 0 && |inboundQoS2| >= receiveMax {
        return false;
      }
      inboundQoS2 := inboundQoS2[id := msg];
      ok := true;
    }

    method TakeInboundQoS2(id: PacketId) returns (msg: seq<Staged>)
      modifies this`inboundQoS2
      ensures inboundQoS2 == old(inboundQoS2) - {id}
      ensures msg == if id in old(inboundQoS2) then [old(inboundQoS2)[id]] else []
    {
      msg := if id in inboundQoS2 then [inboundQoS2[id]] else [];
      inboundQoS2 := inboundQoS2 - {id};
    }

    method HandlePublish(id: PacketId, msg: Staged, dup: bool)
      modifies this`inboundQoS2, this`replies
      ensures var (t, reply) := Stage(spec, receiveMax, old(inboundQoS2), id, msg, dup);
              inboundQoS2 == t && replies == old(replies) + [reply]
    {
      if id in inboundQoS2 {
        var reason := 0;
        if !dup {
          reason := PACKET_ID_IN_USE;
        }
        if !spec.reasonCodes {
          reason := 0;
        }
        replies := replies + [RecReply(id, reason)];
        return;
      }
      var ok := AddInboundQoS2(id, msg);
      if !ok {
        replies := replies + [if spec.serverDisconnect then Closed(RECEIVE_MAX_EXCEEDED) else RecReply(id, 0)];
        return;
      }
      replies := replies + [RecReply(id, 0)];
    }

    method HandlePubRel(id: PacketId)
      modifies this`inboundQoS2, this`routed, this`replies
      ensures var (t, out, reply) := Unstage(old(inboundQoS2), id);
              inboundQoS2 == t && routed == old(routed) + out && replies == old(replies) + [reply]
    {
      assert id !in inboundQoS2 ==> inboundQoS2 - {id} == inboundQoS2;
      var msg := TakeInboundQoS2(id);
      routed := routed + msg;
      replies := replies + [CompReply(id)];
    }
  }

  // ---------------------------------------------------------------- runs

  datatype Mark =
    | Enter(id: PacketId, serial: nat)
    | Route(id: PacketId, serial: nat)
    | Discard(id: PacketId, serial: nat)

  /** The table, wherever it lives, and the history of the session: PUBLISH packets seen; in order, every entry into the
      table and every way out of it; what the router was handed; what the client was answered. */
  datatype Hub = Hub(table: Table, online: bool, seen: nat, log: seq<Mark>, routed: seq<Staged>, replies: seq<Reply>)

  datatype Event =
    | PublishIn(id: PacketId, topic: string, payload: seq<int>, retain: bool, dup: bool)
    | PubRelIn(id: PacketId)
    | SaveAndClose
    | RestoreAndOpen
    | EndSession(order: seq<PacketId>)

  ghost predicate Enabled(h: Hub, e: Event) {
    match e
    case PublishIn(_, _, _, _, _) => h.online
    case PubRelIn(_) => h.online
    case SaveAndClose => h.online
    case RestoreAndOpen => !h.online
    case EndSession(order) => Enumerates(order, h.table.Keys)
  }

  /** One staged message leaves the table by routing or with its session. */
  function Leave(h: Hub, id: PacketId, routed: bool): Hub {
    if id !in h.table then h
    else
      var n := h.table[id].serial;
      h.(table := h.table - {id}, log := h.log + [if routed then Route(id, n) else Discard(id, n)])
  }

  function DiscardEach(h: Hub, order: seq<PacketId>): Hub
    decreases |order|
  {
    if order == [] then h else DiscardEach(Leave(h, order[0], false), order[1..])
  }

  function Next(spec: Spec, receiveMax: nat, h: Hub, e: Event): Hub {
    match e
    case PublishIn(id, topic, payload, retain, dup) =>
      var (t, reply) := Stage(spec, receiveMax, h.table, id, Staged(h.seen, topic, payload, retain), dup);
      h.(table := t, seen := h.seen + 1, replies := h.replies + [reply],
         log := if id in t && id !in h.table then h.log + [Enter(id, h.seen)] else h.log)
    case PubRelIn(id) =>
      var (t, out, reply) := Unstage(h.table, id);
      Leave(h, id, true).(table := t, routed := h.routed + out, replies := h.replies + [reply])
    case SaveAndClose => h.(online := false)
    case RestoreAndOpen => h.(online := true)
    case EndSession(order) => DiscardEach(h, order).(table := map[], online := false)
  }

  ghost predicate IsRun(spec: Spec, receiveMax: nat, trace: seq<Hub>, events: seq<Event>) {
    && |trace| == |events| + 1
    && trace[0] == Hub(map[], true, 0, [], [], [])
    && (forall i {:trigger events[i]} :: 0 <= i < |events| ==>
          Enabled(trace[i], events[i]) && trace[i + 1] == Next(spec, receiveMax, trace[i], events[i]))
  }

  // ---------------------------------------------------------------- what a log must look like

  /** The serials the log leaves open, by identifier. */
  function Open(log: seq<Mark>): map<PacketId, nat> {
    if log == [] then map[]
    else
      var before, m := Open(log[..|log| - 1]), log[|log| - 1];
      if m.Enter? then before[m.id := m.serial] else before - {m.id}
  }

  /** Per identifier, entries and exits alternate, and an exit names the serial that entered. */
  ghost predicate Alternates(log: seq<Mark>) {
    forall i :: 0 <= i < |log| ==> Follows(Open(log[..i]), log[i])
  }

  predicate Follows(open: map<PacketId, nat>, m: Mark) {
    if m.Enter? then m.id !in open else m.id in open && open[m.id] == m.serial
  }

  /** No serial enters twice. */
  ghost predicate EntersOnce(log: seq<Mark>) {
    forall i, j :: 0 <= i < j < |log| && log[i].Enter? && log[j].Enter? ==> log[i].serial != log[j].serial
  }

  ghost predicate Inv(receiveMax: nat, h: Hub) {
    && Mirrors(Open(h.log), h.table) && Alternates(h.log) && EntersOnce(h.log) && Below(h.log, h.seen)
    && (receiveMax > 0 ==> |h.table| <= receiveMax)
  }

  lemma AppendMark(log: seq<Mark>, m: Mark)
    requires Alternates(log) && Follows(Open(log), m)
    ensures Alternates(log + [m])
    ensures Open(log + [m]) == if m.Enter? then Open(log)[m.id := m.serial] else Open(log) - {m.id}
  {
    var longer := log + [m];
    assert longer[..|log|] == log;
    assert forall i :: 0 <= i < |log| ==> longer[..i] == log[..i];
  }

  /** Every serial in the log is below `seen`. */
  ghost predicate Below(log: seq<Mark>, seen: nat) {
    forall i :: 0 <= i < |log| ==> log[i].serial < seen
  }

  lemma EnterNew(log: seq<Mark>, id: PacketId, seen: nat)
    requires EntersOnce(log) && Below(log, seen)
    ensures EntersOnce(log + [Enter(id, seen)]) && Below(log + [Enter(id, seen)], seen + 1)
  {
  }

  lemma TableGrows(t: Table, id: PacketId, m: Staged)
    requires id !in t
    ensures |t[id := m]| == |t| + 1
  {
    assert t[id := m].Keys == t.Keys + {id};
    assert |t[id := m]| == |t[id := m].Keys| && |t| == |t.Keys|;
  }

  /** The table is what the log leaves open. */
  ghost predicate Mirrors(open: map<PacketId, nat>, t: Table) {
    open.Keys == t.Keys && forall id :: id in t ==> t[id].serial == open[id]
  }

  lemma EnterMirrors(open: map<PacketId, nat>, t: Table, id: PacketId, m: Staged)
    requires Mirrors(open, t)
    ensures Mirrors(open[id := m.serial], t[id := m])
  {
  }

  lemma EnterInv(receiveMax: nat, h: Hub, id: PacketId, m: Staged)
    requires Inv(receiveMax, h) && id !in h.table && m.serial == h.seen
    requires receiveMax > 0 ==> |h.table| < receiveMax
    ensures Inv(receiveMax, h.(table := h.table[id := m], seen := h.seen + 1, log := h.log + [Enter(id, h.seen)]))
  {
    AppendMark(h.log, Enter(id, h.seen));
    EnterNew(h.log, id, h.seen);
    TableGrows(h.table, id, m);
    EnterMirrors(Open(h.log), h.table, id, m);
  }

  /** What was routed and answered does not matter here. */
  lemma SameInv(receiveMax: nat, h: Hub, g: Hub)
    requires Inv(receiveMax, h) && g.table == h.table && g.log == h.log && h.seen <= g.seen
    ensures Inv(receiveMax, g)
  {
  }

  lemma PublishInv(spec: Spec, receiveMax: nat, h: Hub, e: Event)
    requires Inv(receiveMax, h) && e.PublishIn?
    ensures Inv(receiveMax, Next(spec, receiveMax, h, e))
  {
    var g := Next(spec, receiveMax, h, e);
    if e.id in g.table && e.id !in h.table {
      EnterInv(receiveMax, h, e.id, g.table[e.id]);
      SameInv(receiveMax,
              h.(table := h.table[e.id := g.table[e.id]], seen := h.seen + 1, log := h.log + [Enter(e.id, h.seen)]), g);
    } else {
      SameInv(receiveMax, h, g);
    }
  }

  lemma LeaveInv(receiveMax: nat, h: Hub, id: PacketId, routed: bool)
    requires Inv(receiveMax, h)
    ensures Inv(receiveMax, Leave(h, id, routed))
  {
    if id in h.table {
      var g := Leave(h, id, routed);
      AppendMark(h.log, g.log[|h.log|]);
      SerialSeen(h, id);
      assert (h.table - {id}).Keys == h.table.Keys - {id};
      assert |h.table.Keys - {id}| == |h.table.Keys| - 1;
    }
  }

  /** An open serial was logged when it entered. */
  lemma {:induction false} OpenWasEntered(log: seq<Mark>, id: PacketId)
    requires id in Open(log)
    ensures exists i :: 0 <= i < |log| && log[i] == Enter(id, Open(log)[id])
  {
    var init, m := log[..|log| - 1], log[|log| - 1];
    if !(m.Enter? && m.id == id) {
      OpenWasEntered(init, id);
      var i :| 0 <= i < |init| && init[i] == Enter(id, Open(init)[id]);
      assert log[i] == Enter(id, Open(log)[id]);
    }
  }

  lemma SerialSeen(h: Hub, id: PacketId)
    requires id in Open(h.log) && Below(h.log, h.seen)
    ensures Open(h.log)[id] < h.seen
  {
    OpenWasEntered(h.log, id);
  }

  /** Ending the session closes every open entry. */
  lemma {:induction false} EndInv(receiveMax: nat, h: Hub, order: seq<PacketId>)
    requires Inv(receiveMax, h) && forall id :: id in h.table ==> id in order
    ensures Inv(receiveMax, DiscardEach(h, order)) && DiscardEach(h, order).table == map[]
    decreases |order|
  {
    if order != [] {
      LeaveInv(receiveMax, h, order[0], false);
      var g := Leave(h, order[0], false);
      forall id | id in g.table ensures id in order[1..] {
        assert id in order && id != order[0];
      }
      EndInv(receiveMax, g, order[1..]);
    }
  }

  lemma {:induction false} RunInv(spec: Spec, receiveMax: nat, trace: seq<Hub>, events: seq<Event>, n: nat)
    requires IsRun(spec, receiveMax, trace, events) && n < |trace|
    ensures Inv(receiveMax, trace[n])
  {
    if n > 0 {
      RunInv(spec, receiveMax, trace, events, n - 1);
      match events[n - 1]
      case PublishIn(_, _, _, _, _) => PublishInv(spec, receiveMax, trace[n - 1], events[n - 1]);
      case PubRelIn(id) => LeaveInv(receiveMax, trace[n - 1], id, true);
      case SaveAndClose =>
      case RestoreAndOpen =>
      case EndSession(order) => EndInv(receiveMax, trace[n - 1], order);
    }
  }

  // ---------------------------------------------------------------- theorems

  /** In every run, entries and exits alternate for each packet identifier, and the table is exactly
      what the log leaves open: a staged message leaves once, by routing or with its session, or is
      still there. */
  lemma StagedLeavesOnce(spec: Spec, receiveMax: nat, trace: seq<Hub>, events: seq<Event>, n: nat)
    requires IsRun(spec, receiveMax, trace, events) && n < |trace|
    ensures Alternates(trace[n].log)
    ensures Open(trace[n].log).Keys == trace[n].table.Keys
    ensures forall id :: id in trace[n].table ==> trace[n].table[id].serial == Open(trace[n].log)[id]
  {
    RunInv(spec, receiveMax, trace, events, n);
  }

  /** Every message that was ever staged is still staged or has left by routing or with its session. */
  lemma StagedOrLeft(spec: Spec, receiveMax: nat, trace: seq<Hub>, events: seq<Event>, n: nat, i: nat)
    requires IsRun(spec, receiveMax, trace, events) && n < |trace| && i < |trace[n].log| && trace[n].log[i].Enter?
    ensures var (t, log) := (trace[n].table, trace[n].log);
            || (log[i].id in t && t[log[i].id].serial == log[i].serial)
            || (exists k :: i < k < |log| && log[k].id == log[i].id && log[k].serial == log[i].serial && !log[k].Enter?)
  {
    RunInv(spec, receiveMax, trace, events, n);
    var log := trace[n].log;
    assert log[..|log|] == log;
    if log[i].id !in Open(log) || Open(log)[log[i].id] != log[i].serial {
      ExitBetween(log, i, |log|, log[i].id);
    }
  }

  /** An entry that is no longer open has an exit behind it. */
  lemma {:induction false} ExitBetween(log: seq<Mark>, i: nat, j: nat, id: PacketId)
    requires Alternates(log) && i < j <= |log| && log[i].Enter? && log[i].id == id
    requires id !in Open(log[..j]) || Open(log[..j])[id] != log[i].serial
    ensures exists k :: i < k < j && log[k].id == id && log[k].serial == log[i].serial && !log[k].Enter?
    decreases j
  {
    var before, m := Open(log[..j - 1]), log[j - 1];
    assert log[..j][..j - 1] == log[..j - 1];
    assert Follows(before, m);
    if j == i + 1 {
      assert false;
    } else if id in before && before[id] == log[i].serial {
      assert m.id == id && !m.Enter?;
    } else {
      ExitBetween(log, i, j - 1, id);
    }
  }

  // ---------------------------------------------------------------- what is routed

  /** The serials of the `Route` marks, in order. */
  function RouteSerials(log: seq<Mark>): seq<nat> {
    if log == [] then []
    else RouteSerials(log[..|log| - 1]) + if log[|log| - 1].Route? then [log[|log| - 1].serial] else []
  }

  ghost predicate Handed(h: Hub) {
    && |h.routed| == |RouteSerials(h.log)|
    && (forall i :: 0 <= i < |h.routed| ==> h.routed[i].serial == RouteSerials(h.log)[i])
  }

  lemma RouteSerialsAppend(log: seq<Mark>, m: Mark)
    ensures RouteSerials(log + [m]) == RouteSerials(log) + if m.Route? then [m.serial] else []
  {
    assert (log + [m])[..|log|] == log;
  }

  lemma {:induction false} DiscardsRouteNothing(h: Hub, order: seq<PacketId>)
    ensures var g := DiscardEach(h, order);
            && RouteSerials(g.log) == RouteSerials(h.log) && g.routed == h.routed && g.replies == h.replies
            && g.seen == h.seen
    decreases |order|
  {
    if order != [] {
      var g := Leave(h, order[0], false);
      if order[0] in h.table {
        RouteSerialsAppend(h.log, g.log[|h.log|]);
      }
      DiscardsRouteNothing(g, order[1..]);
    }
  }

  lemma NextHanded(spec: Spec, receiveMax: nat, h: Hub, e: Event)
    requires Handed(h)
    ensures Handed(Next(spec, receiveMax, h, e))
  {
    var g := Next(spec, receiveMax, h, e);
    match e
    case PublishIn(id, _, _, _, _) => RouteSerialsAppend(h.log, Enter(id, h.seen));
    case PubRelIn(id) => if id in h.table { RouteSerialsAppend(h.log, Route(id, h.table[id].serial)); }
    case EndSession(order) => DiscardsRouteNothing(h, order);
    case _ =>
  }

  /** Event i of the run published this message. */
  ghost predicate PublishedAt(trace: seq<Hub>, events: seq<Event>, i: nat, m: Staged)
    requires |trace| == |events| + 1
  {
    && i < |events| && events[i].PublishIn? && m.serial == trace[i].seen
    && m.topic == events[i].topic && m.payload == events[i].payload && m.retain == events[i].retain
  }

  ghost predicate PublishedBefore(trace: seq<Hub>, events: seq<Event>, n: nat, m: Staged)
    requires |trace| == |events| + 1
  {
    exists i :: 0 <= i < n && PublishedAt(trace, events, i, m)
  }

  /** Staged or routed. */
  ghost predicate Holds(h: Hub, m: Staged) {
    m in h.routed || exists id :: id in h.table && h.table[id] == m
  }

  lemma HeldBefore(spec: Spec, receiveMax: nat, h: Hub, e: Event, m: Staged)
    requires Holds(Next(spec, receiveMax, h, e), m)
    ensures Holds(h, m) || (e.PublishIn? && m == Staged(h.seen, e.topic, e.payload, e.retain))
  {
    if e.EndSession? {
      DiscardsRouteNothing(h, e.order);
    }
  }

  lemma {:induction false} HeldWasPublished(spec: Spec, receiveMax: nat, trace: seq<Hub>, events: seq<Event>, n: nat,
                                            m: Staged)
    requires IsRun(spec, receiveMax, trace, events) && n < |trace| && Holds(trace[n], m)
    ensures PublishedBefore(trace, events, n, m)
  {
    if n > 0 {
      HeldBefore(spec, receiveMax, trace[n - 1], events[n - 1], m);
      if Holds(trace[n - 1], m) {
        HeldWasPublished(spec, receiveMax, trace, events, n - 1, m);
        var i :| 0 <= i < n - 1 && PublishedAt(trace, events, i, m);
      } else {
        assert PublishedAt(trace, events, n - 1, m);
      }
    }
  }

  /** In every run the router is handed one message per `Route` mark, in the order of the marks, and each has the topic,
  payload and RETAIN flag of the PUBLISH that brought it in. */
  lemma RoutedAsPublished(spec: Spec, receiveMax: nat, trace: seq<Hub>, events: seq<Event>, n: nat)
    requires IsRun(spec, receiveMax, trace, events) && n < |trace|
    ensures |trace[n].routed| == |RouteSerials(trace[n].log)|
    ensures forall k :: 0 <= k < |trace[n].routed| ==>
              && trace[n].routed[k].serial == RouteSerials(trace[n].log)[k]
              && PublishedBefore(trace, events, n, trace[n].routed[k])
  {
    var p := (h: Hub) => Handed(h);
    forall i | 0 <= i < |trace| - 1 && p(trace[i]) ensures p(trace[i + 1]) {
      assert trace[i + 1] == Next(spec, receiveMax, trace[i], events[i]);
      NextHanded(spec, receiveMax, trace[i], events[i]);
    }
    Along(trace, p, n);
    forall k | 0 <= k < |trace[n].routed| ensures PublishedBefore(trace, events, n, trace[n].routed[k]) {
      HeldWasPublished(spec, receiveMax, trace, events, n, trace[n].routed[k]);
    }
  }

  /** A PUBREL hands the router the message staged under its identifier, and the table loses it and no other. */
  lemma PubRelRoutes(spec: Spec, receiveMax: nat, h: Hub, id: PacketId)
    ensures var g := Next(spec, receiveMax, h, PubRelIn(id));
            && (id in h.table ==> g.routed == h.routed + [h.table[id]])
            && (id !in h.table ==> g.routed == h.routed)
            && id !in g.table
            && (forall k :: k in h.table && k != id ==> k in g.table && g.table[k] == h.table[k])
  {
  }

  // ---------------------------------------------------------------- what is answered

  /** The packets of the run that ask for an answer. */
  function Asked(events: seq<Event>): seq<Event> {
    if events == [] then []
    else
      var e := events[|events| - 1];
      Asked(events[..|events| - 1]) + if e.PublishIn? || e.PubRelIn? then [e] else []
  }

  /** PUBREC for a PUBLISH, unless the connection is closed instead; PUBCOMP for a PUBREL; the same identifier. */
  predicate Answers(e: Event, r: Reply) {
    if e.PublishIn? then
      r == RecReply(e.id, 0) || r == RecReply(e.id, PACKET_ID_IN_USE) || r == Closed(RECEIVE_MAX_EXCEEDED)
    else e.PubRelIn? && r == CompReply(e.id)
  }

  ghost predicate AnsweredAll(asked: seq<Event>, replies: seq<Reply>) {
    |replies| == |asked| && forall k :: 0 <= k < |asked| ==> Answers(asked[k], replies[k])
  }

  lemma NextAnswered(spec: Spec, receiveMax: nat, h: Hub, e: Event, asked: seq<Event>)
    requires AnsweredAll(asked, h.replies)
    ensures AnsweredAll(asked + if e.PublishIn? || e.PubRelIn? then [e] else [],
                        Next(spec, receiveMax, h, e).replies)
  {
    if e.EndSession? {
      DiscardsRouteNothing(h, e.order);
    }
  }

  /** In every run each PUBLISH and each PUBREL is answered once, in the order they came. */
  lemma {:induction false} AnsweredInTurn(spec: Spec, receiveMax: nat, trace: seq<Hub>, events: seq<Event>, n: nat)
    requires IsRun(spec, receiveMax, trace, events) && n < |trace|
    ensures AnsweredAll(Asked(events[..n]), trace[n].replies)
  {
    if n > 0 {
      AnsweredInTurn(spec, receiveMax, trace, events, n - 1);
      NextAnswered(spec, receiveMax, trace[n - 1], events[n - 1], Asked(events[..n - 1]));
      assert events[..n][..n - 1] == events[..n - 1];
    }
  }

  /** There is no room for another staged message. */
  predicate Crammed(receiveMax: nat, t: Table) {
    receiveMax > 0 && |t| >= receiveMax
  }

  /** A PUBREC of success means that the broker holds the message, if and only if the identifier was staged already or
  there was room: without room, a client whose version knows no server DISCONNECT is answered success and the message
  is dropped. A version that knows it is disconnected instead. */
  lemma SuccessMeansHeldIff(spec: Spec, receiveMax: nat, h: Hub, e: Event)
    requires e.PublishIn?
    ensures var g := Next(spec, receiveMax, h, e);
            var reply := g.replies[|g.replies| - 1];
            && (reply == RecReply(e.id, 0) ==>
                  (e.id in g.table <==> e.id in h.table || !Crammed(receiveMax, h.table)))
            && (reply.Closed? <==> e.id !in h.table && Crammed(receiveMax, h.table) && spec.serverDisconnect)
            && (reply == RecReply(e.id, 0x91) <==> e.id in h.table && !e.dup && spec.reasonCodes)
            && (e.id in g.table && e.id !in h.table ==>
                  g.table[e.id] == Staged(h.seen, e.topic, e.payload, e.retain))
            && (forall k :: k in h.table ==> k in g.table && g.table[k] == h.table[k])
  {
  }

  /** No message is routed twice, in any run. */
  lemma RoutedAtMostOnce(spec: Spec, receiveMax: nat, trace: seq<Hub>, events: seq<Event>, n: nat, i: nat, j: nat)
    requires IsRun(spec, receiveMax, trace, events) && n < |trace|
    requires i < j < |trace[n].log| && trace[n].log[i].Route? && trace[n].log[j].Route?
    ensures trace[n].log[i].serial != trace[n].log[j].serial
  {
    RunInv(spec, receiveMax, trace, events, n);
    OnceOut(trace[n].log, i, j);
  }

  lemma EntryOf(log: seq<Mark>, i: nat) returns (a: nat)
    requires Alternates(log) && i < |log| && !log[i].Enter?
    ensures a < i && log[a] == Enter(log[i].id, log[i].serial)
  {
    assert Follows(Open(log[..i]), log[i]);
    OpenWasEntered(log[..i], log[i].id);
    a :| 0 <= a < |log[..i]| && log[..i][a] == Enter(log[i].id, Open(log[..i])[log[i].id]);
  }

  /** Two exits of one serial would need a second entry in between. */
  lemma OnceOut(log: seq<Mark>, i: nat, j: nat)
    requires Alternates(log) && EntersOnce(log) && i < j < |log| && !log[i].Enter? && !log[j].Enter?
    ensures log[i].serial != log[j].serial
  {
    if log[i].serial == log[j].serial {
      var a := EntryOf(log, i);
      var b := EntryOf(log, j);
      assert a == b;
      assert Follows(Open(log[..j]), log[j]);
      var c := Reentry(log, i, j, log[i].id, log[i].serial);
      assert false;
    }
  }

  lemma {:induction false} Reentry(log: seq<Mark>, i: nat, j: nat, id: PacketId, serial: nat) returns (c: nat)
    requires Alternates(log) && i < j <= |log| && !log[i].Enter? && log[i].id == id
    requires id in Open(log[..j]) && Open(log[..j])[id] == serial
    ensures i < c < j && log[c] == Enter(id, serial)
    decreases j
  {
    var m := log[j - 1];
    assert log[..j][..j - 1] == log[..j - 1];
    if m.Enter? && m.id == id {
      c := j - 1;
    } else {
      c := Reentry(log, i, j - 1, id, serial);
    }
  }

  /** Entries are routed, discarded with their session, or still staged: the counts add up. */
  lemma {:induction false} Balance(log: seq<Mark>)
    requires Alternates(log)
    ensures Entered(log) == RoutedCount(log) + DiscardedCount(log) + |Open(log)|
  {
    if log != [] {
      var init, m := log[..|log| - 1], log[|log| - 1];
      assert forall i :: 0 <= i < |init| ==> init[..i] == log[..i];
      Balance(init);
      assert Follows(Open(init), m);
      if m.Enter? {
        assert Open(log).Keys == Open(init).Keys + {m.id};
      } else {
        assert Open(log).Keys == Open(init).Keys - {m.id};
      }
      assert |Open(log)| == |Open(log).Keys| && |Open(init)| == |Open(init).Keys|;
    }
  }

  function Entered(log: seq<Mark>): nat {
    if log == [] then 0 else Entered(log[..|log| - 1]) + if log[|log| - 1].Enter? then 1 else 0
  }

  function RoutedCount(log: seq<Mark>): nat {
    if log == [] then 0 else RoutedCount(log[..|log| - 1]) + if log[|log| - 1].Route? then 1 else 0
  }

  function DiscardedCount(log: seq<Mark>): nat {
    if log == [] then 0 else DiscardedCount(log[..|log| - 1]) + if log[|log| - 1].Discard? then 1 else 0
  }

  lemma StagedIsAccountedFor(spec: Spec, receiveMax: nat, trace: seq<Hub>, events: seq<Event>, n: nat)
    requires IsRun(spec, receiveMax, trace, events) && n < |trace|
    ensures Entered(trace[n].log) == RoutedCount(trace[n].log) + DiscardedCount(trace[n].log) + |trace[n].table|
    ensures receiveMax > 0 ==> |trace[n].table| <= receiveMax
  {
    RunInv(spec, receiveMax, trace, events, n);
    Balance(trace[n].log);
    assert |Open(trace[n].log)| == |Open(trace[n].log).Keys| && |trace[n].table| == |trace[n].table.Keys|;
  }
}
