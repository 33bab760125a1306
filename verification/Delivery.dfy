/** Outbound QoS 1/2 delivery end to end: broker session and engine, two FIFO channels that lose
their tails when a connection dies, the stored session, and the client's duplicate table.

A run is a sequence of atomic actions. Each broker handler, one whole retry pass, and a connect
with its CONNACK and resend are one action each. */
module Delivery {
  import opened Basics
  import opened Outbound

  /** The receiving client: its duplicate table and what its application was handed. */
  datatype Client = Client(received: set<PacketId>, handed1: seq<nat>, handed2: seq<nat>)

  /** `retransmit` is the policy of the version the client last connected with.
      `issued`, `sent` and `ended` are history: serials accepted, given a packet identifier,
      and dropped together with a discarded session. */
  datatype System = System(
    side: Option<Side>,
    retransmit: bool,
    store: Option<map<PacketId, InflightMsg>>,
    client: Client,
    link: bool,
    down: seq<Packet>,
    up: seq<Packet>,
    issued: nat,
    sent: set<nat>,
    ended: set<nat>)

  datatype Action =
    | Accept(qos: QoS, topic: string, payload: seq<int>, retain: bool, expiresAt: int, now: int)
    | ClientReads
    | BrokerReads(now: int)
    | RetryTick(order: seq<PacketId>, now: int)
    | LinkLost(keepDown: nat, keepUp: nat)
    | Disconnect(keep: bool, keepDown: nat, keepUp: nat)
    | SessionExpires
    | ConnectClean(window: nat, retransmit: bool)
    | Connect(window: nat, trackOrder: seq<PacketId>, sendOrder: seq<PacketId>, retransmit: bool, now: int)

  const Init := System(None, false, None, Client({}, [], []), false, [], [], 0, {}, {})

  // ---------------------------------------------------------------- the client

  /** handlePublish and handlePubRel of the client: new state and the acknowledgement it writes. */
  function ClientHandle(c: Client, p: Packet): (Client, seq<Packet>) {
    match p
    case Publish(id, qos, msg, _) =>
      if qos == 1 then (c.(handed1 := c.handed1 + [msg.serial]), [PubAck(id)])
      else if id in c.received then (c, [PubRec(id, 0)])
      else (c.(received := c.received + {id}, handed2 := c.handed2 + [msg.serial]), [PubRec(id, 0)])
    case PubRel(id) => (c.(received := c.received - {id}), [PubComp(id)])
    case _ => (c, [])
  }

  // ---------------------------------------------------------------- transitions

  /** The session's outbound records, wherever they live. */
  function Records(s: System): map<PacketId, InflightMsg> {
    if s.side.Some? then s.side.value.sess.inflight else if s.store.Some? then s.store.value else map[]
  }

  function Queue(s: System): seq<Offer> {
    if s.side.Some? then s.side.value.sess.queue else []
  }

  predicate HasSession(s: System) {
    s.side.Some? || s.store.Some?
  }

  /** Packets written while the link is down are lost. */
  function Put(link: bool, channel: seq<Packet>, out: seq<Packet>): seq<Packet> {
    if link then channel + out else channel
  }

  function Take(channel: seq<Packet>, n: nat): seq<Packet> {
    if n <= |channel| then channel[..n] else channel
  }

  ghost function Serials(records: map<PacketId, InflightMsg>): set<nat> {
    set id | id in records :: records[id].msg.serial
  }

  /** Serials that leave for the first time in a burst of packets. */
  ghost function FirstSends(out: seq<Packet>): set<nat> {
    set i | 0 <= i < |out| && out[i].Publish? && !out[i].dup :: out[i].msg.serial
  }

  ghost predicate Enabled(s: System, a: Action) {
    match a
    case Accept(_, _, _, _, _, _) => s.side.Some?
    case ClientReads => s.down != []
    case BrokerReads(_) => s.up != [] && s.side.Some?
    case RetryTick(order, _) => s.side.Some? && Enumerates(order, s.side.value.engine.Keys)
    case LinkLost(_, _) => s.link
    case Disconnect(_, _, _) => s.side.Some?
    case SessionExpires => s.side.None?
    case ConnectClean(_, _) => !s.link
    case Connect(_, trackOrder, sendOrder, _, _) =>
      !s.link && Enumerates(trackOrder, Records(s).Keys) && Enumerates(sendOrder, Records(s).Keys)
  }

  /** The engine's settings under the policy of the connection. */
  function Policy(cfg: Config, s: System): Config {
    cfg.(retransmit := s.retransmit)
  }

  /** A clean connect starts a new session. The engine's table is emptied when a connection ends, not when one is taken
  over, so what it tracked for a session that is still live stays. */
  function CleanSide(s: System, window: nat): Side {
    FreshSide(window).(engine := if s.side.Some? then s.side.value.engine else map[])
  }

  /** The packets the broker writes in one action. */
  ghost function Written(cfg: Config, s: System, a: Action): seq<Packet>
    requires Enabled(s, a)
  {
    match a
    case Accept(qos, topic, payload, retain, expiresAt, now) =>
      Deliver(cfg, s.side.value, Offer(qos, Message(s.issued, topic, payload, retain), expiresAt), now).1
    case BrokerReads(now) => HandleAck(cfg, s.side.value, s.up[0], now).1
    case RetryTick(order, now) => Retry(Policy(cfg, s), s.side.value, order, now).1
    case Connect(_, _, sendOrder, _, _) => if HasSession(s) then Resend(Records(s), sendOrder) else []
    case _ => []
  }

  ghost function Next(cfg: Config, s: System, a: Action): System
    requires Enabled(s, a)
  {
    var out := Written(cfg, s, a);
    var t := s.(down := Put(s.link, s.down, out), sent := s.sent + FirstSends(out));
    match a
    case Accept(qos, topic, payload, retain, expiresAt, now) =>
      var o := Offer(qos, Message(s.issued, topic, payload, retain), expiresAt);
      t.(side := Some(Deliver(cfg, s.side.value, o, now).0), issued := s.issued + 1)
    case ClientReads =>
      var (client, acks) := ClientHandle(s.client, s.down[0]);
      s.(client := client, down := s.down[1..], up := Put(s.link, s.up, acks))
    case BrokerReads(now) =>
      t.(side := Some(HandleAck(cfg, s.side.value, s.up[0], now).0), up := s.up[1..])
    case RetryTick(order, now) =>
      t.(side := Some(Retry(Policy(cfg, s), s.side.value, order, now).0))
    case LinkLost(keepDown, keepUp) =>
      s.(link := false, down := Take(s.down, keepDown), up := Take(s.up, keepUp))
    case Disconnect(keep, keepDown, keepUp) =>
      s.(side := None, link := false, down := Take(s.down, keepDown), up := Take(s.up, keepUp),
         store := if keep then Some(s.side.value.sess.inflight) else None,
         ended := if keep then s.ended else s.ended + Serials(s.side.value.sess.inflight))
    case SessionExpires =>
      s.(store := None, ended := s.ended + Serials(Records(s)))
    case ConnectClean(window, retransmit) =>
      s.(side := Some(CleanSide(s, window)), retransmit := retransmit, store := None, link := true, down := [],
         up := [], client := s.client.(received := {}), ended := s.ended + Serials(Records(s)))
    case Connect(window, trackOrder, sendOrder, retransmit, now) =>
      var side := if s.side.Some? then s.side.value.(sess := s.side.value.sess.(window := window))
                  else if s.store.Some? then Restore(cfg, s.store.value, window, trackOrder, now)
                  else FreshSide(window);
      s.(side := Some(side), retransmit := retransmit, link := true, down := out, up := [],
         client := if HasSession(s) then s.client else s.client.(received := {}))
  }

  /** Versions that retransmit in connection are used only if the configuration lets them. */
  predicate Admitted(cfg: Config, a: Action) {
    (a.ConnectClean? || a.Connect?) && a.retransmit ==> cfg.retransmit
  }

  /** One action of a run; it leaves fewer than 65535 deliveries outstanding. */
  ghost predicate Step(cfg: Config, s: System, a: Action, t: System) {
    Enabled(s, a) && Admitted(cfg, a) && t == Next(cfg, s, a) && |Records(t)| < MAX_ID
  }

  /** A run visits the states of `trace` by the actions of `acts`. */
  ghost predicate IsRun(cfg: Config, trace: seq<System>, acts: seq<Action>) {
    && |trace| == |acts| + 1
    && trace[0] == Init
    && (forall i {:trigger acts[i]} :: 0 <= i < |acts| ==> Step(cfg, trace[i], acts[i], trace[i + 1]))
  }

  // ---------------------------------------------------------------- coupling

  /** What engine and session hold under one identifier is one delivery, stage included. */
  ghost predicate Agrees(s: Side) {
    forall id :: id in s.engine && id in s.sess.inflight ==>
      && s.engine[id].qos == s.sess.inflight[id].qos
      && s.engine[id].msg == s.sess.inflight[id].msg
      && (s.engine[id].qos == 2 ==> s.engine[id].acked == s.sess.inflight[id].pendingPubRel)
  }

  /** And the engine tracks nothing the session does not hold. */
  ghost predicate Coupled(s: Side) {
    Agrees(s) && s.engine.Keys <= s.sess.inflight.Keys
  }

  /** Whatever else the engine holds, it never lags behind a PUBREC the session has seen. */
  ghost predicate Staged(s: Side) {
    forall id :: id in s.engine && id in s.sess.inflight && s.engine[id].qos == 2 && s.sess.inflight[id].qos == 2 ==>
      s.sess.inflight[id].pendingPubRel ==> s.engine[id].acked
  }

  /** The engine's table cannot be full: it has no limit, or one beyond all identifiers. */
  predicate Unlimited(cfg: Config) {
    cfg.maxInflight <= 0 || cfg.maxInflight > MAX_ID
  }

  /** What the broker may put on the wire for its records: a copy of a PUBLISH that is not past its
      PUBREC, or a PUBREL for anything but such a PUBLISH. */
  ghost predicate Allowed(records: map<PacketId, InflightMsg>, p: Packet) {
    match p
    case Publish(id, qos, msg, _) =>
      id in records && records[id].qos == qos && records[id].msg == msg && (qos == 2 ==> !records[id].pendingPubRel)
    case PubRel(id) => !(id in records && records[id].qos == 2 && !records[id].pendingPubRel)
    case _ => false
  }

  /** Under `strict` only what is allowed; otherwise a PUBREL may be out of place. */
  ghost predicate Writable(records: map<PacketId, InflightMsg>, p: Packet, strict: bool) {
    Allowed(records, p) || (!strict && p.PubRel?)
  }

  /** A repetition: writable, and marked DUP if it is a PUBLISH. */
  ghost predicate Owed(records: map<PacketId, InflightMsg>, p: Packet, strict: bool) {
    Writable(records, p, strict) && (p.Publish? ==> p.dup)
  }

  ghost predicate AllOwed(records: map<PacketId, InflightMsg>, out: seq<Packet>, strict: bool) {
    forall i :: 0 <= i < |out| ==> Owed(records, out[i], strict)
  }

  lemma SendGrows(cfg: Config, s: Side, o: Offer, now: int)
    ensures |s.sess.inflight| <= |SendNow(cfg, s, o, now).0.sess.inflight|
  {
  }

  lemma {:induction false} FlushGrows(cfg: Config, s: Side, now: int)
    ensures |s.sess.inflight| <= |Flush(cfg, s, now).0.sess.inflight|
    decreases |s.sess.queue|
  {
    if s.sess.queue != [] && CanSend(s.sess) {
      var popped := s.(sess := s.sess.(queue := s.sess.queue[1..]));
      var (sent, _) := Deliver(cfg, popped, s.sess.queue[0], now);
      SendGrows(cfg, popped, s.sess.queue[0], now);
      FlushGrows(cfg, sent, now);
    }
  }

  /** GiveUps forgets exactly the abandoned records. */
  lemma {:induction false} GiveUpsExact(cfg: Config, sess: Session, engine: Engine, order: seq<PacketId>, now: int)
    ensures var r := GiveUps(cfg, sess, engine, order, now);
            && (forall id :: id in r.inflight <==>
                  id in sess.inflight && !(id in order && id in engine && GivenUp(cfg, engine[id], now)))
            && (forall id :: id in r.inflight ==> r.inflight[id] == sess.inflight[id])
            && r.queue == sess.queue && r.window == sess.window && r.nextId == sess.nextId
    decreases |order|
  {
    if order != [] {
      var init := order[..|order| - 1];
      GiveUpsExact(cfg, sess, engine, init, now);
      assert order == init + [order[|order| - 1]];
    }
  }

  lemma {:induction false} RetrySendsOwed(cfg: Config, s: Side, sess: Session, order: seq<PacketId>, now: int,
                                          strict: bool)
    requires Staged(s) && (strict ==> Agrees(s))
    requires forall id :: id in sess.inflight ==> id in s.sess.inflight && sess.inflight[id] == s.sess.inflight[id]
    ensures AllOwed(sess.inflight, RetrySends(cfg, sess, s.engine, order, now), strict)
    decreases |order|
  {
    if order != [] {
      RetrySendsOwed(cfg, s, sess, order[..|order| - 1], now, strict);
    }
  }

  /** With no retries allowed a due entry is given up at once. */
  lemma {:induction false} NoRetrySends(cfg: Config, sess: Session, engine: Engine, order: seq<PacketId>, now: int)
    requires cfg.maxRetries <= 0
    ensures RetrySends(cfg, sess, engine, order, now) == []
    decreases |order|
  {
    if order != [] {
      NoRetrySends(cfg, sess, engine, order[..|order| - 1], now);
    }
  }

  /** A pass can do no harm: the tables agree, or it sends nothing. */
  ghost predicate Tame(cfg: Config, s: Side) {
    Agrees(s) || !cfg.retransmit || cfg.maxRetries <= 0
  }

  lemma RetryOwed(cfg: Config, s: Side, order: seq<PacketId>, now: int, strict: bool)
    requires Staged(s) && (strict ==> Tame(cfg, s))
    ensures Staged(Retry(cfg, s, order, now).0)
    ensures AllOwed(Retry(cfg, s, order, now).0.sess.inflight, Retry(cfg, s, order, now).1, strict)
  {
    if cfg.retransmit {
      GiveUpsExact(cfg, s.sess, s.engine, order, now);
      if cfg.maxRetries <= 0 {
        NoRetrySends(cfg, GiveUps(cfg, s.sess, s.engine, order, now), s.engine, order, now);
      } else {
        RetrySendsOwed(cfg, s, GiveUps(cfg, s.sess, s.engine, order, now), order, now, strict);
      }
    }
  }

  lemma RetryCoupledAndOwed(cfg: Config, s: Side, order: seq<PacketId>, now: int)
    requires Coupled(s) && Enumerates(order, s.engine.Keys)
    ensures Coupled(Retry(cfg, s, order, now).0)
    ensures AllOwed(Retry(cfg, s, order, now).0.sess.inflight, Retry(cfg, s, order, now).1, true)
  {
    RetryOwed(cfg, s, order, now, true);
    GiveUpsExact(cfg, s.sess, s.engine, order, now);
  }

  lemma {:induction false} RestoreCoupled(cfg: Config, records: map<PacketId, InflightMsg>, order: seq<PacketId>,
                                          now: int)
    ensures Coupled(Side(Session(records, 1, 0, 0, []), RestoreEngine(cfg, records, order, now)))
    decreases |order|
  {
    if order != [] {
      RestoreCoupled(cfg, records, order[..|order| - 1], now);
    }
  }

  /** A resume writes exactly one packet per record: the one it owes, under its own identifier. */
  lemma {:induction false} ResendExact(records: map<PacketId, InflightMsg>, order: seq<PacketId>)
    requires forall i :: 0 <= i < |order| ==> order[i] in records
    ensures |Resend(records, order)| == |order|
    ensures forall i :: 0 <= i < |order| ==> Resend(records, order)[i] == Owes(order[i], records[order[i]])
    decreases |order|
  {
    if order != [] {
      ResendExact(records, order[..|order| - 1]);
    }
  }

  // ---------------------------------------------------------------- at most once

  /** The part of the state the at-most-once argument speaks about. */
  datatype View = View(records: map<PacketId, InflightMsg>, queue: seq<Offer>, down: seq<Packet>,
                       client: Client, issued: nat)

  function ViewOf(s: System): View {
    View(Records(s), Queue(s), s.down, s.client, s.issued)
  }

  /** Serial n has been accepted but never been given a packet identifier. */
  ghost predicate Unsent(v: View, n: nat) {
    && n < v.issued
    && n !in v.client.handed1
    && n !in v.client.handed2
    && (forall id :: id in v.records ==> v.records[id].msg.serial != n)
    && (forall i :: 0 <= i < |v.down| && v.down[i].Publish? ==> v.down[i].msg.serial != n)
  }

  /** The packet is a copy of the PUBLISH numbered n. */
  predicate Copy(p: Packet, n: nat) {
    p.Publish? && p.msg.serial == n
  }

  /** One identifier per serial, wherever it shows up. */
  ghost predicate WellNumbered(v: View) {
    && (forall id :: id in v.records ==> v.records[id].msg.serial < v.issued)
    && (forall id, other :: id in v.records && other in v.records && id != other ==>
          v.records[id].msg.serial != v.records[other].msg.serial)
    && (forall i :: 0 <= i < |v.down| && v.down[i].Publish? ==> v.down[i].msg.serial < v.issued)
    && (forall i, j :: 0 <= i < j < |v.down| && v.down[j].Publish? && Copy(v.down[i], v.down[j].msg.serial) ==>
          v.down[i].id == v.down[j].id)
    && (forall i, id :: 0 <= i < |v.down| && id in v.records && Copy(v.down[i], v.records[id].msg.serial) ==>
          v.down[i].id == id)
    && (forall i :: 0 <= i < |v.client.handed2| ==> v.client.handed2[i] < v.issued)
    && (forall i :: 0 <= i < |v.client.handed1| ==> v.client.handed1[i] < v.issued)
  }

  ghost predicate QueueUnsent(v: View) {
    && (forall i :: 0 <= i < |v.queue| ==> Unsent(v, v.queue[i].msg.serial))
    && (forall i, j :: 0 <= i < j < |v.queue| ==> v.queue[i].msg.serial != v.queue[j].msg.serial)
  }

  ghost predicate NoRepeats(log: seq<nat>) {
    forall i, j :: 0 <= i < j < |log| ==> log[i] != log[j]
  }

  ghost predicate NoPubRel(ps: seq<Packet>, lo: nat, hi: nat, id: PacketId)
    requires hi <= |ps|
  {
    forall k :: lo <= k < hi ==> ps[k] != PubRel(id)
  }

  /** A PUBLISH in flight whose message was already handed over meets a duplicate entry. */
  ghost predicate CopiesSuppressed(v: View) {
    forall j ::
      0 <= j < |v.down| && v.down[j].Publish? && v.down[j].qos == 2 && v.down[j].msg.serial in v.client.handed2 ==>
        v.down[j].id in v.client.received && NoPubRel(v.down, 0, j, v.down[j].id)
  }

  /** No PUBREL separates two copies of one PUBLISH. */
  ghost predicate CopiesTogether(v: View) {
    forall i, j ::
      0 <= i < j < |v.down| && v.down[j].Publish? && v.down[j].qos == 2 && Copy(v.down[i], v.down[j].msg.serial) ==>
        NoPubRel(v.down, i, j, v.down[j].id)
  }

  /** A record that may still be sent as PUBLISH has no PUBREL behind its last copy. */
  ghost predicate ResendSafe(v: View) {
    forall id :: id in v.records && v.records[id].qos == 2 && !v.records[id].pendingPubRel ==>
      && (v.records[id].msg.serial in v.client.handed2 ==> id in v.client.received && NoPubRel(v.down, 0, |v.down|, id))
      && (forall i :: 0 <= i < |v.down| && Copy(v.down[i], v.records[id].msg.serial) ==>
          NoPubRel(v.down, i, |v.down|, id))
  }

  ghost predicate Once(v: View) {
    NoRepeats(v.client.handed2) && CopiesSuppressed(v) && CopiesTogether(v) && ResendSafe(v)
  }

  /** Numbering holds throughout; at most once, as long as no PUBREL is out of place. */
  ghost predicate Safe(v: View, strict: bool) {
    WellNumbered(v) && QueueUnsent(v) && (strict ==> Once(v))
  }

  lemma AppendNumbered(v: View, p: Packet)
    requires WellNumbered(v) && QueueUnsent(v) && Writable(v.records, p, false)
    ensures WellNumbered(v.(down := v.down + [p])) && QueueUnsent(v.(down := v.down + [p]))
  {
  }

  lemma AppendCopies(v: View, p: Packet)
    requires CopiesSuppressed(v) && CopiesTogether(v) && ResendSafe(v) && Allowed(v.records, p)
    ensures CopiesSuppressed(v.(down := v.down + [p])) && CopiesTogether(v.(down := v.down + [p]))
  {
  }

  lemma AppendResend(v: View, p: Packet)
    requires ResendSafe(v) && Allowed(v.records, p)
    ensures ResendSafe(v.(down := v.down + [p]))
  {
  }

  lemma AppendWritable(v: View, p: Packet, strict: bool)
    requires Safe(v, strict) && Writable(v.records, p, strict)
    ensures Safe(v.(down := v.down + [p]), strict)
  {
    AppendNumbered(v, p);
    if strict {
      AppendCopies(v, p);
      AppendResend(v, p);
    }
  }

  lemma {:induction false} AppendAllOwed(v: View, out: seq<Packet>, strict: bool)
    requires Safe(v, strict) && AllOwed(v.records, out, strict)
    ensures Safe(v.(down := v.down + out), strict)
    decreases |out|
  {
    if out == [] {
      assert v.down + out == v.down;
    } else {
      var init, last := out[..|out| - 1], out[|out| - 1];
      AppendAllOwed(v, init, strict);
      AppendWritable(v.(down := v.down + init), last, strict);
      assert v.down + out == v.down + init + [last];
    }
  }

  lemma AddRecord(v: View, o: Offer, id: PacketId, strict: bool)
    requires Safe(v, strict) && Unsent(v, o.msg.serial) && id !in v.records
    requires forall i :: 0 <= i < |v.queue| ==> v.queue[i].msg.serial != o.msg.serial
    ensures Safe(v.(records := v.records[id := InflightMsg(o.qos, o.msg, false)]), strict)
  {
  }

  lemma SendFresh(v: View, o: Offer, id: PacketId, link: bool, strict: bool)
    requires Safe(v, strict) && Unsent(v, o.msg.serial) && id !in v.records
    requires forall i :: 0 <= i < |v.queue| ==> v.queue[i].msg.serial != o.msg.serial
    ensures Safe(v.(records := v.records[id := InflightMsg(o.qos, o.msg, false)],
                    down := Put(link, v.down, [Publish(id, o.qos, o.msg, false)])), strict)
  {
    AddRecord(v, o, id, strict);
    var w := v.(records := v.records[id := InflightMsg(o.qos, o.msg, false)]);
    AppendWritable(w, Publish(id, o.qos, o.msg, false), strict);
  }

  lemma Forget(v: View, records: map<PacketId, InflightMsg>, strict: bool)
    requires Safe(v, strict)
    requires forall id :: id in records ==> id in v.records && records[id] == v.records[id]
    ensures Safe(v.(records := records), strict)
  {
  }

  lemma Mark(v: View, sess: Session, id: PacketId, strict: bool)
    requires Safe(v, strict) && v.records == sess.inflight
    ensures Safe(v.(records := MarkPubRel(sess, id).inflight), strict)
  {
    var w := v.(records := MarkPubRel(sess, id).inflight);
    forall i | 0 <= i < |w.queue| ensures Unsent(w, w.queue[i].msg.serial) {
      assert Unsent(v, v.queue[i].msg.serial);
    }
  }

  lemma Truncate(v: View, n: nat, strict: bool)
    requires Safe(v, strict)
    ensures Safe(v.(down := Take(v.down, n)), strict)
  {
    var w := v.(down := Take(v.down, n));
    forall i | 0 <= i < |w.queue| ensures Unsent(w, w.queue[i].msg.serial) {
      assert Unsent(v, v.queue[i].msg.serial);
    }
  }

  lemma SubQueue(v: View, queue: seq<Offer>, strict: bool)
    requires Safe(v, strict) && (queue == [] || (|v.queue| > 0 && queue == v.queue[1..]))
    ensures Safe(v.(queue := queue), strict)
  {
  }

  lemma Enqueue(v: View, o: Offer, strict: bool)
    requires Safe(v, strict) && Unsent(v, o.msg.serial)
    requires forall i :: 0 <= i < |v.queue| ==> v.queue[i].msg.serial != o.msg.serial
    ensures Safe(v.(queue := v.queue + [o]), strict)
  {
  }

  lemma Issue(v: View, strict: bool)
    requires Safe(v, strict)
    ensures Safe(v.(issued := v.issued + 1), strict) && Unsent(v.(issued := v.issued + 1), v.issued)
    ensures forall i :: 0 <= i < |v.queue| ==> v.queue[i].msg.serial != v.issued
  {
  }

  lemma ClientReadSafe(v: View, strict: bool)
    requires Safe(v, strict) && v.down != []
    ensures Safe(v.(down := v.down[1..], client := ClientHandle(v.client, v.down[0]).0), strict)
  {
    var w := v.(down := v.down[1..], client := ClientHandle(v.client, v.down[0]).0);
    assert forall i :: 0 <= i < |w.down| ==> w.down[i] == v.down[i + 1];
    forall i | 0 <= i < |w.queue| ensures Unsent(w, w.queue[i].msg.serial) {
      assert Unsent(v, v.queue[i].msg.serial);
    }
    if strict {
      ClientReadOnce(v, w);
    }
  }

  lemma ClientReadOnce(v: View, w: View)
    requires Safe(v, true) && v.down != []
    requires w == v.(down := v.down[1..], client := ClientHandle(v.client, v.down[0]).0)
    ensures NoRepeats(w.client.handed2) && CopiesSuppressed(w) && CopiesTogether(w) && ResendSafe(w)
  {
  }

  // ---------------------------------------------------------------- preservation, step by step

  ghost predicate SafeAt(s: Side, v: View, strict: bool) {
    v.records == s.sess.inflight && v.queue == s.sess.queue && Safe(v, strict) && Staged(s)
  }

  /** The view after the broker moved to side t and wrote `out`. */
  function Moved(v: View, t: Side, link: bool, out: seq<Packet>): View {
    v.(records := t.sess.inflight, queue := t.sess.queue, down := Put(link, v.down, out))
  }

  lemma MovedTwice(v: View, s: Side, out: seq<Packet>, t: Side, more: seq<Packet>, link: bool)
    ensures Moved(Moved(v, s, link, out), t, link, more) == Moved(v, t, link, out + more)
  {
  }

  lemma SendNowSafe(cfg: Config, s: Side, v: View, o: Offer, now: int, link: bool, strict: bool)
    requires SafeAt(s, v, strict) && Unsent(v, o.msg.serial)
    requires forall i :: 0 <= i < |v.queue| ==> v.queue[i].msg.serial != o.msg.serial
    requires |SendNow(cfg, s, o, now).0.sess.inflight| < MAX_ID
    ensures var (t, out) := SendNow(cfg, s, o, now); SafeAt(t, Moved(v, t, link, out), strict)
  {
    SendGrows(cfg, s, o, now);
    NextIdUnused(s.sess);
    SendFresh(v, o, NextId(s.sess).0, link, strict);
  }

  /** One round of the flush loop. */
  lemma PopSafe(cfg: Config, s: Side, v: View, now: int, link: bool, strict: bool)
    requires SafeAt(s, v, strict) && s.sess.queue != [] && CanSend(s.sess)
    requires var popped := s.(sess := s.sess.(queue := s.sess.queue[1..]));
             |Deliver(cfg, popped, s.sess.queue[0], now).0.sess.inflight| < MAX_ID
    ensures var popped := s.(sess := s.sess.(queue := s.sess.queue[1..]));
            var (t, out) := Deliver(cfg, popped, s.sess.queue[0], now);
            SafeAt(t, Moved(v, t, link, out), strict)
  {
    var o := s.sess.queue[0];
    var popped := s.(sess := s.sess.(queue := s.sess.queue[1..]));
    SubQueue(v, popped.sess.queue, strict);
    assert Unsent(v, v.queue[0].msg.serial);
    if Expired(o, now) {
      assert v.down + [] == v.down;
    } else {
      SendNowSafe(cfg, popped, v.(queue := popped.sess.queue), o, now, link, strict);
    }
  }

  lemma {:induction false} FlushSafe(cfg: Config, s: Side, v: View, now: int, link: bool, strict: bool)
    requires SafeAt(s, v, strict) && |Flush(cfg, s, now).0.sess.inflight| < MAX_ID
    ensures var (t, out) := Flush(cfg, s, now); SafeAt(t, Moved(v, t, link, out), strict)
    decreases |s.sess.queue|
  {
    if s.sess.queue == [] || !CanSend(s.sess) {
      assert v.down + [] == v.down;
    } else {
      var popped := s.(sess := s.sess.(queue := s.sess.queue[1..]));
      var (sent, out) := Deliver(cfg, popped, s.sess.queue[0], now);
      var (t, more) := Flush(cfg, sent, now);
      FlushGrows(cfg, sent, now);
      PopSafe(cfg, s, v, now, link, strict);
      FlushSafe(cfg, sent, Moved(v, sent, link, out), now, link, strict);
      MovedTwice(v, sent, out, t, more, link);
    }
  }

  lemma ReleaseSafe(s: Side, v: View, id: PacketId, strict: bool)
    requires SafeAt(s, v, strict)
    ensures SafeAt(Release(s, id), v.(records := Release(s, id).sess.inflight), strict)
  {
    Forget(v, Release(s, id).sess.inflight, strict);
  }

  lemma PubRecStagedAndOwed(cfg: Config, s: Side, id: PacketId, strict: bool)
    requires Staged(s)
    ensures var (t, out) := HandlePubRec(cfg, s, id, 0, 0); Staged(t) && AllOwed(t.sess.inflight, out, strict)
  {
  }

  lemma PubRecSafe(cfg: Config, s: Side, v: View, id: PacketId, link: bool, strict: bool)
    requires SafeAt(s, v, strict)
    ensures var (t, out) := HandlePubRec(cfg, s, id, 0, 0); SafeAt(t, Moved(v, t, link, out), strict)
  {
    var (t, out) := HandlePubRec(cfg, s, id, 0, 0);
    PubRecStagedAndOwed(cfg, s, id, strict);
    Mark(v, s.sess, id, strict);
    if link {
      AppendAllOwed(v.(records := t.sess.inflight), out, strict);
    }
  }

  lemma HandleAckSafe(cfg: Config, s: Side, v: View, p: Packet, now: int, link: bool, strict: bool)
    requires SafeAt(s, v, strict) && |HandleAck(cfg, s, p, now).0.sess.inflight| < MAX_ID
    ensures var (t, out) := HandleAck(cfg, s, p, now); SafeAt(t, Moved(v, t, link, out), strict)
  {
    if p.PubRec? && p.reason < FAILURE_BASE {
      PubRecSafe(cfg, s, v, p.id, link, strict);
    } else if p.PubAck? || p.PubRec? || p.PubComp? {
      ReleaseSafe(s, v, p.id, strict);
      FlushSafe(cfg, Release(s, p.id), v.(records := Release(s, p.id).sess.inflight), now, link, strict);
    } else {
      assert v.down + [] == v.down;
    }
  }

  lemma RetrySafe(cfg: Config, s: Side, v: View, order: seq<PacketId>, now: int, link: bool, strict: bool)
    requires SafeAt(s, v, strict) && (strict ==> Tame(cfg, s))
    ensures var (t, out) := Retry(cfg, s, order, now); SafeAt(t, Moved(v, t, link, out), strict)
  {
    var (t, out) := Retry(cfg, s, order, now);
    RetryOwed(cfg, s, order, now, strict);
    GiveUpsExact(cfg, s.sess, s.engine, order, now);
    Forget(v, t.sess.inflight, strict);
    AppendAllOwed(v.(records := t.sess.inflight), out, strict);
  }

  lemma AcceptSafe(cfg: Config, s: Side, v: View, o: Offer, now: int, link: bool, strict: bool)
    requires SafeAt(s, v, strict) && o.msg.serial == v.issued
    requires |Deliver(cfg, s, o, now).0.sess.inflight| < MAX_ID
    ensures var (t, out) := Deliver(cfg, s, o, now); SafeAt(t, Moved(v, t, link, out).(issued := v.issued + 1), strict)
  {
    Issue(v, strict);
    var w := v.(issued := v.issued + 1);
    assert w.down + [] == w.down;
    if !Expired(o, now) && !CanSend(s.sess) {
      Enqueue(w, o, strict);
    } else if !Expired(o, now) {
      SendNowSafe(cfg, s, w, o, now, link, strict);
    }
  }

  /** What every reachable state satisfies. */
  ghost predicate Inv(s: System, strict: bool) {
    Safe(ViewOf(s), strict) && (s.side.Some? ==> Staged(s.side.value))
  }

  lemma ResendOwed(records: map<PacketId, InflightMsg>, order: seq<PacketId>)
    requires Enumerates(order, records.Keys)
    ensures AllOwed(records, Resend(records, order), true)
  {
    ResendExact(records, order);
  }

  lemma ResumeView(v: View, order: seq<PacketId>, strict: bool)
    requires Safe(v, strict) && Enumerates(order, v.records.Keys)
    ensures Safe(v.(down := Resend(v.records, order)), strict)
  {
    var out := Resend(v.records, order);
    ResendOwed(v.records, order);
    Truncate(v, 0, strict);
    AppendAllOwed(v.(down := Take(v.down, 0)), out, strict);
    assert Take(v.down, 0) + out == out;
  }

  lemma ResumeSafe(cfg: Config, s: System, a: Action, strict: bool)
    requires Inv(s, strict) && a.Connect? && Enabled(s, a) && HasSession(s)
    ensures Inv(Next(cfg, s, a), strict)
  {
    ResumeView(ViewOf(s), a.sendOrder, strict);
    if s.side.None? {
      RestoreCoupled(cfg, s.store.value, a.trackOrder, a.now);
      SubQueue(ViewOf(s).(down := Written(cfg, s, a)), [], strict);
    }
  }

  lemma EndSafe(v: View, received: set<PacketId>, strict: bool)
    requires Safe(v, strict)
    ensures Safe(v.(records := map[], queue := [], down := [], client := v.client.(received := received)), strict)
  {
  }

  /** Every action keeps the invariant, its strict part as long as a retry pass can do no harm. */
  lemma NextSafe(cfg: Config, s: System, a: Action, strict: bool)
    requires Inv(s, strict) && Enabled(s, a) && |Records(Next(cfg, s, a))| < MAX_ID
    requires strict && a.RetryTick? ==> Tame(Policy(cfg, s), s.side.value)
    ensures Inv(Next(cfg, s, a), strict)
  {
    var v := ViewOf(s);
    match a
    case Accept(qos, topic, payload, retain, expiresAt, now) =>
      var o := Offer(qos, Message(s.issued, topic, payload, retain), expiresAt);
      AcceptSafe(cfg, s.side.value, v, o, now, s.link, strict);
    case ClientReads => ClientReadSafe(v, strict);
    case BrokerReads(now) => HandleAckSafe(cfg, s.side.value, v, s.up[0], now, s.link, strict);
    case RetryTick(order, now) => RetrySafe(Policy(cfg, s), s.side.value, v, order, now, s.link, strict);
    case LinkLost(keepDown, _) => Truncate(v, keepDown, strict);
    case Disconnect(keep, keepDown, _) =>
      Truncate(v, keepDown, strict);
      SubQueue(v.(down := Take(v.down, keepDown)), [], strict);
      Forget(v.(down := Take(v.down, keepDown), queue := []), Records(Next(cfg, s, a)), strict);
    case SessionExpires => Forget(v, map[], strict);
    case ConnectClean(_, _) => EndSafe(v, {}, strict);
    case Connect(_, _, _, _, _) =>
      if HasSession(s) { ResumeSafe(cfg, s, a, strict); } else { EndSafe(v, {}, strict); }
  }

  // ---------------------------------------------------------------- the tables agree

  /** The tables agree and, if `whole`, the engine tracks only what the session holds. */
  ghost predicate Linked(s: Side, whole: bool) {
    Agrees(s) && (whole ==> s.engine.Keys <= s.sess.inflight.Keys)
  }

  lemma {:induction false} FirstIds(n: nat) returns (ids: set<PacketId>)
    requires n <= MAX_ID
    ensures |ids| == n && forall id :: id in ids <==> 1 <= id <= n
  {
    if n == 0 {
      ids := {};
    } else {
      var fewer := FirstIds(n - 1);
      var id: PacketId := n;
      ids := fewer + {id};
    }
  }

  /** There are no more entries than identifiers. */
  lemma EngineFits(engine: Engine)
    ensures |engine| <= MAX_ID
  {
    var ids := FirstIds(MAX_ID);
    assert engine.Keys <= ids;
    SubsetSize(engine.Keys, ids);
  }

  /** A refused entry leaves the tables linked only if there was none under the identifier. */
  lemma SendNowLinked(cfg: Config, s: Side, o: Offer, now: int, whole: bool)
    requires Linked(s, whole) && (Unlimited(cfg) || whole) && |SendNow(cfg, s, o, now).0.sess.inflight| < MAX_ID
    ensures Linked(SendNow(cfg, s, o, now).0, whole)
  {
    SendGrows(cfg, s, o, now);
    NextIdUnused(s.sess);
    EngineFits(s.engine);
  }

  lemma {:induction false} FlushLinked(cfg: Config, s: Side, now: int, whole: bool)
    requires Linked(s, whole) && (Unlimited(cfg) || whole) && |Flush(cfg, s, now).0.sess.inflight| < MAX_ID
    ensures Linked(Flush(cfg, s, now).0, whole)
    decreases |s.sess.queue|
  {
    if s.sess.queue != [] && CanSend(s.sess) {
      var popped := s.(sess := s.sess.(queue := s.sess.queue[1..]));
      var sent := Deliver(cfg, popped, s.sess.queue[0], now).0;
      FlushGrows(cfg, sent, now);
      if !Expired(s.sess.queue[0], now) {
        SendNowLinked(cfg, popped, s.sess.queue[0], now, whole);
      }
      FlushLinked(cfg, sent, now, whole);
    }
  }

  lemma AckLinked(cfg: Config, s: Side, p: Packet, now: int, whole: bool)
    requires Linked(s, whole) && (Unlimited(cfg) || whole) && |HandleAck(cfg, s, p, now).0.sess.inflight| < MAX_ID
    ensures Linked(HandleAck(cfg, s, p, now).0, whole)
  {
    if p.PubAck? || p.PubComp? || (p.PubRec? && p.reason >= FAILURE_BASE) {
      FlushLinked(cfg, Release(s, p.id), now, whole);
    }
  }

  lemma RetryLinked(cfg: Config, s: Side, order: seq<PacketId>, now: int, whole: bool)
    requires Linked(s, whole)
    ensures Linked(Retry(cfg, s, order, now).0, whole)
  {
    GiveUpsExact(cfg, s.sess, s.engine, order, now);
  }

  ghost predicate AllLinked(s: System, whole: bool) {
    s.side.Some? ==> Linked(s.side.value, whole)
  }

  /** A clean connect that finds deliveries tracked for a session that is still live. */
  predicate TakesOver(s: System, a: Action) {
    a.ConnectClean? && s.side.Some? && s.side.value.engine != map[]
  }

  lemma NextLinked(cfg: Config, s: System, a: Action, whole: bool)
    requires AllLinked(s, whole) && Enabled(s, a) && |Records(Next(cfg, s, a))| < MAX_ID
    requires Unlimited(cfg) || whole
    requires whole ==> !TakesOver(s, a)
    ensures AllLinked(Next(cfg, s, a), whole)
  {
    match a
    case Accept(qos, topic, payload, retain, expiresAt, now) =>
      var o := Offer(qos, Message(s.issued, topic, payload, retain), expiresAt);
      if !Expired(o, now) && CanSend(s.side.value.sess) {
        SendNowLinked(cfg, s.side.value, o, now, whole);
      }
    case BrokerReads(now) => AckLinked(cfg, s.side.value, s.up[0], now, whole);
    case RetryTick(order, now) => RetryLinked(Policy(cfg, s), s.side.value, order, now, whole);
    case Connect(_, trackOrder, _, _, now) =>
      if s.side.None? && s.store.Some? { RestoreCoupled(cfg, s.store.value, trackOrder, now); }
    case _ =>
  }

  /** Between connects the engine and the session stay coupled; a clean connect keeps them so if and only if the session
  it replaces was gone or had nothing tracked. */
  lemma CleanConnectCoupledIff(cfg: Config, s: System, a: Action)
    requires a.ConnectClean? && Enabled(s, a)
    ensures Coupled(Next(cfg, s, a).side.value) <==> !TakesOver(s, a)
  {
    if TakesOver(s, a) {
      var id :| id in s.side.value.engine;
      assert id in Next(cfg, s, a).side.value.engine.Keys;
    }
  }

  // ---------------------------------------------------------------- theorems over runs

  /** No clean connect of the run takes over a session with deliveries tracked. */
  ghost predicate NoTakeover(trace: seq<System>, acts: seq<Action>)
    requires |trace| == |acts| + 1
  {
    forall i {:trigger acts[i]} :: 0 <= i < |acts| ==> !TakesOver(trace[i], acts[i])
  }

  /** In every run, takeovers included. */
  lemma {:induction false} RunInv(cfg: Config, trace: seq<System>, acts: seq<Action>, n: nat)
    requires IsRun(cfg, trace, acts) && n < |trace|
    ensures Inv(trace[n], false)
  {
    if n > 0 {
      RunInv(cfg, trace, acts, n - 1);
      NextSafe(cfg, trace[n - 1], acts[n - 1], false);
    }
  }

  lemma {:induction false} RunLinked(cfg: Config, trace: seq<System>, acts: seq<Action>, n: nat, whole: bool)
    requires IsRun(cfg, trace, acts) && n < |trace|
    requires if whole then NoTakeover(trace, acts) else Unlimited(cfg)
    ensures AllLinked(trace[n], whole)
  {
    if n > 0 {
      RunLinked(cfg, trace, acts, n - 1, whole);
      assert Step(cfg, trace[n - 1], acts[n - 1], trace[n]);
      NextLinked(cfg, trace[n - 1], acts[n - 1], whole);
    }
  }

  lemma {:induction false} RunPolicy(cfg: Config, trace: seq<System>, acts: seq<Action>, n: nat)
    requires IsRun(cfg, trace, acts) && n < |trace|
    ensures trace[n].retransmit ==> cfg.retransmit
  {
    if n > 0 {
      RunPolicy(cfg, trace, acts, n - 1);
      assert Step(cfg, trace[n - 1], acts[n - 1], trace[n]);
    }
  }

  /** A PUBREL can be out of place: a pass that resends, and a table it is refused by. */
  predicate Hazard(cfg: Config) {
    cfg.retransmit && cfg.maxRetries > 0 && !Unlimited(cfg)
  }

  lemma RunTame(cfg: Config, trace: seq<System>, acts: seq<Action>, n: nat)
    requires IsRun(cfg, trace, acts) && n < |trace| && (NoTakeover(trace, acts) || !Hazard(cfg))
    ensures trace[n].side.Some? ==> Tame(Policy(cfg, trace[n]), trace[n].side.value)
  {
    RunPolicy(cfg, trace, acts, n);
    if NoTakeover(trace, acts) || Unlimited(cfg) {
      RunLinked(cfg, trace, acts, n, NoTakeover(trace, acts));
    }
  }

  lemma {:induction false} RunStrict(cfg: Config, trace: seq<System>, acts: seq<Action>, n: nat)
    requires IsRun(cfg, trace, acts) && n < |trace| && (NoTakeover(trace, acts) || !Hazard(cfg))
    ensures Inv(trace[n], true)
  {
    if n > 0 {
      RunStrict(cfg, trace, acts, n - 1);
      RunTame(cfg, trace, acts, n - 1);
      assert Step(cfg, trace[n - 1], acts[n - 1], trace[n]);
      NextSafe(cfg, trace[n - 1], acts[n - 1], true);
    }
  }

  /** The client hands each accepted QoS 2 message to its application at most once, in every run without a takeover and,
  unless the configuration is hazardous, in every run. */
  lemma AtMostOnce(cfg: Config, trace: seq<System>, acts: seq<Action>, n: nat, i: nat, j: nat)
    requires IsRun(cfg, trace, acts) && n < |trace| && (NoTakeover(trace, acts) || !Hazard(cfg))
    requires i < j < |trace[n].client.handed2|
    ensures trace[n].client.handed2[i] != trace[n].client.handed2[j]
  {
    RunStrict(cfg, trace, acts, n);
  }

  /** In every run without a takeover the engine and the session agree, save and restore included. With an engine table
  that cannot be full, what both hold under one identifier agrees in every run. */
  lemma CouplingHolds(cfg: Config, trace: seq<System>, acts: seq<Action>, n: nat, id: PacketId)
    requires IsRun(cfg, trace, acts) && n < |trace| && (NoTakeover(trace, acts) || Unlimited(cfg))
    requires trace[n].side.Some? && id in trace[n].side.value.engine
    ensures NoTakeover(trace, acts) ==> id in Records(trace[n])
    ensures var (t, r) := (trace[n].side.value.engine[id], Records(trace[n]));
            id in r ==> r[id].qos == t.qos && r[id].msg == t.msg && (t.qos == 2 ==> t.acked == r[id].pendingPubRel)
  {
    RunLinked(cfg, trace, acts, n, NoTakeover(trace, acts));
  }

  /** A resume writes one packet per record and no other: the owed one, under its original identifier. */
  lemma ResumeSendsOwed(cfg: Config, s: System, a: Action)
    requires a.Connect? && Enabled(s, a) && HasSession(s)
    ensures forall id :: id in Records(s) ==>
              var r := Records(s)[id];
              (if r.qos == 2 && r.pendingPubRel then PubRel(id) else Publish(id, r.qos, r.msg, true))
              in Written(cfg, s, a)
    ensures forall i :: 0 <= i < |Written(cfg, s, a)| ==>
              var p := Written(cfg, s, a)[i];
              && p.id in Records(s)
              && var r := Records(s)[p.id];
                 p == if r.qos == 2 && r.pendingPubRel then PubRel(p.id) else Publish(p.id, r.qos, r.msg, true)
    ensures forall i, j :: 0 <= i < j < |Written(cfg, s, a)| ==> Written(cfg, s, a)[i].id != Written(cfg, s, a)[j].id
  {
    ResendOnce(Records(s), a.sendOrder);
  }

  lemma ResendOnce(records: map<PacketId, InflightMsg>, order: seq<PacketId>)
    requires Enumerates(order, records.Keys)
    ensures forall id :: id in records ==> Owes(id, records[id]) in Resend(records, order)
    ensures forall i :: 0 <= i < |Resend(records, order)| ==>
              var p := Resend(records, order)[i]; p.id in records && p == Owes(p.id, records[p.id])
    ensures forall i, j :: 0 <= i < j < |Resend(records, order)| ==>
        Resend(records, order)[i].id != Resend(records, order)[j].id
  {
    ResendExact(records, order);
    forall id | id in records ensures Owes(id, records[id]) in Resend(records, order) {
      var i :| 0 <= i < |order| && order[i] == id;
      assert Resend(records, order)[i] == Owes(id, records[id]);
    }
  }

  // ---------------------------------------------------------------- only PUBREL after PUBREC

  ghost predicate NoCopy(out: seq<Packet>, n: nat) {
    forall i :: 0 <= i < |out| ==> !Copy(out[i], n)
  }

  /** Serial n will never be sent as PUBLISH again: it is not waiting to be sent, and any record of
      it is past its PUBREC. */
  ghost predicate Past(records: map<PacketId, InflightMsg>, queue: seq<Offer>, n: nat) {
    && (forall i :: 0 <= i < |queue| ==> queue[i].msg.serial != n)
    && (forall id :: id in records && records[id].msg.serial == n ==> records[id].qos == 2 && records[id].pendingPubRel)
  }

  lemma {:induction false} FlushPast(cfg: Config, s: Side, now: int, n: nat)
    requires Past(s.sess.inflight, s.sess.queue, n)
    ensures var (t, out) := Flush(cfg, s, now); Past(t.sess.inflight, t.sess.queue, n) && NoCopy(out, n)
    decreases |s.sess.queue|
  {
    if s.sess.queue != [] && CanSend(s.sess) {
      var popped := s.(sess := s.sess.(queue := s.sess.queue[1..]));
      FlushPast(cfg, Deliver(cfg, popped, s.sess.queue[0], now).0, now, n);
    }
  }

  lemma AckPast(cfg: Config, s: Side, p: Packet, now: int, n: nat)
    requires Past(s.sess.inflight, s.sess.queue, n)
    ensures var (t, out) := HandleAck(cfg, s, p, now); Past(t.sess.inflight, t.sess.queue, n) && NoCopy(out, n)
  {
    if p.PubAck? || p.PubComp? || (p.PubRec? && p.reason >= FAILURE_BASE) {
      FlushPast(cfg, Release(s, p.id), now, n);
    }
  }

  ghost predicate PastIn(s: System, n: nat) {
    n < s.issued && Past(Records(s), Queue(s), n)
  }

  lemma PastStable(cfg: Config, s: System, a: Action, n: nat)
    requires s.side.Some? ==> Staged(s.side.value)
    requires Enabled(s, a) && PastIn(s, n)
    ensures PastIn(Next(cfg, s, a), n) && NoCopy(Written(cfg, s, a), n)
  {
    match a
    case BrokerReads(now) => AckPast(cfg, s.side.value, s.up[0], now, n);
    case RetryTick(order, now) =>
      RetryOwed(Policy(cfg, s), s.side.value, order, now, false);
      GiveUpsExact(Policy(cfg, s), s.side.value.sess, s.side.value.engine, order, now);
    case Connect(_, _, sendOrder, _, _) => if HasSession(s) { ResendOwed(Records(s), sendOrder); }
    case _ =>
  }

  lemma PastStep(cfg: Config, trace: seq<System>, acts: seq<Action>, k: nat, n: nat)
    requires IsRun(cfg, trace, acts) && k < |acts| && PastIn(trace[k], n)
    ensures PastIn(trace[k + 1], n) && NoCopy(Written(cfg, trace[k], acts[k]), n)
  {
    RunInv(cfg, trace, acts, k);
    PastStable(cfg, trace[k], acts[k], n);
  }

  lemma {:induction false} PastForever(cfg: Config, trace: seq<System>, acts: seq<Action>, m: nat, k: nat, n: nat)
    requires IsRun(cfg, trace, acts) && m <= k < |trace| && PastIn(trace[m], n)
    ensures PastIn(trace[k], n)
  {
    if m < k {
      PastForever(cfg, trace, acts, m, k - 1, n);
      PastStep(cfg, trace, acts, k - 1, n);
    }
  }

  lemma PubRecMakesPast(cfg: Config, s: System, a: Action, id: PacketId)
    requires Inv(s, false) && Enabled(s, a) && a.BrokerReads?
    requires s.up[0].PubRec? && s.up[0].id == id && s.up[0].reason < FAILURE_BASE
    requires id in Records(s) && Records(s)[id].qos == 2
    ensures PastIn(Next(cfg, s, a), Records(s)[id].msg.serial)
  {
  }

  /** Once the broker has accepted a PUBREC for a QoS 2 delivery, no later action of the run sends
      that message as a PUBLISH again, whatever is lost, retried, saved or resumed in between. */
  lemma OnlyPubRelAfterPubRec(cfg: Config, trace: seq<System>, acts: seq<Action>, m: nat, k: nat, id: PacketId)
    requires IsRun(cfg, trace, acts) && m < k < |acts|
    requires acts[m].BrokerReads? && trace[m].up[0].PubRec? && trace[m].up[0].id == id &&
        trace[m].up[0].reason < FAILURE_BASE
    requires id in Records(trace[m]) && Records(trace[m])[id].qos == 2
    ensures NoCopy(Written(cfg, trace[k], acts[k]), Records(trace[m])[id].msg.serial)
  {
    RunInv(cfg, trace, acts, m);
    PubRecMakesPast(cfg, trace[m], acts[m], id);
    PastForever(cfg, trace, acts, m + 1, k, Records(trace[m])[id].msg.serial);
    PastStep(cfg, trace, acts, k, Records(trace[m])[id].msg.serial);
  }

  // ---------------------------------------------------------------- what can be reached

  predicate Timed(a: Action) {
    a.Accept? || a.BrokerReads? || a.RetryTick? || a.Connect?
  }

  /** The clock never goes back, and shows `now` at the latest. */
  ghost predicate InTime(acts: seq<Action>, now: int) {
    && (forall i, j :: 0 <= i < j < |acts| && Timed(acts[i]) && Timed(acts[j]) ==> acts[i].now <= acts[j].now)
    && (forall i :: 0 <= i < |acts| && Timed(acts[i]) ==> acts[i].now <= now)
  }

  ghost predicate Reach(cfg: Config, s: System, now: int) {
    exists trace, acts :: IsRun(cfg, trace, acts) && trace[|acts|] == s && InTime(acts, now)
  }

  lemma ReachInit(cfg: Config)
    ensures Reach(cfg, Init, 0)
  {
    assert IsRun(cfg, [Init], []) && InTime([], 0);
  }

  lemma ReachStep(cfg: Config, s: System, a: Action, t: System, now: int, later: int)
    requires Reach(cfg, s, now) && Step(cfg, s, a, t) && now <= later && (Timed(a) ==> a.now == later)
    ensures Reach(cfg, t, later)
  {
    var trace, acts :| IsRun(cfg, trace, acts) && trace[|acts|] == s && InTime(acts, now);
    var longer, more := trace + [t], acts + [a];
    forall i | 0 <= i < |more| ensures Step(cfg, longer[i], more[i], longer[i + 1]) {
      if i < |acts| {
        assert Step(cfg, trace[i], acts[i], trace[i + 1]);
      }
    }
    assert IsRun(cfg, longer, more) && longer[|more|] == t && InTime(more, later);
  }
}
