/** The broker's half of outbound QoS 1/2 delivery to one client, as functions.

A delivery is recorded twice: in the session's Inflight map, which is persisted, and in
the QoS engine's retry table, which is not. Every function below takes the pair and returns
the new pair together with the packets written to the client. The classes of module
`OutboundBroker` update the two objects in place and are proved against these functions. */
module Outbound {
  import opened Basics

  /** MQTT packet identifiers: a uint16 that is never 0. */
  type PacketId = id: int | 1 <= id <= 65535 witness 1

  /** The two acknowledged levels; QoS 0 touches none of this state. */
  type QoS = q: int | 1 <= q <= 2 witness 1

  const MAX_ID := 65535
  const MAX_BUFFERED := 1000
  const FAILURE_BASE := 0x80

  /** An application message. `serial` numbers acceptances and is history only: no branch reads it. */
  datatype Message = Message(serial: nat, topic: string, payload: seq<int>, retain: bool)

  datatype InflightMsg = InflightMsg(qos: QoS, msg: Message, pendingPubRel: bool)

  datatype Tracked = Tracked(qos: QoS, msg: Message, acked: bool, sentAt: int, retries: nat)

  /** A message accepted for the client; an `expiresAt` of 0 means it never expires. */
  datatype Offer = Offer(qos: QoS, msg: Message, expiresAt: int)

  datatype Session = Session(
    inflight: map<PacketId, InflightMsg>,
    nextId: PacketId,
    unacked: nat,
    window: nat,
    queue: seq<Offer>)

  type Engine = map<PacketId, Tracked>

  datatype Side = Side(sess: Session, engine: Engine)

  datatype Config = Config(maxInflight: int, maxRetries: int, retryInterval: int, retransmit: bool)

  datatype Packet =
    | Publish(id: PacketId, qos: QoS, msg: Message, dup: bool)
    | PubRel(id: PacketId)
    | PubAck(id: PacketId)
    | PubRec(id: PacketId, reason: int)
    | PubComp(id: PacketId)

  // ---------------------------------------------------------------- packet identifiers

  /** The uint16 counter step that skips 0. */
  function Succ(id: PacketId): PacketId {
    if id == MAX_ID then 1 else id + 1
  }

  /** The identifier reached from `start` after k counter steps. */
  function After(start: PacketId, k: nat): PacketId {
    (start - 1 + k) % MAX_ID + 1
  }

  /** The probe of NextPacketID: at most 65535 attempts, then the next one regardless. */
  function FindId(used: set<PacketId>, seqNo: PacketId, attempts: nat): (r: (PacketId, PacketId))
    requires attempts <= MAX_ID
    decreases MAX_ID - attempts
  {
    if attempts == MAX_ID || seqNo !in used then (seqNo, Succ(seqNo))
    else FindId(used, Succ(seqNo), attempts + 1)
  }

  lemma AfterStep(start: PacketId, k: nat)
    ensures After(start, k + 1) == Succ(After(start, k))
  {
    var x := start - 1 + k;
    assert x % MAX_ID == MAX_ID - 1 ==> (x + 1) % MAX_ID == 0;
    assert x % MAX_ID < MAX_ID - 1 ==> (x + 1) % MAX_ID == x % MAX_ID + 1;
  }

  /** Pigeonhole over the wrapping counter: the probe finds a free identifier unless all are taken. */
  lemma {:induction false} FindIdUnused(used: set<PacketId>, start: PacketId, attempts: nat, seen: set<PacketId>)
    requires attempts <= MAX_ID && |used| < MAX_ID
    requires seen <= used && |seen| == attempts
    requires forall id :: id in seen ==> exists k :: 0 <= k < attempts && id == After(start, k)
    ensures FindId(used, After(start, attempts), attempts).0 !in used
    decreases MAX_ID - attempts
  {
    var here := After(start, attempts);
    SubsetSize(seen, used);
    if here in used {
      assert forall k :: 0 <= k < attempts ==> After(start, k) != here;
      AfterStep(start, attempts);
      FindIdUnused(used, start, attempts + 1, seen + {here});
    }
  }

  /** The (identifier, next counter value) pair NextPacketID yields for a session. */
  function NextId(s: Session): (PacketId, PacketId) {
    FindId(s.inflight.Keys, s.nextId, 0)
  }

  lemma NextIdUnused(s: Session)
    requires |s.inflight| < MAX_ID
    ensures NextId(s).0 !in s.inflight
  {
    assert After(s.nextId, 0) == s.nextId;
    assert |s.inflight.Keys| == |s.inflight|;
    FindIdUnused(s.inflight.Keys, s.nextId, 0, {});
  }

  // ---------------------------------------------------------------- delivery

  predicate Expired(o: Offer, now: int) {
    o.expiresAt != 0 && now > o.expiresAt
  }

  predicate CanSend(s: Session) {
    s.unacked < s.window
  }

  /** track(): refused when the client's table is full, whatever the identifier. */
  function Track(cfg: Config, engine: Engine, id: PacketId, qos: QoS, msg: Message, now: int): Engine {
    if cfg.maxInflight > 0 && |engine| >= cfg.maxInflight then engine
    else engine[id := Tracked(qos, msg, false, now, 0)]
  }

  /** The sending half of doDeliver: allocate, record in both tables, count. */
  function SendNow(cfg: Config, s: Side, o: Offer, now: int): (r: (Side, seq<Packet>)) {
    var (id, nextId) := NextId(s.sess);
    var sess := s.sess.(inflight := s.sess.inflight[id := InflightMsg(o.qos, o.msg, false)],
                        nextId := nextId,
                        unacked := s.sess.unacked + 1);
    (Side(sess, Track(cfg, s.engine, id, o.qos, o.msg, now)), [Publish(id, o.qos, o.msg, false)])
  }

  /** doDeliver for QoS 1/2: drop if expired, buffer (or drop) if the window is full, else send. */
  function Deliver(cfg: Config, s: Side, o: Offer, now: int): (r: (Side, seq<Packet>)) {
    if Expired(o, now) then (s, [])
    else if !CanSend(s.sess) then
      if |s.sess.queue| >= MAX_BUFFERED then (s, [])
      else (s.(sess := s.sess.(queue := s.sess.queue + [o])), [])
    else SendNow(cfg, s, o, now)
  }

  /** flushBufferedOutbound: drain the queue while the window is open. */
  function Flush(cfg: Config, s: Side, now: int): (r: (Side, seq<Packet>))
    decreases |s.sess.queue|
  {
    if s.sess.queue == [] || !CanSend(s.sess) then (s, [])
    else
      var popped := s.(sess := s.sess.(queue := s.sess.queue[1..]));
      var (sent, out) := Deliver(cfg, popped, s.sess.queue[0], now);
      var (done, more) := Flush(cfg, sent, now);
      (done, out + more)
  }

  // ---------------------------------------------------------------- acknowledgements

  function Dec(n: nat): nat {
    if n == 0 then 0 else n - 1
  }

  /** Forget a delivery on both sides; the window counter moves only for a real record. */
  function Release(s: Side, id: PacketId): Side {
    var sess := if id in s.sess.inflight
                then s.sess.(inflight := s.sess.inflight - {id}, unacked := Dec(s.sess.unacked))
                else s.sess;
    Side(sess, s.engine - {id})
  }

  /** handlePubAck, handlePubComp and dropRejectedDelivery all end this way. */
  function Complete(cfg: Config, s: Side, id: PacketId, now: int): (Side, seq<Packet>) {
    Flush(cfg, Release(s, id), now)
  }

  function MarkPubRel(sess: Session, id: PacketId): Session {
    if id in sess.inflight && sess.inflight[id].qos == 2
    then sess.(inflight := sess.inflight[id := sess.inflight[id].(pendingPubRel := true)])
    else sess
  }

  /** AckPubRec: a PUBREL leaves only for a tracked delivery. */
  function AckPubRec(engine: Engine, id: PacketId): (Engine, seq<Packet>) {
    if id in engine then (engine[id := engine[id].(acked := true)], [PubRel(id)]) else (engine, [])
  }

  function HandlePubRec(cfg: Config, s: Side, id: PacketId, reason: int, now: int): (Side, seq<Packet>) {
    if reason >= FAILURE_BASE then Complete(cfg, s, id, now)
    else
      var (engine, out) := AckPubRec(s.engine, id);
      (Side(MarkPubRel(s.sess, id), engine), out)
  }

  /** The broker's dispatch on an acknowledgement from the client. */
  function HandleAck(cfg: Config, s: Side, p: Packet, now: int): (Side, seq<Packet>) {
    match p
    case PubAck(id) => Complete(cfg, s, id, now)
    case PubRec(id, reason) => HandlePubRec(cfg, s, id, reason, now)
    case PubComp(id) => Complete(cfg, s, id, now)
    case _ => (s, [])
  }

  // ---------------------------------------------------------------- retry

  /** An order in which a Go map with these keys may be ranged over. */
  ghost predicate Enumerates<T>(order: seq<T>, keys: set<T>) {
    && (forall i :: 0 <= i < |order| ==> order[i] in keys)
    && (forall x :: x in keys ==> x in order)
    && (forall i, j :: 0 <= i < j < |order| ==> order[i] != order[j])
  }

  /** Some order of a finite set. */
  ghost function AnyOrder<T(!new)>(keys: set<T>): (order: seq<T>)
    ensures Enumerates(order, keys)
    decreases keys
  {
    if keys == {} then []
    else
      var k :| k in keys;
      AnyOrder(keys - {k}) + [k]
  }

  /** Some order of a finite set that starts with a given element. */
  ghost function OrderFrom<T(!new)>(keys: set<T>, first: T): (order: seq<T>)
    requires first in keys
    ensures Enumerates(order, keys) && order[0] == first
  {
    [first] + AnyOrder(keys - {first})
  }

  predicate Due(cfg: Config, t: Tracked, now: int) {
    now - t.sentAt >= cfg.retryInterval
  }

  predicate GivenUp(cfg: Config, t: Tracked, now: int) {
    Due(cfg, t, now) && t.retries >= cfg.maxRetries
  }

  predicate Retried(cfg: Config, t: Tracked, now: int) {
    Due(cfg, t, now) && t.retries < cfg.maxRetries
  }

  /** What doRetry leaves in the engine table. */
  function RetryEngine(cfg: Config, engine: Engine, now: int): Engine {
    map id | id in engine && !GivenUp(cfg, engine[id], now) ::
      if Due(cfg, engine[id], now) then engine[id].(sentAt := now, retries := engine[id].retries + 1)
      else engine[id]
  }

  /** The give-up callbacks: the session forgets each abandoned delivery, without a flush. */
  function GiveUps(cfg: Config, sess: Session, engine: Engine, order: seq<PacketId>, now: int): Session
    decreases |order|
  {
    if order == [] then sess
    else
      var id := order[|order| - 1];
      var rest := GiveUps(cfg, sess, engine, order[..|order| - 1], now);
      if id in engine && GivenUp(cfg, engine[id], now) && id in rest.inflight
      then rest.(inflight := rest.inflight - {id}, unacked := Dec(rest.unacked))
      else rest
  }

  /** republish(): the session record is the authority on what may be sent again. */
  function Republish(sess: Session, id: PacketId, qos: QoS): seq<Packet> {
    if id in sess.inflight && sess.inflight[id].qos == qos
    then [Publish(id, sess.inflight[id].qos, sess.inflight[id].msg, true)]
    else []
  }

  /** The packet one due engine entry puts back on the wire, given the engine's snapshot of it. */
  function RetrySend(cfg: Config, sess: Session, engine: Engine, id: PacketId, now: int): seq<Packet> {
    if id in engine && Retried(cfg, engine[id], now) then
      if engine[id].qos == 2 && engine[id].acked then [PubRel(id)]
      else Republish(sess, id, engine[id].qos)
    else []
  }

  function RetrySends(cfg: Config, sess: Session, engine: Engine, order: seq<PacketId>, now: int): seq<Packet>
    decreases |order|
  {
    if order == [] then []
    else RetrySends(cfg, sess, engine, order[..|order| - 1], now)
         + RetrySend(cfg, sess, engine, order[|order| - 1], now)
  }

  /** doRetry for this client, ranging over the table in the given order. */
  function Retry(cfg: Config, s: Side, order: seq<PacketId>, now: int): (Side, seq<Packet>) {
    if !cfg.retransmit then (s, [])
    else
      var sess := GiveUps(cfg, s.sess, s.engine, order, now);
      (Side(sess, RetryEngine(cfg, s.engine, now)), RetrySends(cfg, sess, s.engine, order, now))
  }

  // ---------------------------------------------------------------- resumption

  /** restoreSessionInflight for one record. */
  function Retrack(cfg: Config, engine: Engine, id: PacketId, m: InflightMsg, now: int): Engine {
    if cfg.maxInflight > 0 && |engine| >= cfg.maxInflight then engine
    else engine[id := Tracked(m.qos, m.msg, m.qos == 2 && m.pendingPubRel, now, 0)]
  }

  function RestoreEngine(cfg: Config, inflight: map<PacketId, InflightMsg>, order: seq<PacketId>, now: int): Engine
    decreases |order|
  {
    if order == [] then map[]
    else
      var id := order[|order| - 1];
      var engine := RestoreEngine(cfg, inflight, order[..|order| - 1], now);
      if id in inflight then Retrack(cfg, engine, id, inflight[id], now) else engine
  }

  /** A session read back from the store: the counter and the window start over, the queue is gone. */
  function Restore(cfg: Config, inflight: map<PacketId, InflightMsg>, window: nat, order: seq<PacketId>,
                   now: int): Side {
    Side(Session(inflight, 1, 0, window, []), RestoreEngine(cfg, inflight, order, now))
  }

  function FreshSide(window: nat): Side {
    Side(Session(map[], 1, 0, window, []), map[])
  }

  /** The packet a resumed record owes: its PUBREL once the PUBREC was accepted, its PUBLISH before. */
  function Owes(id: PacketId, m: InflightMsg): Packet {
    if m.qos == 2 && m.pendingPubRel then PubRel(id) else Publish(id, m.qos, m.msg, true)
  }

  /** resendSessionInflight, ranging over the records in the given order. */
  function Resend(inflight: map<PacketId, InflightMsg>, order: seq<PacketId>): seq<Packet>
    decreases |order|
  {
    if order == [] then []
    else
      var id := order[|order| - 1];
      Resend(inflight, order[..|order| - 1]) + if id in inflight then [Owes(id, inflight[id])] else []
  }
}
