/** The MQTT 5.0 retransmission policy: with no resending inside a connection, every delivery has at
most one packet in flight, so an acknowledgement always speaks about the record it hits. A record
is dropped only after its message reached the application, and a fresh packet identifier is never
mistaken for a duplicate. The last part shows a 3.1.1 run in which both fail. */
module NoLoss {
  import opened Basics
  import opened Outbound
  import opened Delivery

  /** What the argument speaks about while the session lasts. */
  datatype Wire = Wire(records: map<PacketId, InflightMsg>, down: seq<Packet>, up: seq<Packet>, client: Client)

  function WireOf(s: System): Wire {
    Wire(Records(s), s.down, s.up, s.client)
  }

  ghost predicate DistinctIds(w: Wire) {
    && (forall i, j :: 0 <= i < j < |w.down| ==> w.down[i].id != w.down[j].id)
    && (forall i, j :: 0 <= i < j < |w.up| ==> w.up[i].id != w.up[j].id)
    && (forall i, j :: 0 <= i < |w.down| && 0 <= j < |w.up| ==> w.down[i].id != w.up[j].id)
  }

  /** A packet on its way to the client continues the handshake of its record. */
  ghost predicate DownFits(records: map<PacketId, InflightMsg>, p: Packet) {
    p.id in records &&
    match p
    case Publish(id, qos, msg, _) =>
      records[id].qos == qos && records[id].msg == msg && (qos == 2 ==> !records[id].pendingPubRel)
    case PubRel(id) => records[id].qos == 2 && records[id].pendingPubRel
    case _ => false
  }

  /** An acknowledgement on its way to the broker fits the stage of its record, and its message was handed over. */
  ghost predicate UpFits(w: Wire, p: Packet) {
    p.id in w.records &&
    match p
    case PubAck(id) => w.records[id].qos == 1 && w.records[id].msg.serial in w.client.handed1
    case PubRec(id, reason) =>
      reason == 0 && w.records[id].qos == 2 && !w.records[id].pendingPubRel &&
        w.records[id].msg.serial in w.client.handed2
    case PubComp(id) => w.records[id].qos == 2 && w.records[id].pendingPubRel && id !in w.client.received
    case _ => false
  }

  ghost predicate Tokens(w: Wire) {
    && DistinctIds(w)
    && (forall i :: 0 <= i < |w.down| ==> DownFits(w.records, w.down[i]))
    && (forall i :: 0 <= i < |w.up| ==> UpFits(w, w.up[i]))
    && (forall id :: id in w.client.received ==>
          id in w.records && w.records[id].qos == 2 && w.records[id].msg.serial in w.client.handed2)
    && (forall id :: id in w.records && w.records[id].pendingPubRel ==>
          w.records[id].qos == 2 && w.records[id].msg.serial in w.client.handed2)
  }

  // ---------------------------------------------------------------- preservation

  lemma SendTokens(w: Wire, id: PacketId, o: Offer, link: bool)
    requires Tokens(w) && id !in w.records
    ensures Tokens(w.(records := w.records[id := InflightMsg(o.qos, o.msg, false)],
                      down := Put(link, w.down, [Publish(id, o.qos, o.msg, false)])))
  {
  }

  lemma DeliverTokens(cfg: Config, s: Side, o: Offer, w: Wire, now: int, link: bool)
    requires Tokens(w) && w.records == s.sess.inflight && CanSend(s.sess) &&
        |Deliver(cfg, s, o, now).0.sess.inflight| < MAX_ID
    ensures var (t, out) := Deliver(cfg, s, o, now);
            Tokens(w.(records := t.sess.inflight, down := Put(link, w.down, out)))
  {
    if Expired(o, now) {
      assert w.down + [] == w.down;
    } else {
      SendGrows(cfg, s, o, now);
      NextIdUnused(s.sess);
      SendTokens(w, NextId(s.sess).0, o, link);
    }
  }

  lemma PutTwice(link: bool, d: seq<Packet>, a: seq<Packet>, b: seq<Packet>)
    ensures Put(link, Put(link, d, a), b) == Put(link, d, a + b)
  {
  }

  lemma {:induction false} FlushTokens(cfg: Config, s: Side, w: Wire, now: int, link: bool)
    requires Tokens(w) && w.records == s.sess.inflight && |Flush(cfg, s, now).0.sess.inflight| < MAX_ID
    ensures var (t, out) := Flush(cfg, s, now);
            Tokens(w.(records := t.sess.inflight, down := Put(link, w.down, out)))
    decreases |s.sess.queue|
  {
    if s.sess.queue == [] || !CanSend(s.sess) {
      assert w.down + [] == w.down;
    } else {
      var popped := s.(sess := s.sess.(queue := s.sess.queue[1..]));
      var (sent, out) := Deliver(cfg, popped, s.sess.queue[0], now);
      var more := Flush(cfg, sent, now).1;
      FlushGrows(cfg, sent, now);
      DeliverTokens(cfg, popped, s.sess.queue[0], w, now, link);
      FlushTokens(cfg, sent, w.(records := sent.sess.inflight, down := Put(link, w.down, out)), now, link);
      PutTwice(link, w.down, out, more);
    }
  }

  lemma ReleaseTokens(w: Wire, id: PacketId)
    requires Tokens(w) && w.up != [] && w.up[0].id == id && (w.up[0].PubAck? || w.up[0].PubComp?)
    ensures Tokens(w.(records := w.records - {id}, up := w.up[1..]))
  {
    var u := w.(records := w.records - {id}, up := w.up[1..]);
    assert forall i :: 0 <= i < |u.up| ==> u.up[i] == w.up[i + 1];
  }

  lemma PubRecTokens(s: Side, w: Wire, link: bool)
    requires Tokens(w) && w.records == s.sess.inflight && w.up != [] && w.up[0].PubRec?
    ensures var id := w.up[0].id;
            Tokens(w.(records := MarkPubRel(s.sess, id).inflight, up := w.up[1..],
                      down := Put(link, w.down, AckPubRec(s.engine, id).1)))
  {
    var id := w.up[0].id;
    assert UpFits(w, w.up[0]);
    var u := w.(records := MarkPubRel(s.sess, id).inflight, up := w.up[1..],
                down := Put(link, w.down, AckPubRec(s.engine, id).1));
    assert forall i :: 0 <= i < |u.up| ==> u.up[i] == w.up[i + 1];
  }

  lemma AckTokens(cfg: Config, s: Side, w: Wire, now: int, link: bool)
    requires Tokens(w) && w.records == s.sess.inflight && w.up != []
    requires |HandleAck(cfg, s, w.up[0], now).0.sess.inflight| < MAX_ID
    ensures var (t, out) := HandleAck(cfg, s, w.up[0], now);
            Tokens(w.(records := t.sess.inflight, up := w.up[1..], down := Put(link, w.down, out)))
  {
    var p := w.up[0];
    assert UpFits(w, p);
    if p.PubRec? {
      PubRecTokens(s, w, link);
    } else {
      ReleaseTokens(w, p.id);
      FlushTokens(cfg, Release(s, p.id), w.(records := w.records - {p.id}, up := w.up[1..]), now, link);
    }
  }

  lemma ClientTokens(w: Wire, link: bool)
    requires Tokens(w) && w.down != []
    ensures var (c, acks) := ClientHandle(w.client, w.down[0]);
            Tokens(w.(client := c, down := w.down[1..], up := Put(link, w.up, acks)))
  {
    var (c, acks) := ClientHandle(w.client, w.down[0]);
    var u := w.(client := c, down := w.down[1..], up := Put(link, w.up, acks));
    assert DownFits(w.records, w.down[0]);
    assert forall i :: 0 <= i < |u.down| ==> u.down[i] == w.down[i + 1];
  }

  lemma TakeTokens(w: Wire, n: nat, k: nat)
    requires Tokens(w)
    ensures Tokens(w.(down := Take(w.down, n), up := Take(w.up, k)))
  {
  }

  lemma ResumeTokens(w: Wire, order: seq<PacketId>)
    requires Tokens(w) && Enumerates(order, w.records.Keys)
    ensures Tokens(w.(down := Resend(w.records, order), up := []))
  {
    ResendExact(w.records, order);
  }

  /** The invariant of the 5.0 policy; it says nothing once the session is gone. */
  ghost predicate TokenInv(s: System) {
    HasSession(s) ==> Tokens(WireOf(s))
  }

  lemma NextTokens(cfg: Config, s: System, a: Action)
    requires TokenInv(s) && !s.retransmit && Enabled(s, a) && |Records(Next(cfg, s, a))| < MAX_ID
    ensures TokenInv(Next(cfg, s, a))
  {
    var w := WireOf(s);
    match a
    case Accept(qos, topic, payload, retain, expiresAt, now) =>
      var o := Offer(qos, Message(s.issued, topic, payload, retain), expiresAt);
      assert w.down + [] == w.down;
      if !Expired(o, now) && CanSend(s.side.value.sess) {
        SendGrows(cfg, s.side.value, o, now);
        NextIdUnused(s.side.value.sess);
        SendTokens(w, NextId(s.side.value.sess).0, o, s.link);
      }
    case ClientReads => if HasSession(s) { ClientTokens(w, s.link); }
    case BrokerReads(now) => AckTokens(cfg, s.side.value, w, now, s.link);
    case RetryTick(_, _) => assert w.down + [] == w.down;
    case LinkLost(n, k) => if HasSession(s) { TakeTokens(w, n, k); }
    case Disconnect(_, n, k) => TakeTokens(w, n, k);
    case Connect(_, _, order, _, _) => if HasSession(s) { ResumeTokens(w, order); }
    case _ =>
  }

  // ---------------------------------------------------------------- conservation

  /** Every message that got a packet identifier was handed over, is still recorded, or went with its session. */
  ghost predicate Conserved(s: System) {
    forall n :: n in s.sent ==>
      n in s.client.handed1 || n in s.client.handed2 || n in Serials(Records(s)) || n in s.ended
  }

  ghost predicate Recorded(records: map<PacketId, InflightMsg>, out: seq<Packet>) {
    forall i :: 0 <= i < |out| && out[i].Publish? && !out[i].dup ==> out[i].msg.serial in Serials(records)
  }

  lemma {:induction false} FlushRecorded(cfg: Config, s: Side, now: int)
    requires |Flush(cfg, s, now).0.sess.inflight| < MAX_ID
    ensures var (t, out) := Flush(cfg, s, now);
            Recorded(t.sess.inflight, out) && Serials(s.sess.inflight) <= Serials(t.sess.inflight)
    decreases |s.sess.queue|
  {
    if s.sess.queue != [] && CanSend(s.sess) {
      var popped := s.(sess := s.sess.(queue := s.sess.queue[1..]));
      var sent := Deliver(cfg, popped, s.sess.queue[0], now).0;
      FlushGrows(cfg, sent, now);
      if !Expired(s.sess.queue[0], now) {
        SendRecorded(cfg, popped, s.sess.queue[0], now);
      }
      FlushRecorded(cfg, sent, now);
    }
  }

  lemma SendRecorded(cfg: Config, s: Side, o: Offer, now: int)
    requires |SendNow(cfg, s, o, now).0.sess.inflight| < MAX_ID
    ensures var (t, out) := SendNow(cfg, s, o, now);
            Recorded(t.sess.inflight, out) && Serials(s.sess.inflight) <= Serials(t.sess.inflight)
  {
    SendGrows(cfg, s, o, now);
    NextIdUnused(s.sess);
    var (t, out) := SendNow(cfg, s, o, now);
    forall n | n in Serials(s.sess.inflight) ensures n in Serials(t.sess.inflight) {
      var id :| id in s.sess.inflight && s.sess.inflight[id].msg.serial == n;
      assert id in t.sess.inflight && t.sess.inflight[id].msg.serial == n;
    }
    var id := NextId(s.sess).0;
    assert id in t.sess.inflight && t.sess.inflight[id].msg.serial == out[0].msg.serial;
  }

  lemma AckConserved(cfg: Config, s: System, a: Action)
    requires TokenInv(s) && Conserved(s) && a.BrokerReads? && Enabled(s, a) && |Records(Next(cfg, s, a))| < MAX_ID
    ensures Conserved(Next(cfg, s, a))
  {
    var side, p, w := s.side.value, s.up[0], WireOf(s);
    assert UpFits(w, w.up[0]);
    var t := Next(cfg, s, a);
    if p.PubRec? {
      forall n | n in Serials(Records(s)) ensures n in Serials(Records(t)) {
        var id :| id in Records(s) && Records(s)[id].msg.serial == n;
        assert Records(t)[id].msg.serial == n;
      }
    } else {
      var r := Release(side, p.id);
      FlushRecorded(cfg, r, a.now);
      forall n | n in Serials(Records(s))
        ensures n in Serials(Records(t)) || n in s.client.handed1 || n in s.client.handed2
      {
        var id :| id in Records(s) && Records(s)[id].msg.serial == n;
        if id != p.id {
          assert r.sess.inflight[id].msg.serial == n;
        }
      }
    }
  }

  lemma NextConserved(cfg: Config, s: System, a: Action)
    requires TokenInv(s) && Conserved(s) && !s.retransmit && Enabled(s, a) && |Records(Next(cfg, s, a))| < MAX_ID
    ensures Conserved(Next(cfg, s, a))
  {
    match a
    case Accept(qos, topic, payload, retain, expiresAt, now) =>
      var o := Offer(qos, Message(s.issued, topic, payload, retain), expiresAt);
      if !Expired(o, now) && CanSend(s.side.value.sess) {
        SendRecorded(cfg, s.side.value, o, now);
      }
    case BrokerReads(_) => AckConserved(cfg, s, a);
    case _ =>
  }

  // ---------------------------------------------------------------- theorems over runs

  lemma StepTokens(cfg: Config, s: System, a: Action, t: System)
    requires Step(cfg, s, a, t) && !s.retransmit && TokenInv(s) && Conserved(s)
    ensures TokenInv(t) && Conserved(t)
  {
    NextTokens(cfg, s, a);
    NextConserved(cfg, s, a);
  }

  lemma RunTokens(cfg: Config, trace: seq<System>, acts: seq<Action>, n: nat)
    requires IsRun(cfg, trace, acts) && !cfg.retransmit && n < |trace|
    ensures TokenInv(trace[n]) && Conserved(trace[n])
  {
    var p := (s: System) => TokenInv(s) && Conserved(s);
    InitTokens();
    forall i | 0 <= i < |trace| - 1 && p(trace[i]) ensures p(trace[i + 1]) {
      RunPolicy(cfg, trace, acts, i);
      StepTokens(cfg, trace[i], acts[i], trace[i + 1]);
    }
    Along(trace, p, n);
  }

  lemma InitTokens()
    ensures TokenInv(Init) && Conserved(Init)
  {
  }

  /** No message that was ever sent disappears while its session lasts without reaching the application. */
  lemma NothingLost(cfg: Config, trace: seq<System>, acts: seq<Action>, n: nat, serial: nat)
    requires IsRun(cfg, trace, acts) && !cfg.retransmit && n < |trace|
    requires serial in trace[n].sent && serial !in trace[n].ended && serial !in Serials(Records(trace[n]))
    ensures serial in trace[n].client.handed1 || serial in trace[n].client.handed2
  {
    RunTokens(cfg, trace, acts, n);
  }

  /** A PUBCOMP drops a QoS 2 record only after its message was handed over, and then exactly once. */
  lemma PubCompMeansHandedOnce(cfg: Config, trace: seq<System>, acts: seq<Action>, n: nat, id: PacketId)
    requires IsRun(cfg, trace, acts) && !cfg.retransmit && n < |acts|
    requires acts[n].BrokerReads? && trace[n].up[0] == PubComp(id)
    ensures id in Records(trace[n]) && Records(trace[n])[id].qos == 2
    ensures multiset(trace[n].client.handed2)[Records(trace[n])[id].msg.serial] == 1
  {
    RunTokens(cfg, trace, acts, n);
    RunStrict(cfg, trace, acts, n);
    assert UpFits(WireOf(trace[n]), WireOf(trace[n]).up[0]);
    OnceInLog(trace[n].client.handed2, Records(trace[n])[id].msg.serial);
  }

  lemma {:induction false} OnceInLog(log: seq<nat>, x: nat)
    requires NoRepeats(log)
    ensures multiset(log)[x] == if x in log then 1 else 0
  {
    if log != [] {
      var init := log[..|log| - 1];
      OnceInLog(init, x);
      assert log == init + [log[|log| - 1]];
    }
  }

  /** While the session lasts, the client suppresses a QoS 2 PUBLISH exactly when its message was
      already handed over: a fresh identifier is never taken for a duplicate. */
  lemma SuppressedIffDuplicate(cfg: Config, trace: seq<System>, acts: seq<Action>, n: nat)
    requires IsRun(cfg, trace, acts) && !cfg.retransmit && n < |trace| && HasSession(trace[n])
    requires trace[n].down != [] && trace[n].down[0].Publish? && trace[n].down[0].qos == 2
    ensures trace[n].down[0].id in trace[n].client.received <==> trace[n].down[0].msg.serial in trace[n].client.handed2
  {
    RunTokens(cfg, trace, acts, n);
    RunStrict(cfg, trace, acts, n);
    assert DownFits(WireOf(trace[n]).records, WireOf(trace[n]).down[0]);
    assert CopiesSuppressed(ViewOf(trace[n]));
  }

  // ---------------------------------------------------------------- the policy is the exact condition

  /** Serial n was sent, its session goes on, and it is neither recorded nor was it ever handed over. */
  ghost predicate Lost(s: System, n: nat) {
    n in s.sent && n !in s.ended && n !in Serials(Records(s)) && n !in s.client.handed1 && n !in s.client.handed2
  }

  const FIRST := Message(0, "t", [], false)
  const SECOND := Message(1, "t", [], false)

  function Sending(m: Message, at: int, retries: nat, pending: bool): Side {
    Side(Session(map[1 := InflightMsg(2, m, pending)], 2, 1, 1, []), map[1 := Tracked(2, m, pending, at, retries)])
  }

  const CONNECTED := Init.(side := Some(FreshSide(1)), retransmit := true, link := true)

  /** A client whose table still holds identifier 1, facing a broker that retried `retries` times. */
  function Retrying(at: int, retries: nat): System {
    System(Some(Sending(FIRST, at, retries, false)), true, None, Client({1}, [], [0]), false, [], [], 1, {0}, {})
  }

  /** The same after the broker gave the delivery up. */
  const ABANDONED := Retrying(0, 0).(side := Some(Side(Session(map[], 2, 0, 1, []), map[])))

  function Send(now: int): Action {
    Accept(2, "t", [], false, 0, now)
  }

  lemma StepSend(cfg: Config, s: System, now: int)
    requires s.side == Some(FreshSide(1)) && s.link && s.down == []
    ensures var m := Message(s.issued, "t", [], false);
            Step(cfg, s, Send(now), s.(side := Some(Sending(m, now, 0, false)), down := [Publish(1, 2, m, false)],
                                       issued := s.issued + 1, sent := s.sent + {s.issued}))
  {
    var m := Message(s.issued, "t", [], false);
    assert NextId(s.side.value.sess) == (1, 2);
    assert Written(cfg, s, Send(now)) == [Publish(1, 2, m, false)];
    assert FirstSends([Publish(1, 2, m, false)]) == {s.issued} by {
      assert [Publish(1, 2, m, false)][0].msg.serial == s.issued;
    }
  }

  lemma ReachRetrying(cfg: Config)
    requires cfg.retransmit
    ensures Reach(cfg, Retrying(0, 0), 0)
  {
    ReachInit(cfg);
    StepConnect(cfg);
    ReachStep(cfg, Init, Connect(1, [], [], true, 0), CONNECTED, 0, 0);
    StepSend(cfg, CONNECTED, 0);
    var s2 := CONNECTED.(side := Retrying(0, 0).side, down := [Publish(1, 2, FIRST, false)], issued := 1, sent := {0});
    ReachStep(cfg, CONNECTED, Send(0), s2, 0, 0);
    StepReadAndLose(cfg, s2);
    var s3 := s2.(client := Client({1}, [], [0]), down := [], up := [PubRec(1, 0)]);
    ReachStep(cfg, s2, ClientReads, s3, 0, 0);
    ReachStep(cfg, s3, LinkLost(0, 0), Retrying(0, 0), 0, 0);
  }

  lemma StepConnect(cfg: Config)
    requires cfg.retransmit
    ensures Step(cfg, Init, Connect(1, [], [], true, 0), CONNECTED)
  {
  }

  lemma StepReadAndLose(cfg: Config, s: System)
    requires s == CONNECTED.(side := Retrying(0, 0).side, down := [Publish(1, 2, FIRST, false)], issued := 1,
                            sent := {0})
    ensures var t := s.(client := Client({1}, [], [0]), down := [], up := [PubRec(1, 0)]);
            Step(cfg, s, ClientReads, t) && Step(cfg, t, LinkLost(0, 0), Retrying(0, 0))
  {
  }

  /** With the link down, retry passes only count up, until one gives the delivery up. */
  lemma {:induction false} ReachAbandoned(cfg: Config, at: int, retries: nat) returns (end: int)
    requires cfg.retransmit && Reach(cfg, Retrying(at, retries), at)
    ensures Reach(cfg, ABANDONED, end)
    decreases cfg.maxRetries - retries
  {
    var s := Retrying(at, retries);
    var now := at + if cfg.retryInterval > 0 then cfg.retryInterval else 0;
    var a := RetryTick([1], now);
    assert Enumerates([1], s.side.value.engine.Keys);
    var t := Next(cfg, s, a);
    assert FirstSends(Written(cfg, s, a)) == {};
    GiveUpsExact(cfg, s.side.value.sess, s.side.value.engine, [1], now);
    assert GiveUps(cfg, s.side.value.sess, s.side.value.engine, [], now) == s.side.value.sess;
    if retries >= cfg.maxRetries {
      assert t.side.value.engine == map[];
      assert t.side.value.sess.inflight == map[];
      ReachStep(cfg, s, a, ABANDONED, at, now);
      end := now;
    } else {
      assert t.side.value.engine == map[1 := Tracked(2, FIRST, false, now, retries + 1)];
      ReachStep(cfg, s, a, Retrying(now, retries + 1), at, now);
      end := ReachAbandoned(cfg, now, retries + 1);
    }
  }

  lemma StepPubRec(cfg: Config, s: System, now: int)
    requires s.link && s.side == Some(Sending(SECOND, now, 0, false)) && s.up == [PubRec(1, 0)] && s.down == []
    ensures Step(cfg, s, BrokerReads(now),
        s.(side := Some(Sending(SECOND, now, 0, true)), up := [], down := [PubRel(1)]))
  {
    var t := Sending(SECOND, now, 0, true);
    assert MarkPubRel(s.side.value.sess, 1).inflight == t.sess.inflight;
    assert AckPubRec(s.side.value.engine, 1).0 == t.engine;
    assert FirstSends([PubRel(1)]) == {};
  }

  lemma StepPubComp(cfg: Config, s: System, now: int)
    requires s.link && s.side == Some(Sending(SECOND, now, 0, true)) && s.up == [PubComp(1)] && s.down == []
    ensures Step(cfg, s, BrokerReads(now), s.(side := Some(Side(Session(map[], 2, 0, 1, []), map[])), up := []))
  {
    assert Release(s.side.value, 1) == Side(Session(map[], 2, 0, 1, []), map[]);
    assert FirstSends([]) == {};
  }

  lemma StepSuppressed(cfg: Config, s: System)
    requires s.link && s.up == [] && s.client == Client({1}, [], [0]) && s.down == [Publish(1, 2, SECOND, false)]
    requires |Records(s)| < MAX_ID
    ensures Step(cfg, s, ClientReads, s.(down := [], up := [PubRec(1, 0)]))
  {
  }

  lemma StepForgotten(cfg: Config, s: System)
    requires s.link && s.up == [] && s.client == Client({1}, [], [0]) && s.down == [PubRel(1)] && |Records(s)| < MAX_ID
    ensures Step(cfg, s, ClientReads, s.(down := [], up := [PubComp(1)], client := Client({}, [], [0])))
  {
  }

  /** The handshake of a suppressed message runs to its end. */
  lemma ReachLostFrom(cfg: Config, s7: System, now: int)
    requires Reach(cfg, s7, now) && s7.link && s7.up == [] && s7.client == Client({1}, [], [0])
    requires s7.side == Some(Sending(SECOND, now, 0, false)) && s7.down == [Publish(1, 2, SECOND, false)]
    ensures Reach(cfg, s7.(side := Some(Side(Session(map[], 2, 0, 1, []), map[])), down := [],
                           client := Client({}, [], [0])), now)
  {
    var s8 := s7.(down := [], up := [PubRec(1, 0)]);
    StepSuppressed(cfg, s7);
    ReachStep(cfg, s7, ClientReads, s8, now, now);
    StepPubRec(cfg, s8, now);
    var s9 := s7.(side := Some(Sending(SECOND, now, 0, true)), down := [PubRel(1)]);
    ReachStep(cfg, s8, BrokerReads(now), s9, now, now);
    var s10 := s9.(down := [], up := [PubComp(1)], client := Client({}, [], [0]));
    StepForgotten(cfg, s9);
    ReachStep(cfg, s9, ClientReads, s10, now, now);
    StepPubComp(cfg, s10, now);
    var s11 := s10.(side := Some(Side(Session(map[], 2, 0, 1, []), map[])), up := []);
    ReachStep(cfg, s10, BrokerReads(now), s11, now, now);
  }

  /** After the resume the counter starts over at 1, which the client still holds as a duplicate. */
  lemma ReachLost(cfg: Config)
    requires cfg.retransmit
    ensures exists s, now :: Reach(cfg, s, now) && Lost(s, 1)
  {
    ReachRetrying(cfg);
    var now := ReachAbandoned(cfg, 0, 0);
    var s5 := ABANDONED.(side := None, store := Some(map[]));
    ReachStep(cfg, ABANDONED, Disconnect(true, 0, 0), s5, now, now);
    var s6 := s5.(side := Some(FreshSide(1)), link := true);
    ReachStep(cfg, s5, Connect(1, [], [], true, now), s6, now, now);
    StepSend(cfg, s6, now);
    var s7 := s6.(side := Some(Sending(SECOND, now, 0, false)), down := [Publish(1, 2, SECOND, false)], issued := 2,
                  sent := {0, 1});
    ReachStep(cfg, s6, Send(now), s7, now, now);
    ReachLostFrom(cfg, s7, now);
    var s11 := s7.(side := Some(Side(Session(map[], 2, 0, 1, []), map[])), down := [], client := Client({}, [], [0]));
    assert Lost(s11, 1);
  }

  /** No run of a configuration loses a message if and only if it does not retransmit in connection. */
  lemma LosslessIffNoRetransmit(cfg: Config)
    ensures (forall s, n, now :: Reach(cfg, s, now) ==> !Lost(s, n)) <==> !cfg.retransmit
  {
    if cfg.retransmit {
      ReachLost(cfg);
    } else {
      forall s, n, now | Reach(cfg, s, now) ensures !Lost(s, n) {
        var trace, acts :| IsRun(cfg, trace, acts) && trace[|acts|] == s && InTime(acts, now);
        RunTokens(cfg, trace, acts, |acts|);
      }
    }
  }
}
