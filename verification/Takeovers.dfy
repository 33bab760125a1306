/** A clean connect that takes over a live session leaves the engine's table behind. When the table is full, a delivery
of the new session is refused by it, and an entry of the old session answers for it under the same identifier. This is
the one way in which tables that agree come apart, and in which a message is handed over twice. */
module Takeovers {
  import opened Basics
  import opened Outbound
  import opened Delivery

  ghost predicate Alike(engine: Engine) {
    forall id :: id in engine ==> engine[id].sentAt == 0 && engine[id].retries == 0
  }

  /** A step of a run, at the same time or at the time of the action. */
  lemma Go(cfg: Config, s: System, a: Action, now: int, later: int)
    requires Reach(cfg, s, now) && Enabled(s, a) && Admitted(cfg, a) && |Records(Next(cfg, s, a))| < MAX_ID
    requires now <= later && (Timed(a) ==> a.now == later)
    ensures Reach(cfg, Next(cfg, s, a), later)
  {
    ReachStep(cfg, s, a, Next(cfg, s, a), now, later);
  }

  function Send(qos: QoS, now: int): Action {
    Accept(qos, "t", [], false, 0, now)
  }

  // ---------------------------------------------------------------- the old session

  /** A session with nothing outstanding whose next identifier is `i`. */
  ghost predicate Blank(s: System, i: PacketId) {
    && s.side == Some(Side(Session(map[], i, 0, MAX_ID, []), map[]))
    && s.link && s.down == [] && s.up == [] && s.client.received == {}
  }

  /** One message out, tracked, and nothing else. */
  function Sending(i: PacketId, qos: QoS, m: Message, acked: bool): Side {
    Side(Session(map[i := InflightMsg(qos, m, acked)], Succ(i), 1, MAX_ID, []), map[i := Tracked(qos, m, acked, 0, 0)])
  }

  lemma SendFirst(cfg: Config, s: System, i: PacketId, qos: QoS)
    requires Blank(s, i)
    ensures var (t, m) := (Next(cfg, s, Send(qos, 0)), Message(s.issued, "t", [], false));
            && t.side == Some(Sending(i, qos, m, false)) && t.down == [Publish(i, qos, m, false)]
            && t.link && t.up == [] && t.client == s.client && t.retransmit == s.retransmit
  {
    assert NextId(s.side.value.sess) == (i, Succ(i));
  }

  lemma Answered(cfg: Config, s: System, i: PacketId, m: Message, qos: QoS)
    requires s.side == Some(Sending(i, qos, m, false)) && s.link && s.down == [Publish(i, qos, m, false)] && s.up == []
    requires s.client.received == {}
    ensures var t := Next(cfg, s, ClientReads);
            && t.side == s.side && t.link && t.down == [] && t.retransmit == s.retransmit
            && t.up == [if qos == 1 then PubAck(i) else PubRec(i, 0)] && (qos == 1 ==> t.client.received == {})
  {
  }

  /** A QoS 1 message comes and goes, which uses up an identifier. */
  lemma Released(cfg: Config, s: System, i: PacketId, m: Message)
    requires s.side == Some(Sending(i, 1, m, false)) && s.link && s.down == [] && s.up == [PubAck(i)]
    requires s.client.received == {}
    ensures var t := Next(cfg, s, BrokerReads(0)); Blank(t, Succ(i)) && t.retransmit == s.retransmit
  {
    assert Release(s.side.value, i) == Side(Session(map[], Succ(i), 0, MAX_ID, []), map[]);
  }

  lemma Marked(cfg: Config, s: System, i: PacketId, m: Message)
    requires s.side == Some(Sending(i, 2, m, false)) && s.link && s.down == [] && s.up == [PubRec(i, 0)]
    ensures var t := Next(cfg, s, BrokerReads(0));
            t.side == Some(Sending(i, 2, m, true)) && t.link && t.retransmit == s.retransmit
  {
    assert MarkPubRel(s.side.value.sess, i).inflight == Sending(i, 2, m, true).sess.inflight;
    assert AckPubRec(s.side.value.engine, i).0 == Sending(i, 2, m, true).engine;
  }

  lemma SmallRecords(i: PacketId, qos: QoS, m: Message, acked: bool)
    ensures |Sending(i, qos, m, acked).sess.inflight| < MAX_ID
  {
  }

  lemma ReachFirst(cfg: Config, policy: bool) returns (s: System)
    requires policy ==> cfg.retransmit
    ensures Reach(cfg, s, 0) && Blank(s, 1) && s.retransmit == policy
  {
    ReachInit(cfg);
    var a := Connect(MAX_ID, [], [], policy, 0);
    s := Next(cfg, Init, a);
    Go(cfg, Init, a, 0, 0);
  }

  lemma ReachSecond(cfg: Config, policy: bool) returns (s: System)
    requires policy ==> cfg.retransmit
    ensures Reach(cfg, s, 0) && Blank(s, 2) && s.retransmit == policy
  {
    var s0 := ReachFirst(cfg, policy);
    var m := Message(s0.issued, "t", [], false);
    SmallRecords(1, 1, m, false);
    SendFirst(cfg, s0, 1, 1);
    Go(cfg, s0, Send(1, 0), 0, 0);
    var s1 := Next(cfg, s0, Send(1, 0));
    Answered(cfg, s1, 1, m, 1);
    Go(cfg, s1, ClientReads, 0, 0);
    var s2 := Next(cfg, s1, ClientReads);
    Released(cfg, s2, 1, m);
    s := Next(cfg, s2, BrokerReads(0));
    Go(cfg, s2, BrokerReads(0), 0, 0);
  }

  /** The engine tracks `k` deliveries from `i` on, the first of them past its PUBREC, with the link down. */
  ghost predicate Filling(s: System, i: PacketId, k: nat) {
    && s.side.Some? && !s.link && s.down == [] && s.up == []
    && Tracks(s.side.value, i, k)
  }

  ghost predicate Tracks(s: Side, i: PacketId, k: nat) {
    && 0 < k && i + k - 1 <= MAX_ID
    && (forall id: PacketId :: id in s.sess.inflight <==> i <= id < i + k)
    && s.sess.inflight.Keys == s.engine.Keys && |s.engine| == k == s.sess.unacked && s.sess.window == MAX_ID
    && s.sess.nextId == Succ(i + k - 1)
    && s.engine[i].qos == 2 && s.engine[i].acked && Alike(s.engine)
  }

  lemma SendingTracks(i: PacketId, m: Message)
    ensures Tracks(Sending(i, 2, m, true), i, 1)
  {
  }

  lemma ReachOne(cfg: Config, policy: bool, i: PacketId, s0: System) returns (s: System)
    requires Reach(cfg, s0, 0) && Blank(s0, i) && s0.retransmit == policy
    ensures Reach(cfg, s, 0) && Filling(s, i, 1)
  {
    var m := Message(s0.issued, "t", [], false);
    SmallRecords(i, 2, m, false);
    SmallRecords(i, 2, m, true);
    SendFirst(cfg, s0, i, 2);
    Go(cfg, s0, Send(2, 0), 0, 0);
    var s1 := Next(cfg, s0, Send(2, 0));
    Answered(cfg, s1, i, m, 2);
    Go(cfg, s1, ClientReads, 0, 0);
    var s2 := Next(cfg, s1, ClientReads);
    Marked(cfg, s2, i, m);
    Go(cfg, s2, BrokerReads(0), 0, 0);
    var s3 := Next(cfg, s2, BrokerReads(0));
    s := Next(cfg, s3, LinkLost(0, 0));
    Go(cfg, s3, LinkLost(0, 0), 0, 0);
    SendingTracks(i, m);
  }

  lemma SendTracked(cfg: Config, s: Side, i: PacketId, k: nat, o: Offer)
    requires Tracks(s, i, k) && i + k <= MAX_ID && (cfg.maxInflight > 0 ==> k < cfg.maxInflight)
    ensures Tracks(SendNow(cfg, s, o, 0).0, i, k + 1) && |SendNow(cfg, s, o, 0).0.sess.inflight| == k + 1
  {
    var id: PacketId := i + k;
    assert NextId(s.sess) == (id, Succ(id));
    var t := SendNow(cfg, s, o, 0).0;
    assert t.engine.Keys == s.engine.Keys + {id} && |t.engine.Keys| == |s.engine.Keys| + 1;
    assert |t.sess.inflight.Keys| == |t.engine.Keys|;
  }

  lemma {:induction false} ReachFilled(cfg: Config, i: PacketId, s0: System, k: nat) returns (s: System)
    requires Reach(cfg, s0, 0) && Filling(s0, i, 1) && 0 < k < MAX_ID && i + k - 1 <= MAX_ID
    requires cfg.maxInflight > 0 ==> k <= cfg.maxInflight
    ensures Reach(cfg, s, 0) && Filling(s, i, k)
    decreases k
  {
    if k == 1 {
      s := s0;
    } else {
      var r := ReachFilled(cfg, i, s0, k - 1);
      var o := Offer(1, Message(r.issued, "t", [], false), 0);
      SendTracked(cfg, r.side.value, i, k - 1, o);
      s := Next(cfg, r, Send(1, 0));
      assert CanSend(r.side.value.sess);
      Go(cfg, r, Send(1, 0), 0, 0);
    }
  }

  // ---------------------------------------------------------------- the new one

  /** The next identifier of the session is one for which the full table holds an entry past its PUBREC. */
  ghost predicate Ready(cfg: Config, s: System, i: PacketId) {
    && s.side.Some? && s.link && s.down == [] && s.client.received == {}
    && var (sess, engine) := (s.side.value.sess, s.side.value.engine);
       && sess.nextId == i && i !in sess.inflight && sess.queue == [] && CanSend(sess) && |sess.inflight| <= 1
       && i in engine && engine[i].qos == 2 && engine[i].acked && Alike(engine)
       && 0 < cfg.maxInflight <= |engine|
  }

  /** A clean connect takes the session over, and the table stays. */
  lemma TakenOver(cfg: Config, s: System, i: PacketId, k: nat, policy: bool)
    requires Filling(s, i, k)
    ensures var t := Next(cfg, s, ConnectClean(MAX_ID, policy));
            && t.side == Some(Side(Session(map[], 1, 0, MAX_ID, []), s.side.value.engine))
            && t.link && t.down == [] && t.up == [] && t.client.received == {} && t.retransmit == policy
  {
  }

  /** One more message fills the table. */
  lemma LastPlace(cfg: Config, s: System, engine: Engine)
    requires s.side == Some(Side(Session(map[], 1, 0, MAX_ID, []), engine)) && s.link && s.down == []
    requires s.client.received == {} && 1 !in engine && |engine| + 1 == cfg.maxInflight
    requires 2 in engine && engine[2].qos == 2 && engine[2].acked && Alike(engine)
    ensures Ready(cfg, Next(cfg, Next(cfg, s, Send(1, 0)), ClientReads), 2)
    ensures var t := Next(cfg, s, Send(1, 0)); |Records(t)| <= 1 && t.down != [] && t.retransmit == s.retransmit
    ensures Next(cfg, Next(cfg, s, Send(1, 0)), ClientReads).retransmit == s.retransmit
  {
    assert NextId(s.side.value.sess) == (1, 2);
    var m := Message(s.issued, "t", [], false);
    var t := Next(cfg, s, Send(1, 0));
    assert t.side.value.engine == engine[1 := Tracked(1, m, false, 0, 0)];
    assert t.side.value.engine.Keys == engine.Keys + {1};
    assert t.down == [Publish(1, 1, m, false)];
    assert t.side.value.sess.inflight == map[1 := InflightMsg(1, m, false)];
  }

  lemma ReachReadySmall(cfg: Config, policy: bool) returns (s: System)
    requires (policy ==> cfg.retransmit) && 0 < cfg.maxInflight < MAX_ID
    ensures Reach(cfg, s, 0) && Ready(cfg, s, 1) && s.retransmit == policy
  {
    var s0 := ReachFirst(cfg, policy);
    var s1 := ReachOne(cfg, policy, 1, s0);
    var s2 := ReachFilled(cfg, 1, s1, cfg.maxInflight);
    TakenOver(cfg, s2, 1, cfg.maxInflight, policy);
    s := Next(cfg, s2, ConnectClean(MAX_ID, policy));
    Go(cfg, s2, ConnectClean(MAX_ID, policy), 0, 0);
  }

  lemma ReachReadyLast(cfg: Config, policy: bool) returns (s: System)
    requires (policy ==> cfg.retransmit) && cfg.maxInflight == MAX_ID
    ensures Reach(cfg, s, 0) && Ready(cfg, s, 2) && s.retransmit == policy
  {
    var s0 := ReachSecond(cfg, policy);
    var s1 := ReachOne(cfg, policy, 2, s0);
    var s2 := ReachFilled(cfg, 2, s1, MAX_ID - 1);
    s := ReachLastPlace(cfg, policy, s2);
  }

  lemma ReachLastPlace(cfg: Config, policy: bool, s2: System) returns (s: System)
    requires (policy ==> cfg.retransmit) && cfg.maxInflight == MAX_ID
    requires Reach(cfg, s2, 0) && Filling(s2, 2, MAX_ID - 1)
    ensures Reach(cfg, s, 0) && Ready(cfg, s, 2) && s.retransmit == policy
  {
    TakenOver(cfg, s2, 2, MAX_ID - 1, policy);
    var s3 := Next(cfg, s2, ConnectClean(MAX_ID, policy));
    Go(cfg, s2, ConnectClean(MAX_ID, policy), 0, 0);
    LastPlace(cfg, s3, s2.side.value.engine);
    var s4 := Next(cfg, s3, Send(1, 0));
    Go(cfg, s3, Send(1, 0), 0, 0);
    s := Next(cfg, s4, ClientReads);
    Go(cfg, s4, ClientReads, 0, 0);
  }

  lemma ReachReady(cfg: Config, policy: bool) returns (s: System, i: PacketId)
    requires (policy ==> cfg.retransmit) && !Unlimited(cfg)
    ensures Reach(cfg, s, 0) && Ready(cfg, s, i) && s.retransmit == policy
  {
    if cfg.maxInflight < MAX_ID {
      i := 1;
      s := ReachReadySmall(cfg, policy);
    } else {
      i := 2;
      s := ReachReadyLast(cfg, policy);
    }
  }

  /** The delivery is recorded, sent, and refused by the table. */
  ghost predicate Refused(s: System, i: PacketId, m: Message) {
    && s.side.Some? && s.link && |Records(s)| <= 2
    && i in Records(s) && Records(s)[i] == InflightMsg(2, m, false)
    && var engine := s.side.value.engine; i in engine && engine[i].qos == 2 && engine[i].acked && Alike(engine)
  }

  lemma IsRefused(cfg: Config, s: System, i: PacketId)
    requires Ready(cfg, s, i)
    ensures var (t, m) := (Next(cfg, s, Send(2, 0)), Message(s.issued, "t", [], false));
            && Refused(t, i, m) && t.down == [Publish(i, 2, m, false)] && t.client == s.client
            && t.retransmit == s.retransmit
  {
    assert NextId(s.side.value.sess) == (i, Succ(i));
  }

  /** What both tables hold under one identifier is one delivery in every run, takeovers included, if and only if the
  engine's table cannot be filled. */
  lemma AgreementIff(cfg: Config)
    ensures (forall s, now :: Reach(cfg, s, now) && s.side.Some? ==> Agrees(s.side.value)) <==> Unlimited(cfg)
  {
    if Unlimited(cfg) {
      forall s, now | Reach(cfg, s, now) && s.side.Some? ensures Agrees(s.side.value) {
        var trace, acts :| IsRun(cfg, trace, acts) && trace[|acts|] == s && InTime(acts, now);
        RunLinked(cfg, trace, acts, |acts|, false);
      }
    } else {
      var s, i := ReachReady(cfg, false);
      IsRefused(cfg, s, i);
      Go(cfg, s, Send(2, 0), 0, 0);
      var t := Next(cfg, s, Send(2, 0));
      assert Reach(cfg, t, 0) && !Agrees(t.side.value);
    }
  }

  // ---------------------------------------------------------------- handed over twice

  lemma {:induction false} FirstSent(cfg: Config, sess: Session, engine: Engine, order: seq<PacketId>, now: int,
                                     p: Packet)
    requires order != [] && RetrySend(cfg, sess, engine, order[0], now) == [p]
    ensures var out := RetrySends(cfg, sess, engine, order, now); out != [] && out[0] == p
    decreases |order|
  {
    if |order| > 1 {
      FirstSent(cfg, sess, engine, order[..|order| - 1], now, p);
    } else {
      assert order[..0] == [];
    }
  }

  lemma {:induction false} NoneGivenUp(cfg: Config, sess: Session, engine: Engine, order: seq<PacketId>, now: int)
    requires Alike(engine) && cfg.maxRetries > 0
    ensures GiveUps(cfg, sess, engine, order, now) == sess
    decreases |order|
  {
    if order != [] {
      NoneGivenUp(cfg, sess, engine, order[..|order| - 1], now);
    }
  }

  /** A pass answers for the refused delivery with the PUBREL of the old one. */
  lemma StalePubRel(cfg: Config, s: System, i: PacketId, m: Message, order: seq<PacketId>, now: int)
    requires Refused(s, i, m) && s.retransmit && s.down == [] && cfg.maxRetries > 0 && now >= cfg.retryInterval
    requires Enumerates(order, s.side.value.engine.Keys) && order[0] == i
    ensures var t := Next(cfg, s, RetryTick(order, now));
            && t.side.Some? && t.side.value.sess == s.side.value.sess && t.link && t.client == s.client
            && t.down != [] && t.down[0] == PubRel(i)
  {
    var c := Policy(cfg, s);
    NoneGivenUp(c, s.side.value.sess, s.side.value.engine, order, now);
    FirstSent(c, s.side.value.sess, s.side.value.engine, order, now, PubRel(i));
  }

  /** The resend that follows is no duplicate to the client any more. */
  lemma Repeated(cfg: Config, s: System, i: PacketId, m: Message, track: seq<PacketId>, order: seq<PacketId>, now: int)
    requires s.side.Some? && !s.link && i in Records(s) && Records(s)[i] == InflightMsg(2, m, false)
    requires s.client.received == {}
    requires Enumerates(track, Records(s).Keys) && Enumerates(order, Records(s).Keys) && order[0] == i
    ensures var t := Next(cfg, s, Connect(MAX_ID, track, order, true, now));
            && Records(t) == Records(s) && t.down != []
            && Next(cfg, t, ClientReads).client.handed2 == s.client.handed2 + [m.serial]
            && Records(Next(cfg, t, ClientReads)) == Records(s)
  {
    ResendExact(Records(s), order);
  }

  lemma ReachPubRel(cfg: Config, s0: System, i: PacketId, m: Message) returns (s: System, now: int)
    requires Reach(cfg, s0, 0) && Refused(s0, i, m) && s0.down == [Publish(i, 2, m, false)] && s0.client.received == {}
    requires s0.retransmit && cfg.maxRetries > 0
    ensures Reach(cfg, s, now) && s.side.Some? && !s.link && |Records(s)| <= 2
    ensures i in Records(s) && Records(s)[i] == InflightMsg(2, m, false)
    ensures s.client.received == {} && s.client.handed2 == s0.client.handed2 + [m.serial]
  {
    now := if cfg.retryInterval > 0 then cfg.retryInterval else 0;
    var s1 := Next(cfg, s0, ClientReads);
    Go(cfg, s0, ClientReads, 0, 0);
    var order := OrderFrom(s1.side.value.engine.Keys, i);
    StalePubRel(cfg, s1, i, m, order, now);
    var s2 := Next(cfg, s1, RetryTick(order, now));
    Go(cfg, s1, RetryTick(order, now), 0, now);
    var s3 := Next(cfg, s2, ClientReads);
    Go(cfg, s2, ClientReads, now, now);
    s := Next(cfg, s3, LinkLost(0, 0));
    Go(cfg, s3, LinkLost(0, 0), now, now);
  }

  lemma ReachTwice(cfg: Config)
    requires Hazard(cfg)
    ensures exists s, now :: Reach(cfg, s, now) && !NoRepeats(s.client.handed2)
  {
    var s0, i := ReachReady(cfg, true);
    var m := Message(s0.issued, "t", [], false);
    IsRefused(cfg, s0, i);
    var s1 := Next(cfg, s0, Send(2, 0));
    Go(cfg, s0, Send(2, 0), 0, 0);
    var s2, now := ReachPubRel(cfg, s1, i, m);
    var order := OrderFrom(Records(s2).Keys, i);
    var a := Connect(MAX_ID, order, order, true, now);
    Repeated(cfg, s2, i, m, order, order, now);
    var s3 := Next(cfg, s2, a);
    Go(cfg, s2, a, now, now);
    var s4 := Next(cfg, s3, ClientReads);
    Go(cfg, s3, ClientReads, now, now);
    var n := |s0.client.handed2|;
    assert s4.client.handed2 == s0.client.handed2 + [m.serial] + [m.serial];
    assert s4.client.handed2[n] == s4.client.handed2[n + 1];
  }

  /** Over every run, takeovers included, each QoS 2 message is handed over at most once if and only if a retry pass
  never resends anything or the engine's table cannot be filled. */
  lemma AtMostOnceIff(cfg: Config)
    ensures (forall s, now :: Reach(cfg, s, now) ==> NoRepeats(s.client.handed2)) <==> !Hazard(cfg)
  {
    if Hazard(cfg) {
      ReachTwice(cfg);
    } else {
      forall s, now | Reach(cfg, s, now) ensures NoRepeats(s.client.handed2) {
        var trace, acts :| IsRun(cfg, trace, acts) && trace[|acts|] == s && InTime(acts, now);
        RunStrict(cfg, trace, acts, |acts|);
      }
    }
  }
}
