/** The objects that carry outbound delivery in the broker, updated in place and proved against the
functions of module `Outbound`. Ranging over a Go map is a loop over its keys in an arbitrary order,
reported as a ghost result. */
module OutboundBroker {
  import opened Outbound

  class ClientSession {
    var inflight: map<PacketId, InflightMsg>
    var packetIdSeq: PacketId
    var outboundUnacked: nat
    var outboundWindow: nat
    var outboundQueue: seq<Offer>

    ghost function Value(): Session
      reads this
    {
      Session(inflight, packetIdSeq, outboundUnacked, outboundWindow, outboundQueue)
    }

    constructor (window: nat)
      ensures Value() == FreshSide(window).sess
    {
      inflight, packetIdSeq, outboundUnacked, outboundWindow, outboundQueue := map[], 1, 0, window, [];
    }

    method NextPacketID() returns (id: PacketId)
      modifies this`packetIdSeq
      ensures (id, packetIdSeq) == NextId(old(Value()))
      ensures |inflight| < MAX_ID ==> id !in inflight
    {
      if |inflight| < MAX_ID {
        NextIdUnused(Value());
      }
      var attempts := 0;
      while attempts < MAX_ID
        invariant 0 <= attempts <= MAX_ID
        invariant FindId(inflight.Keys, packetIdSeq, attempts) == NextId(old(Value()))
      {
        id := packetIdSeq;
        packetIdSeq := Succ(packetIdSeq);
        if id !in inflight {
          return;
        }
        attempts := attempts + 1;
      }
      id := packetIdSeq;
      packetIdSeq := Succ(packetIdSeq);
    }

    method AddInflight(id: PacketId, msg: InflightMsg)
      modifies this`inflight
      ensures inflight == old(inflight)[id := msg]
    {
      inflight := inflight[id := msg];
    }

    method RemoveInflight(id: PacketId) returns (found: bool)
      modifies this`inflight
      ensures found == (id in old(inflight)) && inflight == old(inflight) - {id}
    {
      found := id in inflight;
      inflight := inflight - {id};
    }

    method MarkInflightPubRel(id: PacketId) returns (marked: bool)
      modifies this`inflight
      ensures Value() == MarkPubRel(old(Value()), id)
      ensures marked == (id in old(inflight) && old(inflight)[id].qos == 2)
    {
      if id !in inflight || inflight[id].qos != 2 {
        return false;
      }
      inflight := inflight[id := inflight[id].(pendingPubRel := true)];
      marked := true;
    }

    method DecOutboundUnacked()
      modifies this`outboundUnacked
      ensures outboundUnacked == Dec(old(outboundUnacked))
    {
      if outboundUnacked > 0 {
        outboundUnacked := outboundUnacked - 1;
      }
    }

    method BufferOutbound(o: Offer) returns (ok: bool)
      modifies this`outboundQueue
      ensures ok == (|old(outboundQueue)| < MAX_BUFFERED)
      ensures outboundQueue == if ok then old(outboundQueue) + [o] else old(outboundQueue)
    {
      if |outboundQueue| >= MAX_BUFFERED {
        return false;
      }
      outboundQueue := outboundQueue + [o];
      ok := true;
    }
  }

  class QoSEngine {
    const cfg: Config
    var table: Engine

    constructor (cfg: Config)
      ensures this.cfg == cfg && table == map[]
    {
      this.cfg, table := cfg, map[];
    }

    method TrackOutbound(id: PacketId, qos: QoS, msg: Message, now: int) returns (full: bool)
      modifies this`table
      ensures table == Track(cfg, old(table), id, qos, msg, now)
      ensures full == (cfg.maxInflight > 0 && |old(table)| >= cfg.maxInflight)
    {
      if cfg.maxInflight > 0 && |table| >= cfg.maxInflight {
        return true;
      }
      table := table[id := Tracked(qos, msg, false, now, 0)];
      full := false;
    }

    method TrackAwaitingPubComp(id: PacketId, msg: Message, now: int)
      modifies this`table
      ensures table == Retrack(cfg, old(table), id, InflightMsg(2, msg, true), now)
    {
      var full := TrackOutbound(id, 2, msg, now);
      if !full {
        table := table[id := table[id].(acked := true)];
      }
    }

    method AckPubRec(id: PacketId) returns (sendPubRel: bool)
      modifies this`table
      ensures table == Outbound.AckPubRec(old(table), id).0 && sendPubRel == (id in old(table))
    {
      sendPubRel := id in table;
      if sendPubRel {
        table := table[id := table[id].(acked := true)];
      }
    }

    /** The locked half of doRetry: age the table, and list what to abandon and what to send again. */
    method ScanForRetry(now: int)
      returns (toRetry: seq<(PacketId, Tracked)>, toReport: seq<PacketId>, ghost order: seq<PacketId>)
      modifies this`table
      ensures Enumerates(order, old(table).Keys)
      ensures table == RetryEngine(cfg, old(table), now)
      ensures toReport == Reports(cfg, old(table), order, now)
      ensures toRetry == Retries(cfg, old(table), order, now)
    {
      var before, keys := table, table.Keys;
      order, toRetry, toReport := [], [], [];
      while keys != {}
        invariant keys <= before.Keys && before == old(table)
        invariant Enumerates(order, before.Keys - keys)
        invariant Aged(cfg, before, keys, table, now)
        invariant toReport == Reports(cfg, before, order, now)
        invariant toRetry == Retries(cfg, before, order, now)
        decreases keys
      {
        var id :| id in keys;
        var msg := before[id];
        AgedStep(cfg, before, keys, table, id, now);
        EnumerateMore(order, before.Keys, keys, id);
        VisitOne(cfg, before, order, id, now);
        if now - msg.sentAt >= cfg.retryInterval {
          if msg.retries >= cfg.maxRetries {
            table := table - {id};
            toReport := toReport + [id];
          } else {
            msg := msg.(sentAt := now, retries := msg.retries + 1);
            toRetry := toRetry + [(id, msg)];
            table := table[id := msg];
          }
        }
        keys := keys - {id};
        order := order + [id];
      }
      assert table == RetryEngine(cfg, before, now);
    }
  }

  /** The table when the pass has still to visit `keys`. */
  ghost predicate Aged(cfg: Config, before: Engine, keys: set<PacketId>, table: Engine, now: int) {
    && (forall id :: id in table <==> id in before && (id in keys || !GivenUp(cfg, before[id], now)))
    && (forall id :: id in table ==> table[id] == if id in keys then before[id] else RetryEngine(cfg, before, now)[id])
  }

  lemma AgedStep(cfg: Config, before: Engine, keys: set<PacketId>, table: Engine, id: PacketId, now: int)
    requires Aged(cfg, before, keys, table, now) && id in keys && keys <= before.Keys
    ensures GivenUp(cfg, before[id], now) ==> Aged(cfg, before, keys - {id}, table - {id}, now)
    ensures Retried(cfg, before[id], now) ==>
              Aged(cfg, before, keys - {id},
                table[id := before[id].(sentAt := now, retries := before[id].retries + 1)], now)
    ensures !Due(cfg, before[id], now) ==> Aged(cfg, before, keys - {id}, table, now)
  {
  }

  /** One more entry visited: what it adds to each list. */
  lemma VisitOne(cfg: Config, engine: Engine, order: seq<PacketId>, id: PacketId, now: int)
    requires id in engine
    ensures Reports(cfg, engine, order + [id], now)
         == if GivenUp(cfg, engine[id], now) then Reports(cfg, engine, order, now) + [id]
           else Reports(cfg, engine, order, now)
    ensures Retries(cfg, engine, order + [id], now)
         == if Retried(cfg, engine[id], now)
            then Retries(cfg, engine, order, now)
                 + [(id, engine[id].(sentAt := now, retries := engine[id].retries + 1))]
            else Retries(cfg, engine, order, now)
  {
    assert (order + [id])[..|order|] == order;
  }

  lemma EnumerateMore<T>(order: seq<T>, all: set<T>, keys: set<T>, x: T)
    requires Enumerates(order, all - keys) && x in keys && x in all
    ensures Enumerates(order + [x], all - (keys - {x}))
  {
  }

  /** The identifiers a retry pass abandons, in the order the table was ranged over. */
  function Reports(cfg: Config, engine: Engine, order: seq<PacketId>, now: int): seq<PacketId>
    decreases |order|
  {
    if order == [] then []
    else
      var id := order[|order| - 1];
      Reports(cfg, engine, order[..|order| - 1], now)
      + if id in engine && GivenUp(cfg, engine[id], now) then [id] else []
  }

  /** The copies a retry pass sends again. */
  function Retries(cfg: Config, engine: Engine, order: seq<PacketId>, now: int): seq<(PacketId, Tracked)>
    decreases |order|
  {
    if order == [] then []
    else
      var id := order[|order| - 1];
      Retries(cfg, engine, order[..|order| - 1], now)
      + if id in engine && Retried(cfg, engine[id], now)
        then [(id, engine[id].(sentAt := now, retries := engine[id].retries + 1))] else []
  }

  function GiveUpEach(sess: Session, ids: seq<PacketId>): Session
    decreases |ids|
  {
    if ids == [] then sess
    else
      var id, rest := ids[|ids| - 1], GiveUpEach(sess, ids[..|ids| - 1]);
      if id in rest.inflight then rest.(inflight := rest.inflight - {id}, unacked := Dec(rest.unacked)) else rest
  }

  function SendAgain(sess: Session, item: (PacketId, Tracked)): seq<Packet> {
    if item.1.qos == 2 && item.1.acked then [PubRel(item.0)] else Republish(sess, item.0, item.1.qos)
  }

  function SendEach(sess: Session, items: seq<(PacketId, Tracked)>): seq<Packet>
    decreases |items|
  {
    if items == [] then [] else SendEach(sess, items[..|items| - 1]) + SendAgain(sess, items[|items| - 1])
  }

  lemma {:induction false} GiveUpsByList(cfg: Config, sess: Session, engine: Engine, order: seq<PacketId>, now: int)
    ensures GiveUpEach(sess, Reports(cfg, engine, order, now)) == GiveUps(cfg, sess, engine, order, now)
    decreases |order|
  {
    if order != [] {
      var init, id := order[..|order| - 1], order[|order| - 1];
      GiveUpsByList(cfg, sess, engine, init, now);
      var ids := Reports(cfg, engine, init, now);
      assert (ids + [id])[..|ids|] == ids && ids + [] == ids;
    }
  }

  lemma {:induction false} RetrySendsByList(cfg: Config, sess: Session, engine: Engine, order: seq<PacketId>, now: int)
    ensures SendEach(sess, Retries(cfg, engine, order, now)) == RetrySends(cfg, sess, engine, order, now)
    decreases |order|
  {
    if order != [] {
      var init, id := order[..|order| - 1], order[|order| - 1];
      RetrySendsByList(cfg, sess, engine, init, now);
      var items := Retries(cfg, engine, init, now);
      if id in engine && Retried(cfg, engine[id], now) {
        var item := (id, engine[id].(sentAt := now, retries := engine[id].retries + 1));
        assert (items + [item])[..|items|] == items;
      } else {
        assert items + [] == items;
      }
    }
  }

  class Broker {
    const sess: ClientSession
    const qos: QoSEngine
    /** Everything written to the client's connection. */
    var written: seq<Packet>

    constructor (window: nat, cfg: Config)
      ensures fresh(sess) && fresh(qos) && State() == FreshSide(window) && qos.cfg == cfg && written == []
    {
      sess := new ClientSession(window);
      qos := new QoSEngine(cfg);
      written := [];
    }

    ghost function State(): Side
      reads sess, qos
    {
      Side(sess.Value(), qos.table)
    }

    ghost function After(out: (Side, seq<Packet>), was: seq<Packet>): (Side, seq<Packet>) {
      (out.0, was + out.1)
    }

    method WritePacket(p: Packet)
      modifies this`written
      ensures written == old(written) + [p]
    {
      written := written + [p];
    }

    method DoDeliver(o: Offer, now: int)
      modifies this`written, sess, qos
      ensures (State(), written) == After(Deliver(qos.cfg, old(State()), o, now), old(written))
    {
      assert written + [] == written;
      if o.expiresAt != 0 && now > o.expiresAt {
        return;
      }
      if sess.outboundUnacked >= sess.outboundWindow {
        var _ := sess.BufferOutbound(o);
        return;
      }
      var id := sess.NextPacketID();
      sess.AddInflight(id, InflightMsg(o.qos, o.msg, false));
      var _ := qos.TrackOutbound(id, o.qos, o.msg, now);
      sess.outboundUnacked := sess.outboundUnacked + 1;
      WritePacket(Publish(id, o.qos, o.msg, false));
    }

    method FlushBufferedOutbound(now: int)
      modifies this`written, sess, qos
      ensures (State(), written) == After(Flush(qos.cfg, old(State()), now), old(written))
    {
      while |sess.outboundQueue| > 0 && sess.outboundUnacked < sess.outboundWindow
        invariant After(Flush(qos.cfg, State(), now), written) == After(Flush(qos.cfg, old(State()), now), old(written))
        decreases |sess.outboundQueue|
      {
        ghost var s, was := State(), written;
        var o := sess.outboundQueue[0];
        sess.outboundQueue := sess.outboundQueue[1..];
        ghost var popped := State();
        DoDeliver(o, now);
        ghost var (sent, out) := Deliver(qos.cfg, popped, o, now);
        assert was + (out + Flush(qos.cfg, sent, now).1) == was + out + Flush(qos.cfg, sent, now).1;
      }
      assert written + [] == written;
    }

    /** The common end of handlePubAck, handlePubComp and dropRejectedDelivery. */
    method FinishDelivery(id: PacketId, now: int)
      modifies this`written, sess, qos
      ensures (State(), written) == After(Complete(qos.cfg, old(State()), id, now), old(written))
    {
      qos.table := qos.table - {id};
      var found := sess.RemoveInflight(id);
      if found {
        sess.DecOutboundUnacked();
      } else {
        assert old(sess.inflight) - {id} == old(sess.inflight);
      }
      FlushBufferedOutbound(now);
    }

    method HandlePubAck(id: PacketId, now: int)
      modifies this`written, sess, qos
      ensures (State(), written) == After(HandleAck(qos.cfg, old(State()), PubAck(id), now), old(written))
    {
      FinishDelivery(id, now);
    }

    method HandlePubRec(id: PacketId, reason: int, now: int)
      modifies this`written, sess, qos
      ensures (State(), written) == After(HandleAck(qos.cfg, old(State()), PubRec(id, reason), now), old(written))
    {
      if reason >= FAILURE_BASE {
        FinishDelivery(id, now);
        return;
      }
      assert written + [] == written;
      var _ := sess.MarkInflightPubRel(id);
      var send := qos.AckPubRec(id);
      if send {
        WritePacket(PubRel(id));
      }
    }

    method HandlePubComp(id: PacketId, now: int)
      modifies this`written, sess, qos
      ensures (State(), written) == After(HandleAck(qos.cfg, old(State()), PubComp(id), now), old(written))
    {
      FinishDelivery(id, now);
    }

    /** One tick of the retry loop for this client. */
    method DoRetry(now: int) returns (ghost order: seq<PacketId>)
      modifies this`written, sess, qos
      ensures Enumerates(order, old(qos.table).Keys)
      ensures (State(), written) == After(Retry(qos.cfg, old(State()), order, now), old(written))
    {
      ghost var before := qos.table;
      if !qos.cfg.retransmit {
        order := AnyOrder(before.Keys);
        assert written + [] == written;
        return;
      }
      var toRetry, toReport;
      toRetry, toReport, order := qos.ScanForRetry(now);
      AbandonAll(toReport);
      SendAllAgain(toRetry);
      GiveUpsByList(qos.cfg, old(sess.Value()), before, order, now);
      RetrySendsByList(qos.cfg, sess.Value(), before, order, now);
    }

    method AbandonAll(ids: seq<PacketId>)
      modifies sess
      ensures sess.Value() == GiveUpEach(old(sess.Value()), ids)
    {
      for i := 0 to |ids|
        invariant sess.Value() == GiveUpEach(old(sess.Value()), ids[..i])
      {
        assert ids[..i + 1][..i] == ids[..i];
        ghost var was := sess.Value();
        var found := sess.RemoveInflight(ids[i]);
        if found {
          sess.DecOutboundUnacked();
        } else {
          assert was.inflight - {ids[i]} == was.inflight;
        }
      }
      assert ids[..|ids|] == ids;
    }

    method SendAllAgain(items: seq<(PacketId, Tracked)>)
      modifies this`written
      ensures written == old(written) + SendEach(sess.Value(), items)
    {
      for i := 0 to |items|
        invariant written == old(written) + SendEach(sess.Value(), items[..i])
      {
        assert items[..i + 1][..i] == items[..i];
        var (id, msg) := items[i];
        if msg.qos == 2 && msg.acked {
          WritePacket(PubRel(id));
        } else if id in sess.inflight && sess.inflight[id].qos == msg.qos {
          WritePacket(Publish(id, sess.inflight[id].qos, sess.inflight[id].msg, true));
        }
      }
      assert items[..|items|] == items;
    }

    /** Re-register a restored session's records with the engine, whose table is empty. */
    method RestoreSessionInflight(now: int) returns (ghost order: seq<PacketId>)
      requires qos.table == map[]
      modifies qos
      ensures Enumerates(order, sess.inflight.Keys)
      ensures qos.table == RestoreEngine(qos.cfg, sess.inflight, order, now)
    {
      var keys := sess.inflight.Keys;
      order := [];
      while keys != {}
        invariant keys <= sess.inflight.Keys
        invariant Enumerates(order, sess.inflight.Keys - keys)
        invariant qos.table == RestoreEngine(qos.cfg, sess.inflight, order, now)
        decreases keys
      {
        var id :| id in keys;
        var msg := sess.inflight[id];
        ghost var grown := order + [id];
        assert grown[..|order|] == order;
        if msg.qos == 2 && msg.pendingPubRel {
          qos.TrackAwaitingPubComp(id, msg.msg, now);
        } else {
          var _ := qos.TrackOutbound(id, msg.qos, msg.msg, now);
        }
        keys := keys - {id};
        order := grown;
      }
    }

    method ResendSessionInflight() returns (ghost order: seq<PacketId>)
      modifies this`written
      ensures Enumerates(order, sess.inflight.Keys)
      ensures written == old(written) + Resend(sess.inflight, order)
    {
      var keys := sess.inflight.Keys;
      order := [];
      while keys != {}
        invariant keys <= sess.inflight.Keys
        invariant Enumerates(order, sess.inflight.Keys - keys)
        invariant written == old(written) + Resend(sess.inflight, order)
        decreases keys
      {
        var id :| id in keys;
        var msg := sess.inflight[id];
        ghost var grown := order + [id];
        assert grown[..|order|] == order;
        if msg.qos == 2 && msg.pendingPubRel {
          WritePacket(PubRel(id));
        } else {
          WritePacket(Publish(id, msg.qos, msg.msg, true));
        }
        keys := keys - {id};
        order := grown;
      }
    }
  }
}

/** The receiving client's duplicate table, updated in place. */
module ReceivingClient {
  import opened Outbound
  import opened Delivery

  class MqttClient {
    var receivedQoS2: set<PacketId>
    var handed1: seq<nat>
    var handed2: seq<nat>
    /** Acknowledgements written on the connection. */
    var acks: seq<Packet>

    ghost function Value(): Client
      reads this
    {
      Client(receivedQoS2, handed1, handed2)
    }

    method HandlePublish(id: PacketId, qos: QoS, msg: Message, dup: bool)
      modifies this
      ensures var (c, out) := ClientHandle(old(Value()), Publish(id, qos, msg, dup));
              Value() == c && acks == old(acks) + out
    {
      if qos == 2 {
        if id in receivedQoS2 {
          acks := acks + [PubRec(id, 0)];
          return;
        }
        receivedQoS2 := receivedQoS2 + {id};
      }
      if qos == 1 {
        handed1 := handed1 + [msg.serial];
        acks := acks + [PubAck(id)];
      }
      if qos == 2 {
        handed2 := handed2 + [msg.serial];
        acks := acks + [PubRec(id, 0)];
      }
    }

    method HandlePubRel(id: PacketId)
      modifies this
      ensures var (c, out) := ClientHandle(old(Value()), PubRel(id)); Value() == c && acks == old(acks) + out
    {
      receivedQoS2 := receivedQoS2 - {id};
      acks := acks + [PubComp(id)];
    }

    /** The duplicate table survives a reconnect exactly when the broker resumed the session. */
    method Connected(cleanSession: bool, sessionPresent: bool)
      modifies this`receivedQoS2
      ensures receivedQoS2 == if cleanSession || !sessionPresent then {} else old(receivedQoS2)
    {
      if cleanSession {
        receivedQoS2 := {};
      }
      if !sessionPresent {
        receivedQoS2 := {};
      }
    }
  }
}
