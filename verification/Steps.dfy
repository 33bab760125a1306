/** Each outbound handler on its own: what it sends and what it leaves behind, said in terms of the records, the queue
and the clock. The theorems over runs say what no sequence of handlers can do; these say what each one does. */
module Steps {
  import opened Basics
  import opened Outbound
  import opened Delivery

  // ---------------------------------------------------------------- deliver

  /** With the window open an unexpired message leaves at once, not as a duplicate, under an identifier no other
  delivery holds, and is recorded under it. */
  lemma DeliverSends(cfg: Config, s: Side, o: Offer, now: int) returns (id: PacketId)
    requires s.sess.unacked < s.sess.window && |s.sess.inflight| < MAX_ID
    requires o.expiresAt == 0 || now <= o.expiresAt
    ensures id !in s.sess.inflight
    ensures Deliver(cfg, s, o, now).1 == [Publish(id, o.qos, o.msg, false)]
    ensures var t := Deliver(cfg, s, o, now).0;
            && t.sess.inflight == s.sess.inflight[id := InflightMsg(o.qos, o.msg, false)]
            && t.sess.unacked == s.sess.unacked + 1
            && t.sess.queue == s.sess.queue && t.sess.window == s.sess.window
            && (cfg.maxInflight <= 0 || |s.engine| < cfg.maxInflight ==>
                  t.engine == s.engine[id := Tracked(o.qos, o.msg, false, now, 0)])
  {
    NextIdUnused(s.sess);
    id := NextId(s.sess).0;
  }

  /** With the window closed it waits at the end of the queue, if there is room; with its deadline passed it is dropped.
  Neither sends anything or touches a record. */
  lemma DeliverWaits(cfg: Config, s: Side, o: Offer, now: int)
    requires s.sess.unacked >= s.sess.window || (o.expiresAt != 0 && now > o.expiresAt)
    ensures var late := o.expiresAt != 0 && now > o.expiresAt;
            var queue := if late || |s.sess.queue| >= 1000 then s.sess.queue else s.sess.queue + [o];
            Deliver(cfg, s, o, now) == (s.(sess := s.sess.(queue := queue)), [])
  {
    assert s.(sess := s.sess.(queue := s.sess.queue)) == s;
  }

  // ---------------------------------------------------------------- flush

  /** The offer, unless its deadline has passed. */
  function Kept(o: Offer, now: int): seq<Offer> {
    if o.expiresAt == 0 || now <= o.expiresAt then [o] else []
  }

  function Live(offers: seq<Offer>, now: int): seq<Offer> {
    if offers == [] then [] else Kept(offers[0], now) + Live(offers[1..], now)
  }

  /** These packets send these offers for the first time, in this order. */
  ghost predicate SendsInOrder(out: seq<Packet>, offers: seq<Offer>) {
    && |out| == |offers|
    && (forall i :: 0 <= i < |out| ==>
          out[i].Publish? && !out[i].dup && out[i].qos == offers[i].qos && out[i].msg == offers[i].msg)
  }

  /** One round of a flush: the head of the queue leaves, or is dropped. */
  lemma PopExact(cfg: Config, s: Side, now: int)
    requires s.sess.queue != [] && s.sess.unacked < s.sess.window
    ensures var o := s.sess.queue[0];
            var (t, out) := Deliver(cfg, s.(sess := s.sess.(queue := s.sess.queue[1..])), o, now);
            && SendsInOrder(out, Kept(o, now)) && t.sess.queue == s.sess.queue[1..]
            && t.sess.window == s.sess.window && t.sess.unacked == s.sess.unacked + |out|
  {
  }

  lemma Append(a: seq<Packet>, x: seq<Offer>, b: seq<Packet>, y: seq<Offer>)
    requires SendsInOrder(a, x) && SendsInOrder(b, y)
    ensures SendsInOrder(a + b, x + y)
  {
  }

  /** A flush takes a prefix of the queue and sends, in order, what in it has not expired; it stops only when the queue
  is empty or the window is full. */
  lemma {:induction false} FlushDrains(cfg: Config, s: Side, now: int) returns (k: nat)
    ensures var (t, out) := Flush(cfg, s, now);
            && k <= |s.sess.queue| && t.sess.queue == s.sess.queue[k..]
            && SendsInOrder(out, Live(s.sess.queue[..k], now))
            && t.sess.unacked == s.sess.unacked + |out| && t.sess.window == s.sess.window
            && (t.sess.queue == [] || t.sess.unacked >= t.sess.window)
    decreases |s.sess.queue|
  {
    if s.sess.queue == [] || !CanSend(s.sess) {
      k := 0;
    } else {
      var popped := s.(sess := s.sess.(queue := s.sess.queue[1..]));
      var (sent, out) := Deliver(cfg, popped, s.sess.queue[0], now);
      PopExact(cfg, s, now);
      var rest := FlushDrains(cfg, sent, now);
      k := rest + 1;
      var taken := s.sess.queue[..k];
      assert taken[1..] == sent.sess.queue[..rest];
      Append(out, Kept(s.sess.queue[0], now), Flush(cfg, sent, now).1, Live(taken[1..], now));
    }
  }

  // ---------------------------------------------------------------- acknowledgements

  /** A flush leaves every record alone and adds only messages from the queue. */
  ghost predicate AddsFromQueue(records: map<PacketId, InflightMsg>, queue: seq<Offer>,
                                after: map<PacketId, InflightMsg>) {
    && (forall id :: id in records ==> id in after && after[id] == records[id])
    && (forall id :: id in after && id !in records ==>
          exists i :: 0 <= i < |queue| && after[id] == InflightMsg(queue[i].qos, queue[i].msg, false))
  }

  lemma SendAdds(cfg: Config, s: Side, o: Offer, now: int)
    requires |s.sess.inflight| < MAX_ID
    ensures AddsFromQueue(s.sess.inflight, [o], Deliver(cfg, s, o, now).0.sess.inflight)
  {
    NextIdUnused(s.sess);
    assert [o][0] == o;
  }

  lemma AddsTwice(a: map<PacketId, InflightMsg>, b: map<PacketId, InflightMsg>, c: map<PacketId, InflightMsg>,
                  queue: seq<Offer>)
    requires queue != [] && AddsFromQueue(a, [queue[0]], b) && AddsFromQueue(b, queue[1..], c)
    ensures AddsFromQueue(a, queue, c)
  {
    forall id | id in c && id !in a
      ensures exists i :: 0 <= i < |queue| && c[id] == InflightMsg(queue[i].qos, queue[i].msg, false)
    {
      if id in b {
        assert b[id] == InflightMsg(queue[0].qos, queue[0].msg, false);
      } else {
        var i :| 0 <= i < |queue[1..]| && c[id] == InflightMsg(queue[1..][i].qos, queue[1..][i].msg, false);
        assert queue[1..][i] == queue[i + 1];
      }
    }
  }

  lemma {:induction false} FlushAdds(cfg: Config, s: Side, now: int)
    requires |Flush(cfg, s, now).0.sess.inflight| < MAX_ID
    ensures AddsFromQueue(s.sess.inflight, s.sess.queue, Flush(cfg, s, now).0.sess.inflight)
    decreases |s.sess.queue|
  {
    if s.sess.queue != [] && CanSend(s.sess) {
      var popped := s.(sess := s.sess.(queue := s.sess.queue[1..]));
      var sent := Deliver(cfg, popped, s.sess.queue[0], now).0;
      FlushGrows(cfg, sent, now);
      SendGrows(cfg, popped, s.sess.queue[0], now);
      FlushAdds(cfg, sent, now);
      SendAdds(cfg, popped, s.sess.queue[0], now);
      AddsTwice(s.sess.inflight, sent.sess.inflight, Flush(cfg, sent, now).0.sess.inflight, s.sess.queue);
    }
  }

  /** PUBACK, PUBCOMP or a refusing PUBREC for this delivery. */
  predicate Ends(p: Packet, id: PacketId) {
    p == PubAck(id) || p == PubComp(id) || (p.PubRec? && p.id == id && p.reason >= 0x80)
  }

  /** Such a packet drops the record and what the engine tracks, gives one place of the window back, touches no other
  delivery, and lets the queue into the place. */
  lemma EndFreesWindow(cfg: Config, s: Side, p: Packet, id: PacketId, now: int) returns (k: nat)
    requires Ends(p, id) && id in s.sess.inflight
    requires |HandleAck(cfg, s, p, now).0.sess.inflight| < MAX_ID
    ensures var (t, out) := HandleAck(cfg, s, p, now);
            && AddsFromQueue(s.sess.inflight - {id}, s.sess.queue, t.sess.inflight)
            && t.sess.unacked == (if s.sess.unacked > 0 then s.sess.unacked - 1 else 0) + |out|
            && k <= |s.sess.queue| && t.sess.queue == s.sess.queue[k..]
            && SendsInOrder(out, Live(s.sess.queue[..k], now))
            && (t.sess.queue == [] || t.sess.unacked >= t.sess.window)
            && (s.sess.queue == [] ==> t.sess.inflight == s.sess.inflight - {id} && t.engine == s.engine - {id})
  {
    var r := Release(s, id);
    k := FlushDrains(cfg, r, now);
    FlushAdds(cfg, r, now);
  }

  /** An acknowledgement nothing is recorded for only tidies the engine, if nothing waits. */
  lemma StrayAck(cfg: Config, s: Side, p: Packet, id: PacketId, now: int)
    requires Ends(p, id) && id !in s.sess.inflight && s.sess.queue == []
    ensures HandleAck(cfg, s, p, now) == (Side(s.sess, s.engine - {id}), [])
  {
  }

  /** An accepting PUBREC is answered with the PUBREL if and only if the engine tracks the delivery; either way the
  QoS 2 record is past its PUBLISH from now on and nothing else moves. */
  lemma PubRecExact(cfg: Config, s: Side, id: PacketId, reason: int, now: int)
    requires reason < 0x80
    ensures var (t, out) := HandleAck(cfg, s, PubRec(id, reason), now);
            && out == (if id in s.engine then [PubRel(id)] else [])
            && t.sess.inflight.Keys == s.sess.inflight.Keys && t.engine.Keys == s.engine.Keys
            && (id in s.sess.inflight && s.sess.inflight[id].qos == 2 ==>
                  t.sess.inflight[id] == s.sess.inflight[id].(pendingPubRel := true))
            && (forall k :: k in s.sess.inflight && (k != id || s.sess.inflight[k].qos == 1) ==>
                  t.sess.inflight[k] == s.sess.inflight[k])
            && (id in s.engine ==> t.engine[id] == s.engine[id].(acked := true))
            && (forall k :: k in s.engine && k != id ==> t.engine[k] == s.engine[k])
            && t.sess == s.sess.(inflight := t.sess.inflight)
  {
  }

  // ---------------------------------------------------------------- the client

  /** The client after reading these packets, and what it answered. */
  function Reading(c: Client, packets: seq<Packet>): (Client, seq<Packet>) {
    if packets == [] then (c, [])
    else
      var (before, acks) := Reading(c, packets[..|packets| - 1]);
      var (after, ack) := ClientHandle(before, packets[|packets| - 1]);
      (after, acks + ack)
  }

  /** Copies of one QoS 2 PUBLISH. */
  ghost predicate CopiesOf(packets: seq<Packet>, id: PacketId, msg: Message) {
    forall i :: 0 <= i < |packets| ==>
      packets[i] == Publish(id, 2, msg, true) || packets[i] == Publish(id, 2, msg, false)
  }

  lemma {:induction false} CopiesHandedOnce(c: Client, packets: seq<Packet>, id: PacketId, msg: Message)
    requires CopiesOf(packets, id, msg) && packets != [] && id !in c.received
    ensures var (after, acks) := Reading(c, packets);
            && after == Client(c.received + {id}, c.handed1, c.handed2 + [msg.serial])
            && acks == seq(|packets|, _ => PubRec(id, 0))
    decreases |packets|
  {
    var init := packets[..|packets| - 1];
    if init == [] {
      assert Reading(c, init) == (c, []);
    } else {
      CopiesHandedOnce(c, init, id, msg);
    }
  }

  /** However often a PUBLISH is repeated before its PUBREL, the client hands the message over once, answers every
  packet in turn and is ready for the identifier's next use. */
  lemma HandshakeHandsOnce(c: Client, packets: seq<Packet>, id: PacketId, msg: Message)
    requires CopiesOf(packets, id, msg) && packets != [] && id !in c.received
    ensures var (after, acks) := Reading(c, packets + [PubRel(id)]);
            && after == c.(handed2 := c.handed2 + [msg.serial])
            && acks == seq(|packets|, _ => PubRec(id, 0)) + [PubComp(id)]
  {
    CopiesHandedOnce(c, packets, id, msg);
    assert (packets + [PubRel(id)])[..|packets|] == packets;
    assert c.received + {id} - {id} == c.received;
  }

  /** A QoS 1 PUBLISH is handed over and answered every time it is read. */
  lemma {:induction false} EveryCopyHanded(c: Client, packets: seq<Packet>)
    requires forall i :: 0 <= i < |packets| ==> packets[i].Publish? && packets[i].qos == 1
    ensures var (after, acks) := Reading(c, packets);
            && after.received == c.received && after.handed2 == c.handed2
            && after.handed1 == c.handed1 + seq(|packets|, i requires 0 <= i < |packets| => packets[i].msg.serial)
            && acks == seq(|packets|, i requires 0 <= i < |packets| => PubAck(packets[i].id))
    decreases |packets|
  {
    if packets != [] {
      EveryCopyHanded(c, packets[..|packets| - 1]);
    }
  }

  // ---------------------------------------------------------------- retry

  /** A retry is due for this entry and there is one left. */
  predicate Again(cfg: Config, t: Tracked, now: int) {
    now - t.sentAt >= cfg.retryInterval && t.retries < cfg.maxRetries
  }

  /** A retry is due for this entry and none is left. */
  predicate Over(cfg: Config, t: Tracked, now: int) {
    now - t.sentAt >= cfg.retryInterval && t.retries >= cfg.maxRetries
  }

  /** `out` holds one packet for each of these identifiers whose entry is to be sent again, and no other: the PUBREL if
  the QoS 2 record is past its PUBLISH, its PUBLISH marked DUP otherwise. */
  ghost predicate SendsAgain(cfg: Config, s: Side, ids: seq<PacketId>, now: int, out: seq<Packet>) {
    && (forall i :: 0 <= i < |out| ==>
          && out[i].id in ids && out[i].id in s.engine && Again(cfg, s.engine[out[i].id], now)
          && out[i].id in s.sess.inflight
          && var r := s.sess.inflight[out[i].id];
             out[i] == if r.qos == 2 && r.pendingPubRel then PubRel(out[i].id)
                       else Publish(out[i].id, r.qos, r.msg, true))
    && (forall id :: id in ids && id in s.engine && Again(cfg, s.engine[id], now) ==>
          exists i :: 0 <= i < |out| && out[i].id == id)
    && (forall i, j :: 0 <= i < j < |out| ==> out[i].id != out[j].id)
  }

  lemma RetrySendExact(cfg: Config, s: Side, sess: Session, id: PacketId, now: int)
    requires Coupled(s) && id in s.engine
    requires Again(cfg, s.engine[id], now) ==> id in sess.inflight && sess.inflight[id] == s.sess.inflight[id]
    ensures SendsAgain(cfg, s, [id], now, RetrySend(cfg, sess, s.engine, id, now))
  {
    var out := RetrySend(cfg, sess, s.engine, id, now);
    if Again(cfg, s.engine[id], now) {
      assert out[0].id == id;
    }
  }

  lemma SendsAgainMore(cfg: Config, s: Side, ids: seq<PacketId>, id: PacketId, now: int, out: seq<Packet>,
                       more: seq<Packet>)
    requires id !in ids && SendsAgain(cfg, s, ids, now, out) && SendsAgain(cfg, s, [id], now, more)
    ensures SendsAgain(cfg, s, ids + [id], now, out + more)
  {
    var both := out + more;
    forall k | k in ids + [id] && k in s.engine && Again(cfg, s.engine[k], now)
      ensures exists i :: 0 <= i < |both| && both[i].id == k
    {
      if k in ids {
        var i :| 0 <= i < |out| && out[i].id == k;
        assert both[i].id == k;
      } else {
        var i :| 0 <= i < |more| && more[i].id == k;
        assert both[|out| + i].id == k;
      }
    }
    forall i, j | 0 <= i < j < |both| ensures both[i].id != both[j].id {
      assert i < |out| ==> both[i] == out[i];
      assert j >= |out| ==> both[j] == more[j - |out|];
    }
  }

  lemma {:induction false} RetrySendsExact(cfg: Config, s: Side, sess: Session, order: seq<PacketId>, now: int)
    requires Coupled(s) && forall i :: 0 <= i < |order| ==> order[i] in s.engine
    requires forall i, j :: 0 <= i < j < |order| ==> order[i] != order[j]
    requires forall id :: id in s.engine && Again(cfg, s.engine[id], now) ==>
      id in sess.inflight && sess.inflight[id] == s.sess.inflight[id]
    ensures SendsAgain(cfg, s, order, now, RetrySends(cfg, sess, s.engine, order, now))
    decreases |order|
  {
    if order != [] {
      var init, id := order[..|order| - 1], order[|order| - 1];
      RetrySendsExact(cfg, s, sess, init, now);
      RetrySendExact(cfg, s, sess, id, now);
      SendsAgainMore(cfg, s, init, id, now, RetrySends(cfg, sess, s.engine, init, now),
                     RetrySend(cfg, sess, s.engine, id, now));
      assert order == init + [id];
    }
  }

  /** A retry pass sends each due delivery with retries left once, and no other; it forgets each due delivery with none
  left, and no other; it stamps and counts what it sent; the rest it leaves alone. */
  lemma RetryExact(cfg: Config, s: Side, order: seq<PacketId>, now: int)
    requires Coupled(s) && cfg.retransmit && Enumerates(order, s.engine.Keys)
    ensures SendsAgain(cfg, s, order, now, Retry(cfg, s, order, now).1)
    ensures var t := Retry(cfg, s, order, now).0;
            && (forall id :: id in t.sess.inflight <==>
                  id in s.sess.inflight && !(id in s.engine && Over(cfg, s.engine[id], now)))
            && (forall id :: id in t.sess.inflight ==> t.sess.inflight[id] == s.sess.inflight[id])
            && (forall id :: id in t.engine <==> id in s.engine && !Over(cfg, s.engine[id], now))
            && (forall id :: id in t.engine ==>
                  t.engine[id] == if Again(cfg, s.engine[id], now)
                                  then s.engine[id].(sentAt := now, retries := s.engine[id].retries + 1)
                                  else s.engine[id])
            && t.sess.queue == s.sess.queue && t.sess.nextId == s.sess.nextId
  {
    GiveUpsExact(cfg, s.sess, s.engine, order, now);
    RetrySendsExact(cfg, s, GiveUps(cfg, s.sess, s.engine, order, now), order, now);
  }

  // ---------------------------------------------------------------- resume

  /** The limit of the engine's table does not get in the way of this many entries. */
  predicate Fits(cfg: Config, n: nat) {
    cfg.maxInflight <= 0 || n <= cfg.maxInflight
  }

  lemma {:induction false} RestoreSize(cfg: Config, records: map<PacketId, InflightMsg>, order: seq<PacketId>, now: int)
    requires forall i :: 0 <= i < |order| ==> order[i] in records
    requires forall i, j :: 0 <= i < j < |order| ==> order[i] != order[j]
    ensures var engine := RestoreEngine(cfg, records, order, now);
            && |engine| == (if Fits(cfg, |order|) then |order| else cfg.maxInflight)
            && (forall id :: id in engine ==>
                  && id in order
                  && engine[id] == Tracked(records[id].qos, records[id].msg,
                                           records[id].qos == 2 && records[id].pendingPubRel, now, 0))
    decreases |order|
  {
    if order != [] {
      RestoreSize(cfg, records, order[..|order| - 1], now);
      assert order == order[..|order| - 1] + [order[|order| - 1]];
    }
  }

  lemma {:induction false} OrderSize<T>(order: seq<T>, keys: set<T>)
    requires Enumerates(order, keys)
    ensures |order| == |keys|
  {
    if order == [] {
      assert forall x :: x in keys ==> x in order;
    } else {
      var init, last := order[..|order| - 1], order[|order| - 1];
      assert order == init + [last];
      OrderSize(init, keys - {last});
    }
  }

  /** A resumed session keeps every record as it was saved; its counter, window and queue start over. The engine tracks
  each of them again, at the stage it had reached and as sent just now, if and only if its table has room for all. */
  lemma RestoreExact(cfg: Config, records: map<PacketId, InflightMsg>, window: nat, order: seq<PacketId>, now: int)
    requires Enumerates(order, records.Keys)
    ensures var t := Restore(cfg, records, window, order, now);
            && t.sess.inflight == records && t.sess.queue == [] && t.sess.window == window && t.sess.unacked == 0
            && (forall id :: id in t.engine ==>
                  && id in records && t.engine[id].qos == records[id].qos && t.engine[id].msg == records[id].msg
                  && (t.engine[id].acked <==> records[id].qos == 2 && records[id].pendingPubRel)
                  && t.engine[id].sentAt == now && t.engine[id].retries == 0)
            && (t.engine.Keys == records.Keys <==> cfg.maxInflight <= 0 || |records| <= cfg.maxInflight)
  {
    RestoreSize(cfg, records, order, now);
    OrderSize(order, records.Keys);
    var engine := RestoreEngine(cfg, records, order, now);
    assert |engine.Keys| == |engine| && |records.Keys| == |records|;
    assert engine.Keys <= records.Keys;
    if |engine| == |records| {
      SameSize(engine.Keys, records.Keys);
    }
  }

  lemma SameSize<T>(part: set<T>, whole: set<T>)
    requires part <= whole && |part| == |whole|
    ensures part == whole
  {
    SubsetSize(part, whole);
    if part != whole {
      var x :| x in whole && x !in part;
      SubsetSize(part, whole - {x});
    }
  }
}
