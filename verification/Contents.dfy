/** What the broker sends is what it was given. The theorems over runs follow a message by its serial; here its level,
topic, payload and RETAIN flag are followed with it, through the records, the overflow queue, every retry, save and
resume. */
module Contents {
  import opened Basics
  import opened Outbound
  import opened Delivery

  ghost predicate Known(known: iset<Offer>, qos: QoS, msg: Message) {
    exists expiresAt :: Offer(qos, msg, expiresAt) in known
  }

  ghost predicate KnownRecords(records: map<PacketId, InflightMsg>, known: iset<Offer>) {
    forall id :: id in records ==> Known(known, records[id].qos, records[id].msg)
  }

  ghost predicate KnownQueue(queue: seq<Offer>, known: iset<Offer>) {
    forall i :: 0 <= i < |queue| ==> queue[i] in known
  }

  ghost predicate KnownPackets(out: seq<Packet>, known: iset<Offer>) {
    forall i :: 0 <= i < |out| && out[i].Publish? ==> Known(known, out[i].qos, out[i].msg)
  }

  ghost predicate KnownSide(s: Side, known: iset<Offer>) {
    KnownRecords(s.sess.inflight, known) && KnownQueue(s.sess.queue, known)
  }

  ghost predicate KnownSystem(s: System, known: iset<Offer>) {
    KnownRecords(Records(s), known) && KnownQueue(Queue(s), known) && KnownPackets(s.down, known)
  }

  // ---------------------------------------------------------------- step by step

  lemma DeliverKnown(cfg: Config, s: Side, o: Offer, now: int, known: iset<Offer>)
    requires KnownSide(s, known) && o in known
    ensures var (t, out) := Deliver(cfg, s, o, now); KnownSide(t, known) && KnownPackets(out, known)
  {
    assert Offer(o.qos, o.msg, o.expiresAt) in known;
    assert Known(known, o.qos, o.msg);
  }

  lemma {:induction false} FlushKnown(cfg: Config, s: Side, now: int, known: iset<Offer>)
    requires KnownSide(s, known)
    ensures var (t, out) := Flush(cfg, s, now); KnownSide(t, known) && KnownPackets(out, known)
    decreases |s.sess.queue|
  {
    if s.sess.queue != [] && CanSend(s.sess) {
      var popped := s.(sess := s.sess.(queue := s.sess.queue[1..]));
      DeliverKnown(cfg, popped, s.sess.queue[0], now, known);
      FlushKnown(cfg, Deliver(cfg, popped, s.sess.queue[0], now).0, now, known);
    }
  }

  lemma AckKnown(cfg: Config, s: Side, p: Packet, now: int, known: iset<Offer>)
    requires KnownSide(s, known)
    ensures var (t, out) := HandleAck(cfg, s, p, now); KnownSide(t, known) && KnownPackets(out, known)
  {
    if p.PubAck? || p.PubComp? || (p.PubRec? && p.reason >= FAILURE_BASE) {
      FlushKnown(cfg, Release(s, p.id), now, known);
    }
  }

  /** What is owed to known records is known. */
  lemma OwedKnown(records: map<PacketId, InflightMsg>, out: seq<Packet>, strict: bool, known: iset<Offer>)
    requires KnownRecords(records, known) && AllOwed(records, out, strict)
    ensures KnownPackets(out, known)
  {
    forall i | 0 <= i < |out| && out[i].Publish? ensures Known(known, out[i].qos, out[i].msg) {
      assert Owed(records, out[i], strict);
    }
  }

  lemma RetryKnown(cfg: Config, s: Side, order: seq<PacketId>, now: int, known: iset<Offer>)
    requires KnownSide(s, known) && Staged(s)
    ensures var (t, out) := Retry(cfg, s, order, now); KnownSide(t, known) && KnownPackets(out, known)
  {
    var (t, out) := Retry(cfg, s, order, now);
    GiveUpsExact(cfg, s.sess, s.engine, order, now);
    RetryOwed(cfg, s, order, now, false);
    OwedKnown(t.sess.inflight, out, false, known);
  }

  lemma ResendKnown(records: map<PacketId, InflightMsg>, order: seq<PacketId>, known: iset<Offer>)
    requires KnownRecords(records, known) && Enumerates(order, records.Keys)
    ensures KnownPackets(Resend(records, order), known)
  {
    ResendOwed(records, order);
    OwedKnown(records, Resend(records, order), true, known);
  }

  /** The message an action accepts. */
  ghost function Accepted(s: System, a: Action): iset<Offer> {
    if a.Accept? then iset{Offer(a.qos, Message(s.issued, a.topic, a.payload, a.retain), a.expiresAt)} else iset{}
  }

  lemma MoreKnown(s: System, known: iset<Offer>, more: iset<Offer>)
    requires KnownSystem(s, known) && known <= more
    ensures KnownSystem(s, more)
  {
    forall qos, msg | Known(known, qos, msg) ensures Known(more, qos, msg) {
      var expiresAt :| Offer(qos, msg, expiresAt) in known;
      assert Offer(qos, msg, expiresAt) in more;
    }
  }

  lemma NextKnown(cfg: Config, s: System, a: Action, known: iset<Offer>)
    requires Inv(s, false) && Enabled(s, a) && KnownSystem(s, known) && Accepted(s, a) <= known
    ensures KnownSystem(Next(cfg, s, a), known)
  {
    match a
    case Accept(qos, topic, payload, retain, expiresAt, now) =>
      var o := Offer(qos, Message(s.issued, topic, payload, retain), expiresAt);
      assert o in Accepted(s, a);
      DeliverKnown(cfg, s.side.value, o, now, known);
    case BrokerReads(now) => AckKnown(cfg, s.side.value, s.up[0], now, known);
    case RetryTick(order, now) => RetryKnown(Policy(cfg, s), s.side.value, order, now, known);
    case Connect(_, _, sendOrder, _, _) =>
      if HasSession(s) { ResendKnown(Records(s), sendOrder, known); }
    case _ =>
  }

  // ---------------------------------------------------------------- over runs

  /** Action i of the run accepted this message. */
  ghost predicate AcceptedAt(trace: seq<System>, acts: seq<Action>, i: nat, o: Offer)
    requires |trace| == |acts| + 1
  {
    && i < |acts| && acts[i].Accept? && o.qos == acts[i].qos && o.expiresAt == acts[i].expiresAt
    && o.msg.serial == trace[i].issued && o.msg.topic == acts[i].topic && o.msg.payload == acts[i].payload
    && o.msg.retain == acts[i].retain
  }

  ghost predicate AcceptedEarlier(trace: seq<System>, acts: seq<Action>, n: nat, o: Offer)
    requires |trace| == |acts| + 1
  {
    exists i :: 0 <= i < n && AcceptedAt(trace, acts, i, o)
  }

  ghost function AcceptedBefore(trace: seq<System>, acts: seq<Action>, n: nat): iset<Offer>
    requires |trace| == |acts| + 1
  {
    iset o | AcceptedEarlier(trace, acts, n, o)
  }

  lemma AcceptedGrows(trace: seq<System>, acts: seq<Action>, n: nat)
    requires |trace| == |acts| + 1 && n < |acts|
    ensures AcceptedBefore(trace, acts, n) <= AcceptedBefore(trace, acts, n + 1)
    ensures Accepted(trace[n], acts[n]) <= AcceptedBefore(trace, acts, n + 1)
  {
    forall o | o in Accepted(trace[n], acts[n]) ensures AcceptedEarlier(trace, acts, n + 1, o) {
      assert AcceptedAt(trace, acts, n, o);
    }
  }

  lemma StepKnown(cfg: Config, s: System, a: Action, t: System, known: iset<Offer>, more: iset<Offer>)
    requires Step(cfg, s, a, t) && Inv(s, false) && KnownSystem(s, known)
    requires known <= more && Accepted(s, a) <= more
    ensures KnownSystem(t, more)
  {
    MoreKnown(s, known, more);
    NextKnown(cfg, s, a, more);
  }

  lemma KnownOn(cfg: Config, trace: seq<System>, acts: seq<Action>, n: nat, known: iset<Offer>, more: iset<Offer>)
    requires IsRun(cfg, trace, acts) && n < |acts| && KnownSystem(trace[n], known)
    requires known == AcceptedBefore(trace, acts, n) && more == AcceptedBefore(trace, acts, n + 1)
    ensures KnownSystem(trace[n + 1], more)
  {
    assert Step(cfg, trace[n], acts[n], trace[n + 1]);
    RunInv(cfg, trace, acts, n);
    AcceptedGrows(trace, acts, n);
    StepKnown(cfg, trace[n], acts[n], trace[n + 1], known, more);
  }

  lemma {:induction false} RunKnown(cfg: Config, trace: seq<System>, acts: seq<Action>, n: nat)
    requires IsRun(cfg, trace, acts) && n < |trace|
    ensures KnownSystem(trace[n], AcceptedBefore(trace, acts, n))
  {
    if n > 0 {
      RunKnown(cfg, trace, acts, n - 1);
      KnownOn(cfg, trace, acts, n - 1, AcceptedBefore(trace, acts, n - 1), AcceptedBefore(trace, acts, n));
    }
  }

  lemma IssuedStep(cfg: Config, s: System, a: Action, t: System)
    requires Step(cfg, s, a, t)
    ensures t.issued == s.issued + if a.Accept? then 1 else 0
  {
  }

  /** Serials count the acceptances. */
  ghost predicate Numbered(trace: seq<System>, acts: seq<Action>) {
    && |trace| == |acts| + 1
    && forall k {:trigger acts[k]} ::
      0 <= k < |acts| ==> trace[k + 1].issued == trace[k].issued + if acts[k].Accept? then 1 else 0
  }

  lemma RunNumbered(cfg: Config, trace: seq<System>, acts: seq<Action>)
    requires IsRun(cfg, trace, acts)
    ensures Numbered(trace, acts)
  {
    forall k {:trigger acts[k]} | 0 <= k < |acts|
      ensures trace[k + 1].issued == trace[k].issued + if acts[k].Accept? then 1 else 0
    {
      IssuedStep(cfg, trace[k], acts[k], trace[k + 1]);
    }
  }

  /** The serial of a message tells which action accepted it. */
  lemma {:induction false} SerialNamesAction(trace: seq<System>, acts: seq<Action>, i: nat, j: nat)
    requires Numbered(trace, acts) && i < j <= |acts| && acts[i].Accept?
    ensures trace[i].issued < trace[j].issued
  {
    assert acts[j - 1] == acts[j - 1];
    if i < j - 1 {
      SerialNamesAction(trace, acts, i, j - 1);
    }
  }

  /** The message is recorded, or on its way to the client. */
  ghost predicate Carried(s: System, qos: QoS, msg: Message) {
    || (exists id :: id in Records(s) && Records(s)[id].qos == qos && Records(s)[id].msg == msg)
    || (exists i :: 0 <= i < |s.down| && s.down[i].Publish? && s.down[i].qos == qos && s.down[i].msg == msg)
  }

  /** In every run, whatever is recorded or on the wire was accepted by one earlier action and no other, and has kept
  the level, topic, payload and RETAIN flag it was accepted with. */
  lemma CarriedAsAccepted(cfg: Config, trace: seq<System>, acts: seq<Action>, n: nat, qos: QoS, msg: Message)
    returns (i: nat)
    requires IsRun(cfg, trace, acts) && n < |trace| && Carried(trace[n], qos, msg)
    ensures i < n && acts[i].Accept? && trace[i].issued == msg.serial
    ensures acts[i].qos == qos && acts[i].topic == msg.topic && acts[i].payload == msg.payload
    ensures acts[i].retain == msg.retain
    ensures forall j :: 0 <= j < |acts| && acts[j].Accept? && trace[j].issued == msg.serial ==> j == i
  {
    RunKnown(cfg, trace, acts, n);
    RunNumbered(cfg, trace, acts);
    assert Known(AcceptedBefore(trace, acts, n), qos, msg);
    var expiresAt :| Offer(qos, msg, expiresAt) in AcceptedBefore(trace, acts, n);
    assert AcceptedEarlier(trace, acts, n, Offer(qos, msg, expiresAt));
    i :| 0 <= i < n && AcceptedAt(trace, acts, i, Offer(qos, msg, expiresAt));
    forall j | 0 <= j < |acts| && acts[j].Accept? && trace[j].issued == msg.serial ensures j == i {
      if i < j {
        SerialNamesAction(trace, acts, i, j);
      } else if j < i {
        SerialNamesAction(trace, acts, j, i);
      }
    }
  }

  /** And so has whatever waits in the queue, its deadline included. */
  lemma QueuedAsAccepted(cfg: Config, trace: seq<System>, acts: seq<Action>, n: nat, k: nat) returns (i: nat)
    requires IsRun(cfg, trace, acts) && n < |trace| && k < |Queue(trace[n])|
    ensures i < n && acts[i].Accept?
    ensures var o := Queue(trace[n])[k];
            && o.qos == acts[i].qos && o.expiresAt == acts[i].expiresAt
            && o.msg == Message(trace[i].issued, acts[i].topic, acts[i].payload, acts[i].retain)
  {
    RunKnown(cfg, trace, acts, n);
    assert AcceptedEarlier(trace, acts, n, Queue(trace[n])[k]);
    i :| 0 <= i < n && AcceptedAt(trace, acts, i, Queue(trace[n])[k]);
  }
}
