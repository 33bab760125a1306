/** MQTT 5.0 flow control towards one client: the window counter, the overflow queue and the order
in which accepted messages first reach the wire, over every run of one connection with a fixed window. */
module FlowControl {
  import opened Outbound

  /** The broker's state with its history: serials accepted (sent or queued), serials in the order of
      their first transmission, and serials that expired while queued. */
  datatype Flow = Flow(side: Side, offered: nat, accepted: seq<nat>, wire: seq<nat>, expired: set<nat>)

  datatype Event =
    | OfferMsg(qos: QoS, topic: string, payload: seq<int>, retain: bool, expiresAt: int, now: int)
    | Ack(packet: Packet, now: int)
    | Tick(order: seq<PacketId>, now: int)

  function Start(window: nat): Flow {
    Flow(FreshSide(window), 0, [], [], {})
  }

  // ---------------------------------------------------------------- history of one action

  function FirstSerials(out: seq<Packet>): seq<nat> {
    if out == [] then []
    else (if out[0].Publish? && !out[0].dup then [out[0].msg.serial] else []) + FirstSerials(out[1..])
  }

  /** The serials a flush drops because they expired in the queue. */
  function FlushExpired(cfg: Config, s: Side, now: int): set<nat>
    decreases |s.sess.queue|
  {
    if s.sess.queue == [] || !CanSend(s.sess) then {}
    else
      var popped := s.(sess := s.sess.(queue := s.sess.queue[1..]));
      (if Expired(s.sess.queue[0], now) then {s.sess.queue[0].msg.serial} else {})
      + FlushExpired(cfg, Deliver(cfg, popped, s.sess.queue[0], now).0, now)
  }

  predicate Flushes(p: Packet) {
    p.PubAck? || p.PubComp? || (p.PubRec? && p.reason >= FAILURE_BASE)
  }

  ghost predicate Enabled(f: Flow, e: Event) {
    e.Tick? ==> Enumerates(e.order, f.side.engine.Keys)
  }

  /** The event gives no delivery up. */
  ghost predicate Patient(cfg: Config, f: Flow, e: Event) {
    e.Tick? && cfg.retransmit ==> forall id :: id in f.side.engine ==> !GivenUp(cfg, f.side.engine[id], e.now)
  }

  function OfferOf(f: Flow, e: Event): Offer
    requires e.OfferMsg?
  {
    Offer(e.qos, Message(f.offered, e.topic, e.payload, e.retain), e.expiresAt)
  }

  function Next(cfg: Config, f: Flow, e: Event): Flow {
    match e
    case OfferMsg(_, _, _, _, _, now) =>
      var o := OfferOf(f, e);
      var (side, out) := Deliver(cfg, f.side, o, now);
      var taken := !Expired(o, now) && (CanSend(f.side.sess) || |f.side.sess.queue| < MAX_BUFFERED);
      f.(side := side, offered := f.offered + 1, wire := f.wire + FirstSerials(out),
         accepted := if taken then f.accepted + [f.offered] else f.accepted)
    case Ack(p, now) =>
      var (side, out) := HandleAck(cfg, f.side, p, now);
      f.(side := side, wire := f.wire + FirstSerials(out),
         expired := f.expired + if Flushes(p) then FlushExpired(cfg, Release(f.side, p.id), now) else {})
    case Tick(order, now) =>
      var (side, out) := Retry(cfg, f.side, order, now);
      f.(side := side, wire := f.wire + FirstSerials(out))
  }

  ghost predicate IsRun(cfg: Config, window: nat, trace: seq<Flow>, events: seq<Event>) {
    && |trace| == |events| + 1
    && trace[0] == Start(window)
    && (forall i {:trigger events[i]} :: 0 <= i < |events| ==> Step(cfg, trace[i], events[i], trace[i + 1]))
  }

  ghost predicate Step(cfg: Config, f: Flow, e: Event, g: Flow) {
    Enabled(f, e) && g == Next(cfg, f, e)
  }

  ghost predicate NoGiveUps(cfg: Config, trace: seq<Flow>, events: seq<Event>)
    requires |trace| == |events| + 1
  {
    forall i {:trigger events[i]} :: 0 <= i < |events| ==> Patient(cfg, trace[i], events[i])
  }

  // ---------------------------------------------------------------- the invariant

  function QueueSerials(queue: seq<Offer>): seq<nat> {
    if queue == [] then [] else [queue[0].msg.serial] + QueueSerials(queue[1..])
  }

  function Without(log: seq<nat>, gone: set<nat>): seq<nat> {
    if log == [] then []
    else Without(log[..|log| - 1], gone) + if log[|log| - 1] in gone then [] else [log[|log| - 1]]
  }

  ghost predicate Counted(s: Side) {
    s.sess.unacked == |s.sess.inflight| <= s.sess.window <= MAX_ID && s.engine.Keys <= s.sess.inflight.Keys
  }

  ghost predicate Full(s: Side) {
    s.sess.queue != [] ==> !CanSend(s.sess)
  }

  ghost predicate Ordered(f: Flow) {
    && f.wire + QueueSerials(f.side.sess.queue) == Without(f.accepted, f.expired)
    && (forall i, j :: 0 <= i < j < |f.accepted| ==> f.accepted[i] < f.accepted[j])
    && (forall i :: 0 <= i < |f.accepted| ==> f.accepted[i] < f.offered)
    && (forall n :: n in f.expired ==> n in f.accepted)
  }

  ghost predicate Inv(f: Flow) {
    Counted(f.side) && Full(f.side) && Ordered(f)
  }

  // ---------------------------------------------------------------- sequences

  lemma {:induction false} QueueSerialsAppend(queue: seq<Offer>, o: Offer)
    ensures QueueSerials(queue + [o]) == QueueSerials(queue) + [o.msg.serial]
  {
    if queue != [] {
      assert (queue + [o])[1..] == queue[1..] + [o];
      QueueSerialsAppend(queue[1..], o);
    } else {
      assert (queue + [o])[1..] == [];
    }
  }

  lemma {:induction false} FirstSerialsAppend(a: seq<Packet>, b: seq<Packet>)
    ensures FirstSerials(a + b) == FirstSerials(a) + FirstSerials(b)
  {
    if a == [] {
      assert a + b == b;
    } else {
      assert (a + b)[1..] == a[1..] + b;
      FirstSerialsAppend(a[1..], b);
    }
  }

  lemma {:induction false} WithoutMembers(log: seq<nat>, gone: set<nat>, n: nat)
    ensures n in Without(log, gone) <==> n in log && n !in gone
  {
    if log != [] {
      WithoutMembers(log[..|log| - 1], gone, n);
      assert log == log[..|log| - 1] + [log[|log| - 1]];
    }
  }

  ghost predicate Ascending(log: seq<nat>) {
    forall i, j :: 0 <= i < j < |log| ==> log[i] < log[j]
  }

  lemma {:induction false} WithoutAscending(log: seq<nat>, gone: set<nat>)
    requires Ascending(log)
    ensures Ascending(Without(log, gone))
  {
    if log != [] {
      var init, last := log[..|log| - 1], log[|log| - 1];
      WithoutAscending(init, gone);
      forall i | 0 <= i < |Without(init, gone)| ensures Without(init, gone)[i] < last {
        WithoutMembers(init, gone, Without(init, gone)[i]);
      }
    }
  }

  lemma {:induction false} WithoutMore(log: seq<nat>, gone: set<nat>, n: nat)
    ensures Without(log, gone + {n}) == Without(Without(log, gone), {n})
  {
    if log != [] {
      var init, last := log[..|log| - 1], log[|log| - 1];
      WithoutMore(init, gone, n);
      var w := Without(init, gone);
      if last !in gone {
        assert (w + [last])[..|w|] == w;
      } else {
        assert w + [] == w;
      }
    }
  }

  lemma {:induction false} WithoutAbsent(log: seq<nat>, n: nat)
    requires n !in log
    ensures Without(log, {n}) == log
  {
    if log != [] {
      WithoutAbsent(log[..|log| - 1], n);
    }
  }

  /** Removing an element that occurs once from the middle. */
  lemma {:induction false} WithoutMiddle(a: seq<nat>, n: nat, b: seq<nat>)
    requires n !in a && n !in b
    ensures Without(a + [n] + b, {n}) == a + b
    decreases |b|
  {
    if b == [] {
      assert (a + [n] + b)[..|a|] == a;
      WithoutAbsent(a, n);
    } else {
      var init, last := b[..|b| - 1], b[|b| - 1];
      assert (a + [n] + b)[..|a| + |b|] == a + [n] + init;
      WithoutMiddle(a, n, init);
      assert a + b == a + init + [last];
    }
  }

  // ---------------------------------------------------------------- preservation

  lemma SendNowCounted(cfg: Config, s: Side, o: Offer, now: int)
    requires Counted(s) && CanSend(s.sess)
    ensures Counted(SendNow(cfg, s, o, now).0) && NextId(s.sess).0 !in s.sess.inflight
  {
    NextIdUnused(s.sess);
    var t := SendNow(cfg, s, o, now).0;
    assert t.sess.inflight.Keys == s.sess.inflight.Keys + {NextId(s.sess).0};
    assert |t.sess.inflight.Keys| == |s.sess.inflight.Keys| + 1;
  }

  lemma SendNowOrdered(cfg: Config, f: Flow, o: Offer, now: int)
    requires f.side.sess.queue != [] && f.side.sess.queue[0] == o && Ordered(f)
    ensures var popped := f.side.(sess := f.side.sess.(queue := f.side.sess.queue[1..]));
            var (t, out) := SendNow(cfg, popped, o, now);
            Ordered(f.(side := t, wire := f.wire + FirstSerials(out)))
  {
  }

  lemma AscendingOnce(a: seq<nat>, n: nat, b: seq<nat>)
    requires Ascending(a + [n] + b)
    ensures n !in a && n !in b
  {
    var s := a + [n] + b;
    assert s[|a|] == n;
    assert forall i :: 0 <= i < |a| ==> a[i] == s[i];
    assert forall i :: 0 <= i < |b| ==> b[i] == s[|a| + 1 + i];
  }

  lemma ExpireOrdered(f: Flow)
    requires f.side.sess.queue != [] && Ordered(f)
    ensures var popped := f.side.(sess := f.side.sess.(queue := f.side.sess.queue[1..]));
            Ordered(f.(side := popped, expired := f.expired + {f.side.sess.queue[0].msg.serial}))
  {
    var n, rest := f.side.sess.queue[0].msg.serial, QueueSerials(f.side.sess.queue[1..]);
    assert Without(f.accepted, f.expired) == f.wire + [n] + rest;
    WithoutAscending(f.accepted, f.expired);
    AscendingOnce(f.wire, n, rest);
    WithoutMore(f.accepted, f.expired, n);
    WithoutMiddle(f.wire, n, rest);
    WithoutMembers(f.accepted, f.expired, n);
  }

  /** The history after the broker moved to `side`, wrote `out` and let `gone` expire. */
  function Moved(f: Flow, side: Side, out: seq<Packet>, gone: set<nat>): Flow {
    f.(side := side, wire := f.wire + FirstSerials(out), expired := f.expired + gone)
  }

  function Gone(o: Offer, now: int): set<nat> {
    if Expired(o, now) then {o.msg.serial} else {}
  }

  lemma PopInv(cfg: Config, f: Flow, now: int)
    requires Counted(f.side) && Ordered(f) && f.side.sess.queue != [] && CanSend(f.side.sess)
    ensures var popped := f.side.(sess := f.side.sess.(queue := f.side.sess.queue[1..]));
            var (sent, out) := Deliver(cfg, popped, f.side.sess.queue[0], now);
            Counted(sent) && Ordered(Moved(f, sent, out, Gone(f.side.sess.queue[0], now)))
  {
    var s, o := f.side, f.side.sess.queue[0];
    var popped := s.(sess := s.sess.(queue := s.sess.queue[1..]));
    if Expired(o, now) {
      ExpireOrdered(f);
      assert f.wire + [] == f.wire;
    } else {
      SendNowCounted(cfg, popped, o, now);
      SendNowOrdered(cfg, f, o, now);
      assert f.expired + {} == f.expired;
    }
  }

  lemma MovedTwice(f: Flow, s: Side, out: seq<Packet>, gone: set<nat>, t: Side, more: seq<Packet>, late: set<nat>)
    ensures Moved(Moved(f, s, out, gone), t, more, late) == Moved(f, t, out + more, gone + late)
  {
    FirstSerialsAppend(out, more);
    assert f.wire + FirstSerials(out) + FirstSerials(more) == f.wire + (FirstSerials(out) + FirstSerials(more));
    assert f.expired + gone + late == f.expired + (gone + late);
  }

  lemma {:induction false} FlushInv(cfg: Config, f: Flow, now: int)
    requires Counted(f.side) && Ordered(f)
    ensures var (t, out) := Flush(cfg, f.side, now); Inv(Moved(f, t, out, FlushExpired(cfg, f.side, now)))
    decreases |f.side.sess.queue|
  {
    var s := f.side;
    if s.sess.queue == [] || !CanSend(s.sess) {
      assert f.wire + [] == f.wire && f.expired + {} == f.expired;
    } else {
      var popped := s.(sess := s.sess.(queue := s.sess.queue[1..]));
      var (sent, out) := Deliver(cfg, popped, s.sess.queue[0], now);
      var (t, more) := Flush(cfg, sent, now);
      var gone := Gone(s.sess.queue[0], now);
      PopInv(cfg, f, now);
      FlushInv(cfg, Moved(f, sent, out, gone), now);
      MovedTwice(f, sent, out, gone, t, more, FlushExpired(cfg, sent, now));
    }
  }

  lemma ReleaseCounted(s: Side, id: PacketId)
    requires Counted(s)
    ensures Counted(Release(s, id)) && Release(s, id).sess.queue == s.sess.queue
  {
  }

  lemma CompleteInv(cfg: Config, f: Flow, id: PacketId, now: int)
    requires Counted(f.side) && Ordered(f)
    ensures var (t, out) := Complete(cfg, f.side, id, now);
            Inv(Moved(f, t, out, FlushExpired(cfg, Release(f.side, id), now)))
  {
    ReleaseCounted(f.side, id);
    FlushInv(cfg, f.(side := Release(f.side, id)), now);
  }

  lemma AckInv(cfg: Config, f: Flow, p: Packet, now: int)
    requires Inv(f)
    ensures Inv(Next(cfg, f, Ack(p, now)))
  {
    if Flushes(p) {
      CompleteInv(cfg, f, p.id, now);
      EndNext(cfg, f, p, now);
    } else {
      QuietAck(cfg, f.side, p, now);
      QuietNext(cfg, f, p, now);
      SameQueueInv(f, HandleAck(cfg, f.side, p, now).0);
    }
  }

  lemma EndNext(cfg: Config, f: Flow, p: Packet, now: int)
    requires Flushes(p)
    ensures var (t, out) := Complete(cfg, f.side, p.id, now);
            Next(cfg, f, Ack(p, now)) == Moved(f, t, out, FlushExpired(cfg, Release(f.side, p.id), now))
  {
  }

  lemma QuietNext(cfg: Config, f: Flow, p: Packet, now: int)
    requires Counted(f.side) && !Flushes(p)
    ensures Next(cfg, f, Ack(p, now)) == f.(side := HandleAck(cfg, f.side, p, now).0)
  {
    QuietCounted(cfg, f.side, p, now);
    assert f.wire + [] == f.wire && f.expired + {} == f.expired;
  }

  lemma SameQueueInv(f: Flow, side: Side)
    requires Ordered(f) && side.sess.queue == f.side.sess.queue && Counted(side) && Full(side)
    ensures Inv(f.(side := side))
  {
  }

  lemma QuietCounted(cfg: Config, s: Side, p: Packet, now: int)
    requires Counted(s) && !Flushes(p)
    ensures var (t, out) := HandleAck(cfg, s, p, now);
            && FirstSerials(out) == [] && Counted(t) && t.sess.queue == s.sess.queue
            && t.sess.unacked == s.sess.unacked && t.sess.window == s.sess.window
  {
    if p.PubRec? {
      assert MarkPubRel(s.sess, p.id).inflight.Keys == s.sess.inflight.Keys;
    }
  }

  /** An acknowledgement that ends no delivery neither moves the window nor sends anything new. */
  lemma QuietAck(cfg: Config, s: Side, p: Packet, now: int)
    requires Counted(s) && Full(s) && !Flushes(p)
    ensures var (t, out) := HandleAck(cfg, s, p, now);
            FirstSerials(out) == [] && Counted(t) && Full(t) && t.sess.queue == s.sess.queue
  {
    QuietCounted(cfg, s, p, now);
  }

  lemma OfferInv(cfg: Config, f: Flow, e: Event)
    requires Inv(f) && e.OfferMsg?
    ensures Inv(Next(cfg, f, e))
  {
    var o, s := OfferOf(f, e), f.side;
    if Dropped(f, e) {
      DropNext(cfg, f, e);
    } else if CanSend(s.sess) {
      SendNext(cfg, f, e);
      SendNowCounted(cfg, s, o, e.now);
      AcceptOrdered(f, SendNow(cfg, s, o, e.now).0, false);
    } else {
      QueueNext(cfg, f, e);
      QueueSerialsAppend(s.sess.queue, o);
      AcceptOrdered(f, Waiter(s, o), true);
    }
  }

  /** The offer is late, or neither the window nor the queue has room. */
  predicate Dropped(f: Flow, e: Event)
    requires e.OfferMsg?
  {
    Expired(OfferOf(f, e), e.now) || (!CanSend(f.side.sess) && |f.side.sess.queue| >= MAX_BUFFERED)
  }

  function Waiter(s: Side, o: Offer): Side {
    s.(sess := s.sess.(queue := s.sess.queue + [o]))
  }

  lemma DropNext(cfg: Config, f: Flow, e: Event)
    requires e.OfferMsg? && Dropped(f, e)
    ensures Next(cfg, f, e) == f.(offered := f.offered + 1)
  {
    assert f.wire + [] == f.wire;
  }

  lemma SendNext(cfg: Config, f: Flow, e: Event)
    requires e.OfferMsg? && !Dropped(f, e) && CanSend(f.side.sess)
    ensures Next(cfg, f, e) == f.(side := SendNow(cfg, f.side, OfferOf(f, e), e.now).0, offered := f.offered + 1,
                                  accepted := f.accepted + [f.offered], wire := f.wire + [f.offered])
  {
    assert FirstSerials(SendNow(cfg, f.side, OfferOf(f, e), e.now).1) == [f.offered];
  }

  lemma QueueNext(cfg: Config, f: Flow, e: Event)
    requires e.OfferMsg? && !Dropped(f, e) && !CanSend(f.side.sess)
    ensures Next(cfg, f, e) == f.(side := Waiter(f.side, OfferOf(f, e)), offered := f.offered + 1,
                                  accepted := f.accepted + [f.offered])
  {
    assert f.wire + [] == f.wire;
  }

  lemma AcceptOrdered(f: Flow, side: Side, queued: bool)
    requires Ordered(f)
    requires QueueSerials(side.sess.queue) == QueueSerials(f.side.sess.queue) + if queued then [f.offered] else []
    requires !queued ==> f.side.sess.queue == []
    ensures Ordered(f.(side := side, offered := f.offered + 1, accepted := f.accepted + [f.offered],
                       wire := if queued then f.wire else f.wire + [f.offered]))
  {
    WithoutAppend(f.accepted, f.expired, f.offered);
    var queue := QueueSerials(f.side.sess.queue);
    if queued {
      assert f.wire + (queue + [f.offered]) == f.wire + queue + [f.offered];
    } else {
      assert queue == [] && f.wire + [] == f.wire && f.wire + [f.offered] + [] == f.wire + [f.offered];
    }
  }

  lemma WithoutAppend(log: seq<nat>, gone: set<nat>, n: nat)
    requires n !in gone
    ensures Without(log + [n], gone) == Without(log, gone) + [n]
  {
    assert (log + [n])[..|log|] == log;
  }

  lemma {:induction false} GiveUpsNone(cfg: Config, s: Side, order: seq<PacketId>, now: int)
    requires forall id :: id in s.engine ==> !GivenUp(cfg, s.engine[id], now)
    ensures GiveUps(cfg, s.sess, s.engine, order, now) == s.sess
    decreases |order|
  {
    if order != [] {
      GiveUpsNone(cfg, s, order[..|order| - 1], now);
    }
  }

  lemma {:induction false} RetrySendsNoFirst(cfg: Config, sess: Session, engine: Engine, order: seq<PacketId>, now: int)
    ensures FirstSerials(RetrySends(cfg, sess, engine, order, now)) == []
    decreases |order|
  {
    if order != [] {
      var init, last := order[..|order| - 1], order[|order| - 1];
      RetrySendsNoFirst(cfg, sess, engine, init, now);
      FirstSerialsAppend(RetrySends(cfg, sess, engine, init, now), RetrySend(cfg, sess, engine, last, now));
    }
  }

  lemma TickInv(cfg: Config, f: Flow, e: Event)
    requires Inv(f) && e.Tick? && Enabled(f, e) && Patient(cfg, f, e)
    ensures Inv(Next(cfg, f, e))
  {
    assert f.wire + [] == f.wire;
    if cfg.retransmit {
      GiveUpsNone(cfg, f.side, e.order, e.now);
      RetrySendsNoFirst(cfg, f.side.sess, f.side.engine, e.order, e.now);
    }
  }

  // ---------------------------------------------------------------- theorems over runs

  lemma StepInv(cfg: Config, f: Flow, e: Event)
    requires Inv(f) && Enabled(f, e) && Patient(cfg, f, e)
    ensures Inv(Next(cfg, f, e))
  {
    match e
    case OfferMsg(_, _, _, _, _, _) => OfferInv(cfg, f, e);
    case Ack(p, now) => AckInv(cfg, f, p, now);
    case Tick(_, _) => TickInv(cfg, f, e);
  }

  lemma StartInv(window: nat)
    requires window <= MAX_ID
    ensures Inv(Start(window))
  {
  }

  lemma NextInv(cfg: Config, f: Flow, e: Event, g: Flow)
    requires Inv(f) && Step(cfg, f, e, g) && Patient(cfg, f, e)
    ensures Inv(g)
  {
    StepInv(cfg, f, e);
  }

  lemma {:induction false} RunInv(cfg: Config, window: nat, trace: seq<Flow>, events: seq<Event>, n: nat)
    requires window <= MAX_ID && IsRun(cfg, window, trace, events) && NoGiveUps(cfg, trace, events) && n < |trace|
    ensures Inv(trace[n])
  {
    if n > 0 {
      RunInv(cfg, window, trace, events, n - 1);
      NextInv(cfg, trace[n - 1], events[n - 1], trace[n]);
    } else {
      StartInv(window);
    }
  }

  /** Messages first reach the wire in the order in which they were accepted: what was sent, followed
      by what is queued, is the acceptance order with the expired ones left out. */
  lemma SentInAcceptanceOrder(cfg: Config, window: nat, trace: seq<Flow>, events: seq<Event>, n: nat)
    requires window <= MAX_ID && IsRun(cfg, window, trace, events) && NoGiveUps(cfg, trace, events) && n < |trace|
    ensures trace[n].wire + QueueSerials(trace[n].side.sess.queue) == Without(trace[n].accepted, trace[n].expired)
    ensures Ascending(trace[n].wire + QueueSerials(trace[n].side.sess.queue))
  {
    RunInv(cfg, window, trace, events, n);
    WithoutAscending(trace[n].accepted, trace[n].expired);
  }

  /** Behind a queue the window is full, as long as nothing is given up. */
  lemma WindowFullBehindQueue(cfg: Config, window: nat, trace: seq<Flow>, events: seq<Event>, n: nat)
    requires window <= MAX_ID && IsRun(cfg, window, trace, events) && NoGiveUps(cfg, trace, events) && n < |trace|
    ensures var s := trace[n].side.sess; s.queue != [] ==> s.unacked == s.window
  {
    RunInv(cfg, window, trace, events, n);
  }

  // ---------------------------------------------------------------- what give-ups do not touch

  /** Everything accepted was sent, is queued or has expired, and none of it twice. */
  ghost predicate Balanced(f: Flow) {
    && AddsUp(f.accepted, f.wire, QueueSerials(f.side.sess.queue), f.expired)
    && Ascending(f.accepted)
    && (forall i :: 0 <= i < |f.accepted| ==> f.accepted[i] < f.offered)
  }

  ghost predicate AddsUp(accepted: seq<nat>, wire: seq<nat>, queue: seq<nat>, expired: set<nat>) {
    multiset(accepted) == multiset(wire) + multiset(queue) + multiset(expired)
  }

  ghost predicate Base(f: Flow, window: nat) {
    Counted(f.side) && f.side.sess.window == window && Balanced(f)
  }

  lemma {:induction false} AscendingNoRepeats(log: seq<nat>, n: nat)
    requires Ascending(log)
    ensures multiset(log)[n] <= 1
    decreases |log|
  {
    if log != [] {
      var init := log[..|log| - 1];
      AscendingNoRepeats(init, n);
      assert log == init + [log[|log| - 1]];
      assert log[|log| - 1] !in init;
    }
  }

  lemma SendBalanced(f: Flow, side: Side)
    requires Balanced(f) && f.side.sess.queue != [] && side.sess.queue == f.side.sess.queue[1..]
    ensures Balanced(f.(side := side, wire := f.wire + [f.side.sess.queue[0].msg.serial]))
  {
  }

  lemma ExpireBalanced(f: Flow, side: Side)
    requires Balanced(f) && f.side.sess.queue != [] && side.sess.queue == f.side.sess.queue[1..]
    ensures Balanced(f.(side := side, expired := f.expired + {f.side.sess.queue[0].msg.serial}))
  {
    var n := f.side.sess.queue[0].msg.serial;
    AscendingNoRepeats(f.accepted, n);
    assert n in QueueSerials(f.side.sess.queue);
    assert n !in f.expired;
  }

  lemma PopBase(cfg: Config, f: Flow, window: nat, now: int)
    requires Base(f, window) && f.side.sess.queue != [] && CanSend(f.side.sess)
    ensures var popped := f.side.(sess := f.side.sess.(queue := f.side.sess.queue[1..]));
            var (sent, out) := Deliver(cfg, popped, f.side.sess.queue[0], now);
            Base(Moved(f, sent, out, Gone(f.side.sess.queue[0], now)), window)
  {
    var s, o := f.side, f.side.sess.queue[0];
    var popped := s.(sess := s.sess.(queue := s.sess.queue[1..]));
    var (sent, out) := Deliver(cfg, popped, o, now);
    if Expired(o, now) {
      ExpireBalanced(f, popped);
      assert f.wire + [] == f.wire;
    } else {
      SendNowCounted(cfg, popped, o, now);
      SendBalanced(f, sent);
      assert FirstSerials(out) == [o.msg.serial];
      assert f.expired + {} == f.expired;
    }
  }

  lemma {:induction false} FlushBase(cfg: Config, f: Flow, window: nat, now: int)
    requires Base(f, window)
    ensures var (t, out) := Flush(cfg, f.side, now); Base(Moved(f, t, out, FlushExpired(cfg, f.side, now)), window)
    decreases |f.side.sess.queue|
  {
    var s := f.side;
    if s.sess.queue == [] || !CanSend(s.sess) {
      assert f.wire + [] == f.wire && f.expired + {} == f.expired;
    } else {
      var popped := s.(sess := s.sess.(queue := s.sess.queue[1..]));
      var (sent, out) := Deliver(cfg, popped, s.sess.queue[0], now);
      var (t, more) := Flush(cfg, sent, now);
      var gone := Gone(s.sess.queue[0], now);
      PopBase(cfg, f, window, now);
      FlushBase(cfg, Moved(f, sent, out, gone), window, now);
      MovedTwice(f, sent, out, gone, t, more, FlushExpired(cfg, sent, now));
    }
  }

  lemma AckBase(cfg: Config, f: Flow, window: nat, p: Packet, now: int)
    requires Base(f, window)
    ensures Base(Next(cfg, f, Ack(p, now)), window)
  {
    if Flushes(p) {
      ReleaseCounted(f.side, p.id);
      FlushBase(cfg, f.(side := Release(f.side, p.id)), window, now);
      EndNext(cfg, f, p, now);
    } else {
      QuietCounted(cfg, f.side, p, now);
      SameBalanced(f, HandleAck(cfg, f.side, p, now).0);
      QuietNext(cfg, f, p, now);
    }
  }

  lemma SameBalanced(f: Flow, side: Side)
    requires Balanced(f) && side.sess.queue == f.side.sess.queue
    ensures Balanced(f.(side := side))
  {
  }

  lemma MoreOnBothSides(a: multiset<nat>, b: multiset<nat>, c: multiset<nat>, d: multiset<nat>, x: multiset<nat>)
    requires a == b + c + d
    ensures a + x == (b + x) + c + d && a + x == b + (c + x) + d
  {
  }

  lemma AddsUpMore(accepted: seq<nat>, wire: seq<nat>, queue: seq<nat>, expired: set<nat>, n: nat)
    requires AddsUp(accepted, wire, queue, expired)
    ensures AddsUp(accepted + [n], wire + [n], queue, expired) && AddsUp(accepted + [n], wire, queue + [n], expired)
  {
    MoreOnBothSides(multiset(accepted), multiset(wire), multiset(queue), multiset(expired), multiset{n});
    assert multiset(accepted + [n]) == multiset(accepted) + multiset{n};
    assert multiset(wire + [n]) == multiset(wire) + multiset{n};
    assert multiset(queue + [n]) == multiset(queue) + multiset{n};
  }

  lemma AcceptBalanced(f: Flow, side: Side, queued: bool)
    requires Balanced(f)
    requires QueueSerials(side.sess.queue) == QueueSerials(f.side.sess.queue) + if queued then [f.offered] else []
    ensures Balanced(f.(side := side, offered := f.offered + 1, accepted := f.accepted + [f.offered],
                        wire := f.wire + if queued then [] else [f.offered]))
  {
    AddsUpMore(f.accepted, f.wire, QueueSerials(f.side.sess.queue), f.expired, f.offered);
    assert f.wire + [] == f.wire && QueueSerials(f.side.sess.queue) + [] == QueueSerials(f.side.sess.queue);
  }

  lemma DropBalanced(f: Flow)
    requires Balanced(f)
    ensures Balanced(f.(offered := f.offered + 1))
  {
  }

  lemma OfferBase(cfg: Config, f: Flow, window: nat, e: Event)
    requires Base(f, window) && e.OfferMsg?
    ensures Base(Next(cfg, f, e), window)
  {
    var o, s := OfferOf(f, e), f.side;
    assert f.wire + [] == f.wire;
    if Dropped(f, e) {
      DropNext(cfg, f, e);
      DropBalanced(f);
    } else if CanSend(s.sess) {
      SendNext(cfg, f, e);
      SendNowCounted(cfg, s, o, e.now);
      AcceptBalanced(f, SendNow(cfg, s, o, e.now).0, false);
    } else {
      QueueNext(cfg, f, e);
      QueueSerialsAppend(s.sess.queue, o);
      AcceptBalanced(f, Waiter(s, o), true);
    }
  }

  lemma TickBase(cfg: Config, f: Flow, window: nat, e: Event)
    requires Base(f, window) && e.Tick? && Enabled(f, e)
    ensures Base(Next(cfg, f, e), window)
  {
    assert f.wire + [] == f.wire;
    if cfg.retransmit {
      var sess := GiveUps(cfg, f.side.sess, f.side.engine, e.order, e.now);
      GiveUpsCounted(cfg, f.side, e.order, e.now);
      RetrySendsNoFirst(cfg, sess, f.side.engine, e.order, e.now);
    }
  }

  lemma NextBase(cfg: Config, f: Flow, e: Event, g: Flow, window: nat)
    requires Base(f, window) && Step(cfg, f, e, g)
    ensures Base(g, window)
  {
    match e
    case OfferMsg(_, _, _, _, _, _) => OfferBase(cfg, f, window, e);
    case Ack(p, now) => AckBase(cfg, f, window, p, now);
    case Tick(_, _) => TickBase(cfg, f, window, e);
  }

  lemma {:induction false} RunBase(cfg: Config, window: nat, trace: seq<Flow>, events: seq<Event>, n: nat)
    requires window <= MAX_ID && IsRun(cfg, window, trace, events) && n < |trace|
    ensures Base(trace[n], window)
  {
    if n > 0 {
      RunBase(cfg, window, trace, events, n - 1);
      NextBase(cfg, trace[n - 1], events[n - 1], trace[n], window);
    }
  }

  /** Nothing accepted is lost or duplicated: in every run accepted = sent + queued + expired, message by message. */
  lemma AcceptedIsAccountedFor(cfg: Config, window: nat, trace: seq<Flow>, events: seq<Event>, n: nat)
    requires window <= MAX_ID && IsRun(cfg, window, trace, events) && n < |trace|
    ensures var f := trace[n];
            multiset(f.accepted)
            == multiset(f.wire) + multiset(QueueSerials(f.side.sess.queue)) + multiset(f.expired)
    ensures forall x :: multiset(trace[n].accepted)[x] <= 1
  {
    RunBase(cfg, window, trace, events, n);
    forall x ensures multiset(trace[n].accepted)[x] <= 1 {
      AscendingNoRepeats(trace[n].accepted, x);
    }
  }

  // ---------------------------------------------------------------- deadlines

  /** The deadline has passed. */
  predicate Late(o: Offer, now: int) {
    o.expiresAt != 0 && now > o.expiresAt
  }

  /** A message is taken if and only if its deadline has not passed and there is room in the window or the queue. */
  lemma TakenIff(cfg: Config, f: Flow, e: Event)
    requires e.OfferMsg?
    ensures Next(cfg, f, e).accepted ==
            if !Late(OfferOf(f, e), e.now) && (f.side.sess.unacked < f.side.sess.window || |f.side.sess.queue| < 1000)
            then f.accepted + [f.offered] else f.accepted
  {
  }

  lemma {:induction false} FlushExpiredLate(cfg: Config, s: Side, now: int, n: nat)
    requires n in FlushExpired(cfg, s, now)
    ensures exists i :: 0 <= i < |s.sess.queue| && s.sess.queue[i].msg.serial == n && Late(s.sess.queue[i], now)
    decreases |s.sess.queue|
  {
    var o := s.sess.queue[0];
    var popped := s.(sess := s.sess.(queue := s.sess.queue[1..]));
    if !(o.msg.serial == n && Late(o, now)) {
      var sent := Deliver(cfg, popped, o, now).0;
      FlushExpiredLate(cfg, sent, now, n);
      var i :| 0 <= i < |sent.sess.queue| && sent.sess.queue[i].msg.serial == n && Late(sent.sess.queue[i], now);
      assert s.sess.queue[i + 1] == sent.sess.queue[i];
    }
  }

  lemma {:induction false} FlushQueue(cfg: Config, s: Side, now: int, o: Offer)
    requires o in Flush(cfg, s, now).0.sess.queue
    ensures o in s.sess.queue
    decreases |s.sess.queue|
  {
    if s.sess.queue != [] && CanSend(s.sess) {
      var popped := s.(sess := s.sess.(queue := s.sess.queue[1..]));
      FlushQueue(cfg, Deliver(cfg, popped, s.sess.queue[0], now).0, now, o);
    }
  }

  lemma {:induction false} GiveUpsQueue(cfg: Config, sess: Session, engine: Engine, order: seq<PacketId>, now: int)
    ensures GiveUps(cfg, sess, engine, order, now).queue == sess.queue
    decreases |order|
  {
    if order != [] {
      GiveUpsQueue(cfg, sess, engine, order[..|order| - 1], now);
    }
  }

  /** What waits after an event waited before it or was offered by it. */
  lemma QueuedBefore(cfg: Config, f: Flow, e: Event, o: Offer)
    requires o in Next(cfg, f, e).side.sess.queue
    ensures o in f.side.sess.queue || (e.OfferMsg? && o == OfferOf(f, e))
  {
    if e.Ack? && Flushes(e.packet) {
      FlushQueue(cfg, Release(f.side, e.packet.id), e.now, o);
    } else if e.Tick? {
      GiveUpsQueue(cfg, f.side.sess, f.side.engine, e.order, e.now);
    }
  }

  /** What expires in an event waited before it, past its deadline. */
  lemma ExpiredBefore(cfg: Config, f: Flow, e: Event, n: nat)
    requires n in Next(cfg, f, e).expired && n !in f.expired
    ensures e.Ack? && exists o :: o in f.side.sess.queue && o.msg.serial == n && Late(o, e.now)
  {
    FlushExpiredLate(cfg, Release(f.side, e.packet.id), e.now, n);
  }

  /** Event i of the run offered this message. */
  ghost predicate OfferedAt(trace: seq<Flow>, events: seq<Event>, i: nat, o: Offer)
    requires |trace| == |events| + 1
  {
    i < |events| && events[i].OfferMsg? && o == OfferOf(trace[i], events[i])
  }

  lemma {:induction false} QueuedWasOffered(cfg: Config, window: nat, trace: seq<Flow>, events: seq<Event>, n: nat,
                                            o: Offer) returns (i: nat)
    requires IsRun(cfg, window, trace, events) && n < |trace| && o in trace[n].side.sess.queue
    ensures i < n && OfferedAt(trace, events, i, o)
  {
    if n > 0 {
      assert Step(cfg, trace[n - 1], events[n - 1], trace[n]);
      QueuedBefore(cfg, trace[n - 1], events[n - 1], o);
      if o in trace[n - 1].side.sess.queue {
        i := QueuedWasOffered(cfg, window, trace, events, n - 1, o);
      } else {
        i := n - 1;
      }
    }
  }

  /** In every run, a message that expired in the queue was offered with a deadline, and an acknowledgement found the
  deadline passed. */
  lemma {:induction false} ExpiredWasLate(cfg: Config, window: nat, trace: seq<Flow>, events: seq<Event>, n: nat,
                                          serial: nat) returns (i: nat, j: nat)
    requires IsRun(cfg, window, trace, events) && n < |trace| && serial in trace[n].expired
    ensures i < j < n && events[i].OfferMsg? && trace[i].offered == serial && events[j].Ack?
    ensures events[i].expiresAt != 0 && events[j].now > events[i].expiresAt
  {
    assert n > 0;
    assert Step(cfg, trace[n - 1], events[n - 1], trace[n]);
    if serial in trace[n - 1].expired {
      i, j := ExpiredWasLate(cfg, window, trace, events, n - 1, serial);
    } else {
      ExpiredBefore(cfg, trace[n - 1], events[n - 1], serial);
      var o :| o in trace[n - 1].side.sess.queue && o.msg.serial == serial && Late(o, events[n - 1].now);
      j := n - 1;
      i := QueuedWasOffered(cfg, window, trace, events, j, o);
    }
  }

  /** In every run from a fresh session the counter is the number of records and never exceeds the window, which stays
  as it is, and a free packet identifier exists for every send. */
  lemma WindowIsExact(cfg: Config, window: nat, trace: seq<Flow>, events: seq<Event>, n: nat)
    requires window <= MAX_ID && IsRun(cfg, window, trace, events) && n < |trace|
    ensures var s := trace[n].side.sess;
            && s.unacked == |s.inflight| <= s.window == window
            && (CanSend(s) ==> NextId(s).0 !in s.inflight)
  {
    RunBase(cfg, window, trace, events, n);
    if CanSend(trace[n].side.sess) {
      NextIdUnused(trace[n].side.sess);
    }
  }

  // ---------------------------------------------------------------- giving up is what breaks it

  lemma {:induction false} GiveUpsCounted(cfg: Config, s: Side, order: seq<PacketId>, now: int)
    requires Counted(s) && forall i, j :: 0 <= i < j < |order| ==> order[i] != order[j]
    ensures var r := GiveUps(cfg, s.sess, s.engine, order, now);
            && r.unacked == |r.inflight| <= s.sess.unacked && r.window == s.sess.window && r.queue == s.sess.queue
            && (forall id :: id in r.inflight <==>
                  id in s.sess.inflight && !(id in order && id in s.engine && GivenUp(cfg, s.engine[id], now)))
            && (r.unacked == s.sess.unacked <==>
                  forall i :: 0 <= i < |order| ==> !(order[i] in s.engine && GivenUp(cfg, s.engine[order[i]], now)))
    decreases |order|
  {
    if order != [] {
      var init, last := order[..|order| - 1], order[|order| - 1];
      GiveUpsCounted(cfg, s, init, now);
      var r := GiveUps(cfg, s.sess, s.engine, init, now);
      assert order == init + [last];
      if last in r.inflight {
        assert (r.inflight - {last}).Keys == r.inflight.Keys - {last};
        assert |r.inflight.Keys - {last}| == |r.inflight.Keys| - 1;
      }
    }
  }

  /** With messages queued, a retry pass keeps the window full if and only if it gives nothing up; the
      session is not flushed after a give-up, so a later message would then overtake the queue. */
  lemma WindowStaysFullIffNoGiveUp(cfg: Config, s: Side, order: seq<PacketId>, now: int)
    requires cfg.retransmit && Counted(s) && Full(s) && s.sess.queue != [] && Enumerates(order, s.engine.Keys)
    ensures Full(Retry(cfg, s, order, now).0) <==> forall id :: id in s.engine ==> !GivenUp(cfg, s.engine[id], now)
  {
    GiveUpsCounted(cfg, s, order, now);
    if forall i :: 0 <= i < |order| ==> !(order[i] in s.engine && GivenUp(cfg, s.engine[order[i]], now)) {
      forall id | id in s.engine ensures !GivenUp(cfg, s.engine[id], now) {
        assert id in order;
      }
    }
  }

  // ---------------------------------------------------------------- order over every run

  /** The clock never goes back, and shows `now` at the latest. */
  ghost predicate InTime(events: seq<Event>, now: int) {
    && (forall i, j :: 0 <= i < j < |events| ==> events[i].now <= events[j].now)
    && (forall i :: 0 <= i < |events| ==> events[i].now <= now)
  }

  ghost predicate Reach(cfg: Config, window: nat, f: Flow, now: int) {
    exists trace, events :: IsRun(cfg, window, trace, events) && trace[|events|] == f && InTime(events, now)
  }

  lemma ReachStep(cfg: Config, window: nat, f: Flow, e: Event, now: int)
    requires Reach(cfg, window, f, now) && Enabled(f, e) && now <= e.now
    ensures Reach(cfg, window, Next(cfg, f, e), e.now)
  {
    var trace, events :| IsRun(cfg, window, trace, events) && trace[|events|] == f && InTime(events, now);
    var longer, more := trace + [Next(cfg, f, e)], events + [e];
    forall i | 0 <= i < |more| ensures Step(cfg, longer[i], more[i], longer[i + 1]) {
      if i < |events| {
        assert Step(cfg, trace[i], events[i], trace[i + 1]);
      }
    }
    assert IsRun(cfg, window, longer, more) && longer[|more|] == Next(cfg, f, e) && InTime(more, e.now);
  }

  /** Every tracked delivery was last sent at `at` and retried equally often. */
  ghost predicate Alike(engine: Engine, at: int, retries: nat) {
    forall id :: id in engine ==> engine[id].sentAt == at && engine[id].retries == retries
  }

  /** `k` messages out and unacknowledged at time 0, nothing queued. */
  ghost predicate Filling(f: Flow, window: nat, k: nat) {
    && Counted(f.side) && f.side.sess.window == window && f.side.sess.unacked == k && f.side.sess.queue == []
    && Alike(f.side.engine, 0, 0) && (k > 0 ==> f.side.engine != map[])
  }

  /** The window is full, one message waits, and everything tracked stands alike. */
  ghost predicate Waiting(f: Flow, at: int, retries: nat) {
    && Counted(f.side) && !CanSend(f.side.sess) && f.side.sess.window > 0
    && Alike(f.side.engine, at, retries) && f.side.engine != map[]
    && |f.side.sess.queue| == 1 && f.side.sess.queue[0].expiresAt == 0
    && f.side.sess.queue[0].msg.serial < f.offered
  }

  function Send(now: int): Event {
    OfferMsg(1, "t", [], false, 0, now)
  }

  lemma FillStep(cfg: Config, f: Flow, window: nat, k: nat)
    requires Filling(f, window, k) && k < window
    ensures Filling(Next(cfg, f, Send(0)), window, k + 1)
  {
    SendNowCounted(cfg, f.side, OfferOf(f, Send(0)), 0);
    var id := NextId(f.side.sess).0;
    var t := Next(cfg, f, Send(0));
    assert f.side.engine == map[] ==> id in t.side.engine;
  }

  lemma {:induction false} ReachFilled(cfg: Config, window: nat, k: nat) returns (f: Flow)
    requires k <= window <= MAX_ID
    ensures Reach(cfg, window, f, 0) && Filling(f, window, k)
  {
    if k == 0 {
      f := Start(window);
      var none: seq<Event> := [];
      assert IsRun(cfg, window, [f], none) && [f][|none|] == f && InTime(none, 0);
    } else {
      var g := ReachFilled(cfg, window, k - 1);
      FillStep(cfg, g, window, k - 1);
      ReachStep(cfg, window, g, Send(0), 0);
      f := Next(cfg, g, Send(0));
    }
  }

  /** With nothing acknowledged, retry passes only count up, until one gives up all that is tracked and so opens the
  window behind the queue, which nothing flushes. */
  lemma {:induction false} ReachOpened(cfg: Config, window: nat, f: Flow, at: int, retries: nat)
    returns (g: Flow, now: int)
    requires cfg.retransmit && Reach(cfg, window, f, at) && Waiting(f, at, retries)
    ensures Reach(cfg, window, g, now) && Counted(g.side) && CanSend(g.side.sess)
    ensures g.side.sess.queue == f.side.sess.queue && g.offered == f.offered
    decreases cfg.maxRetries - retries
  {
    now := at + if cfg.retryInterval > 0 then cfg.retryInterval else 0;
    var order := AnyOrder(f.side.engine.Keys);
    g := Next(cfg, f, Tick(order, now));
    ReachStep(cfg, window, f, Tick(order, now), at);
    if retries < cfg.maxRetries {
      PassCounts(cfg, f, at, retries, order, now);
      g, now := ReachOpened(cfg, window, g, now, retries + 1);
    } else {
      PassOpens(cfg, f, at, retries, order, now);
    }
  }

  lemma PassCounts(cfg: Config, f: Flow, at: int, retries: nat, order: seq<PacketId>, now: int)
    requires cfg.retransmit && Waiting(f, at, retries) && Enumerates(order, f.side.engine.Keys)
    requires now - at >= cfg.retryInterval && retries < cfg.maxRetries
    ensures var g := Next(cfg, f, Tick(order, now));
            Waiting(g, now, retries + 1) && g.side.sess.queue == f.side.sess.queue && g.offered == f.offered
  {
    GiveUpsNone(cfg, f.side, order, now);
    assert RetryEngine(cfg, f.side.engine, now).Keys == f.side.engine.Keys;
  }

  lemma PassOpens(cfg: Config, f: Flow, at: int, retries: nat, order: seq<PacketId>, now: int)
    requires cfg.retransmit && Waiting(f, at, retries) && Enumerates(order, f.side.engine.Keys)
    requires now - at >= cfg.retryInterval && retries >= cfg.maxRetries
    ensures var g := Next(cfg, f, Tick(order, now));
            Counted(g.side) && CanSend(g.side.sess) && g.side.sess.queue == f.side.sess.queue && g.offered == f.offered
  {
    GiveUpsCounted(cfg, f.side, order, now);
    var id :| id in f.side.engine;
    assert id in order;
    assert RetryEngine(cfg, f.side.engine, now) == map[];
  }

  /** What is sent next overtakes what waits, and the next acknowledgement sends that after it. */
  lemma Overtakes(cfg: Config, f: Flow, now: int, id: PacketId)
    requires Counted(f.side) && CanSend(f.side.sess) && |f.side.sess.queue| == 1
    requires f.side.sess.queue[0].expiresAt == 0 && f.side.sess.queue[0].msg.serial < f.offered
    requires id in Next(cfg, f, Send(now)).side.sess.inflight
    ensures !Ascending(Next(cfg, Next(cfg, f, Send(now)), Ack(PubAck(id), now)).wire)
  {
    var g := Next(cfg, f, Send(now));
    SendNowCounted(cfg, f.side, OfferOf(f, Send(now)), now);
    var first := Deliver(cfg, f.side, OfferOf(f, Send(now)), now).1;
    assert FirstSerials(first) == [f.offered];
    assert g.wire == f.wire + [f.offered];
    var s := Release(g.side, id);
    var head := g.side.sess.queue[0];
    var popped := s.(sess := s.sess.(queue := s.sess.queue[1..]));
    var out := Deliver(cfg, popped, head, now).1;
    assert Flush(cfg, s, now).1 == out + [];
    assert FirstSerials(out) == [head.msg.serial];
    var h := Next(cfg, g, Ack(PubAck(id), now));
    assert h.wire == f.wire + [f.offered] + [head.msg.serial];
    assert h.wire[|f.wire|] > h.wire[|f.wire| + 1];
  }

  lemma ReachOvertaken(cfg: Config, window: nat)
    requires cfg.retransmit && 0 < window <= MAX_ID
    ensures exists f, now :: Reach(cfg, window, f, now) && !Ascending(f.wire)
  {
    var f := ReachFilled(cfg, window, window);
    ReachStep(cfg, window, f, Send(0), 0);
    var g, now := ReachOpened(cfg, window, Next(cfg, f, Send(0)), 0, 0);
    ReachStep(cfg, window, g, Send(now), now);
    var h := Next(cfg, g, Send(now));
    var id := NextId(g.side.sess).0;
    assert id in h.side.sess.inflight;
    ReachStep(cfg, window, h, Ack(PubAck(id), now), now);
    Overtakes(cfg, g, now, id);
  }

  /** Without retransmission, or with a window that lets nothing out, there is nothing to give up. */
  lemma CalmStep(cfg: Config, f: Flow, e: Event)
    requires Counted(f.side) && !(cfg.retransmit && f.side.sess.window > 0)
    ensures Patient(cfg, f, e)
  {
    if f.side.sess.window == 0 {
      assert f.side.sess.inflight.Keys == {};
    }
  }

  lemma CalmNoGiveUps(cfg: Config, window: nat, trace: seq<Flow>, events: seq<Event>)
    requires window <= MAX_ID && IsRun(cfg, window, trace, events) && !(cfg.retransmit && window > 0)
    ensures NoGiveUps(cfg, trace, events)
  {
    forall i | 0 <= i < |events| ensures Patient(cfg, trace[i], events[i]) {
      RunBase(cfg, window, trace, events, i);
      CalmStep(cfg, trace[i], events[i]);
    }
  }

  lemma AscendingPart(a: seq<nat>, b: seq<nat>)
    requires Ascending(a + b)
    ensures Ascending(a)
  {
    forall i, j | 0 <= i < j < |a| ensures a[i] < a[j] {
      assert (a + b)[i] < (a + b)[j];
    }
  }

  /** Over every run, give-ups included, messages first reach the wire in acceptance order if and only if the broker
  does not retransmit in connection or the client lets it send nothing. */
  lemma InOrderIff(cfg: Config, window: nat)
    requires window <= MAX_ID
    ensures (forall f, now :: Reach(cfg, window, f, now) ==> Ascending(f.wire)) <==> !(cfg.retransmit && window > 0)
  {
    if cfg.retransmit && window > 0 {
      ReachOvertaken(cfg, window);
    } else {
      forall f, now | Reach(cfg, window, f, now) ensures Ascending(f.wire) {
        var trace, events :| IsRun(cfg, window, trace, events) && trace[|events|] == f && InTime(events, now);
        CalmNoGiveUps(cfg, window, trace, events);
        SentInAcceptanceOrder(cfg, window, trace, events, |events|);
        AscendingPart(f.wire, QueueSerials(f.side.sess.queue));
      }
    }
  }
}
