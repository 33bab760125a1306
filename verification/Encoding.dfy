/** The encoders, packet by packet, and the proof that what they write is what the decoders read. */
module Encoding {
  import opened Basics
  import opened Packets
  import opened Properties
  import opened Wire

  // ---------------------------------------------------------------- the fixed header

  function FirstByte(kind: nat, dup: bool, qos: nat, retain: bool): nat {
    16 * kind + (if dup then 8 else 0) + 2 * (qos % 4) + (if retain then 1 else 0)
  }

  function EncodeHeader(kind: nat, dup: bool, qos: nat, retain: bool, remaining: nat): Bytes
    requires kind < 16
  {
    [FirstByte(kind, dup, qos, retain)] + VarEnc(remaining)
  }

  lemma FirstByteBits(kind: nat, dup: bool, qos: nat, retain: bool)
    requires kind < 16 && qos < 4
    ensures var b := FirstByte(kind, dup, qos, retain);
      b < 256 && b / 16 == kind && ((b / 8) % 2 == 1 <==> dup) && (b / 2) % 4 == qos && (b % 2 == 1 <==> retain)
  {
    var b := FirstByte(kind, dup, qos, retain);
    assert qos % 4 == qos;
    assert b / 8 == 2 * kind + (if dup then 1 else 0);
    assert b / 2 == 4 * (2 * kind + (if dup then 1 else 0)) + qos;
  }

  lemma HeaderRoundTrip(kind: nat, dup: bool, qos: nat, retain: bool, remaining: nat, t: Bytes)
    requires kind < 16 && qos < 4 && remaining <= MAX_VARINT
    ensures DecodeHeader(EncodeHeader(kind, dup, qos, retain, remaining) + t)
         == Got(Header(kind, dup, qos, retain, remaining, 1 + |VarEnc(remaining)|), t)
  {
    var s := EncodeHeader(kind, dup, qos, retain, remaining) + t;
    FirstByteBits(kind, dup, qos, retain);
    assert s[1..] == VarEnc(remaining) + t;
    RemainingLengthBijection(remaining, t, s[1..]);
  }

  /** Where the fields of a fixed header stand: the kind in the high half of the first byte, below it DUP, the level and
  RETAIN, then the shortest encoding of the Remaining Length. */
  lemma HeaderPlaces(s: Bytes)
    requires DecodeHeader(s).Got?
    ensures var (h, rest) := (DecodeHeader(s).value, DecodeHeader(s).rest);
            && h.kind < 16 && h.qos < 4
            && At(s, 0) == 16 * h.kind + Weight(h.dup, 8) + 2 * h.qos + Weight(h.retain, 1)
            && s[1..] == VarEnc(h.remaining) + rest && h.size == 1 + |VarEnc(h.remaining)|
  {
    FirstBytePlaces(At(s, 0));
    RemainingLengthBijection(DecodeHeader(s).value.remaining, DecodeHeader(s).rest, s[1..]);
  }

  lemma FirstBytePlaces(b: nat)
    ensures b == 16 * (b / 16) + Weight((b / 8) % 2 == 1, 8) + 2 * ((b / 2) % 4) + Weight(b % 2 == 1, 1)
  {
    var c := b / 2;
    Halves(b);
    assert c == 4 * (c / 4) + c % 4;
    assert c / 4 == b / 8;
    Halves(b / 8);
    assert (b / 8) / 2 == b / 16;
    BitWeight(b / 8, 8);
    BitWeight(b, 1);
  }

  // ---------------------------------------------------------------- encoding

  function WriteSection(v5: bool, props: Props, l: Locus): Outcome<Bytes> {
    if v5 then EncodeSection(props, l)
    else if props.None? then Done([])
    else Fail(Unsupported)
  }

  function EncodePublish(v5: bool, p: Packet): Outcome<Bytes>
    requires p.Publish?
  {
    if !NameOk(v5, p.topic, p.props) then Fail(Malformed)
    else if (p.qos == 0) != (p.id == 0) then Fail(Malformed)
    else if !Sendable(p.topic) then Fail(BadText)
    else
      match WriteSection(v5, p.props, InPublish)
      case Fail(e) => Fail(e)
      case Done(section) => Done(EncBin(p.topic) + IdBytes(p.qos, p.id) + section + p.payload)
  }

  /** A reason code and properties that are left away if there is nothing to say; only MQTT 5.0 has them. */
  function EncodeReason(v5: bool, reason: nat, props: Props, l: Locus): Outcome<Bytes> {
    if !v5 && (reason != 0 || props.Some?) then Fail(Malformed)
    else if props.Some? then
      match EncodeProperties(props.value, l)
      case Fail(e) => Fail(e)
      case Done(section) => Done([reason % 256] + section)
    else Done(if reason != 0 then [reason % 256] else [])
  }

  function EncodeAck(v5: bool, p: Packet): Outcome<Bytes>
    requires p.Ack?
  {
    if p.id == 0 then Fail(Malformed)
    else
      match EncodeReason(v5, p.reason, p.props, InAck)
      case Fail(e) => Fail(e)
      case Done(tail) => Done(Enc16(p.id % 0x1_0000) + tail)
  }

  function EncodeDisconnect(v5: bool, p: Packet): Outcome<Bytes>
    requires p.Disconnect?
  {
    EncodeReason(v5, p.reason, p.props, InDisconnect)
  }

  function EncodeAuth(v5: bool, p: Packet): Outcome<Bytes>
    requires p.Auth?
  {
    if !v5 then Fail(InvalidPacket)
    else if !AuthReason(p.reason) then Fail(Malformed)
    else EncodeReason(v5, p.reason, p.props, InAuth)
  }

  /** `session` says whether the version has a session present flag; MQTT 3.1 has none. */
  function EncodeConnAck(v5: bool, session: bool, p: Packet): Outcome<Bytes>
    requires p.ConnAck?
  {
    match WriteSection(v5, p.props, InConnAck)
    case Fail(e) => Fail(e)
    case Done(section) => Done([if p.present && session then 1 else 0, p.reason % 256] + section)
  }

  /** An identifier, the property section and reason codes. */
  function EncodeCodes(id: nat, section: Outcome<Bytes>, codes: Bytes): Outcome<Bytes> {
    if id == 0 then Fail(Malformed)
    else if section.Fail? then section
    else Done(Enc16(id % 0x1_0000) + section.value + codes)
  }

  function EncodeSubAck(v5: bool, p: Packet): Outcome<Bytes>
    requires p.SubAck?
  {
    EncodeCodes(p.id, WriteSection(v5, p.props, InSubAck), p.codes)
  }

  function EncodeUnsubAck(v5: bool, p: Packet): Outcome<Bytes>
    requires p.UnsubAck?
  {
    if !v5 && (p.codes != [] || p.props.Some?) then Fail(Malformed)
    else EncodeCodes(p.id, WriteSection(v5, p.props, InUnsubAck), p.codes)
  }

  /** The byte of connect flags. The reserved bit is never written, and the level of a will only with a will. */
  function FlagsByte(f: ConnectFlags): nat {
    Weight(f.username, 128) + Weight(f.password, 64) + Weight(f.willRetain, 32)
    + (if f.will then 4 + 8 * (f.willQoS % 4) else 0) + Weight(f.clean, 2)
  }

  /** A string field that is written if its flag is set. */
  function EncodeText(flag: bool, d: Bytes): Outcome<Bytes> {
    if !flag then Done([]) else if Sendable(d) then Done(EncBin(d)) else Fail(BadText)
  }

  /** Binary data that is written if its flag is set. */
  function EncodeData(flag: bool, d: Bytes): Outcome<Bytes> {
    if !flag then Done([]) else if |d| < 0x1_0000 then Done(EncBin(d)) else Fail(Malformed)
  }

  function EncodeWill(v5: bool, flag: bool, will: Option<Will>): Outcome<Bytes> {
    if !flag then Done([])
    else
      var w := if will.Some? then will.value else Will([], [], None);
      var section, topic, message :=
        WriteSection(v5, w.props, InWill), EncodeText(true, w.topic), EncodeData(true, w.message);
      if section.Fail? then section
      else if topic.Fail? then topic
      else if message.Fail? then message
      else Done(section.value + (topic.value + message.value))
  }

  /** A CONNECT is written by the version it announces itself. */
  function EncodeConnect(p: Packet): Outcome<Bytes>
    requires p.Connect?
  {
    var v5 := p.version % 256 == 5;
    var name, section, client := EncodeText(true, p.name), WriteSection(v5, p.props, InConnect),
      EncodeText(true, p.client);
    var will, username, password := EncodeWill(v5, p.flags.will, p.will), EncodeText(p.flags.username, p.username),
      EncodeData(p.flags.password, p.password);
    if name.Fail? then name
    else if section.Fail? then section
    else if client.Fail? then client
    else if will.Fail? then will
    else if username.Fail? then username
    else if password.Fail? then password
    else Done(name.value + ([p.version % 256, FlagsByte(p.flags)] + (Enc16(p.keepAlive % 0x1_0000) + (section.value
      + (client.value + (will.value + (username.value + password.value)))))))
  }

  /** An identifier, the property section and a list that may not be empty. */
  function EncodeListed(id: nat, section: Outcome<Bytes>, list: Outcome<Bytes>, empty: bool): Outcome<Bytes> {
    if id == 0 then Fail(Malformed)
    else if section.Fail? then section
    else if list.Fail? then list
    else if empty then Fail(Malformed)
    else Done(Enc16(id % 0x1_0000) + section.value + list.value)
  }

  function EncodeSubscribe(v5: bool, p: Packet): Outcome<Bytes>
    requires p.Subscribe?
  {
    EncodeListed(p.id, WriteSection(v5, p.props, InSubscribe), EncodeFilters(p.filters), p.filters == [])
  }

  function EncodeUnsubscribe(v5: bool, p: Packet): Outcome<Bytes>
    requires p.Unsubscribe?
  {
    EncodeListed(p.id, WriteSection(v5, p.props, InUnsubscribe), EncodeTopics(p.topics), p.topics == [])
  }

  /** The flags the encoder puts in the first byte. */
  function QosBits(p: Packet): nat {
    if p.Publish? then p.qos
    else if (p.Ack? && p.kind == PUBREL) || p.Subscribe? || p.Unsubscribe? then 1
    else 0
  }

  predicate DupBit(p: Packet) {
    (p.Publish? || p.Ack? || p.Subscribe? || p.Unsubscribe?) && p.dup
  }

  predicate RetainBit(p: Packet) {
    p.Publish? && p.retain
  }

  /** An acknowledgement is one of four kinds; every other packet is of its own. */
  predicate Encodable(p: Packet) {
    p.Ack? ==> PUBACK <= p.kind <= PUBCOMP
  }

  function KindBits(p: Packet): (k: nat)
    requires Encodable(p)
    ensures k < 16
  {
    match p
    case Connect(_, _, _, _, _, _, _, _, _) => CONNECT
    case ConnAck(_, _, _) => CONNACK
    case Publish(_, _, _, _, _, _, _) => PUBLISH
    case Ack(kind, _, _, _, _) => kind
    case Subscribe(_, _, _, _) => SUBSCRIBE
    case SubAck(_, _, _) => SUBACK
    case Unsubscribe(_, _, _, _) => UNSUBSCRIBE
    case UnsubAck(_, _, _) => UNSUBACK
    case PingReq => PINGREQ
    case PingResp => PINGRESP
    case Disconnect(_, _) => DISCONNECT
    case Auth(_, _) => AUTH
  }

  function EncodeBody(v5: bool, p: Packet): Outcome<Bytes>
    requires Encodable(p)
  {
    match p
    case Connect(_, _, _, _, _, _, _, _, _) => EncodeConnect(p)
    case ConnAck(_, _, _) => EncodeConnAck(v5, true, p)
    case Publish(_, _, _, _, _, _, _) => EncodePublish(v5, p)
    case Ack(_, _, _, _, _) => EncodeAck(v5, p)
    case Subscribe(_, _, _, _) => EncodeSubscribe(v5, p)
    case SubAck(_, _, _) => EncodeSubAck(v5, p)
    case Unsubscribe(_, _, _, _) => EncodeUnsubscribe(v5, p)
    case UnsubAck(_, _, _) => EncodeUnsubAck(v5, p)
    case PingReq => Done([])
    case PingResp => Done([])
    case Disconnect(_, _) => EncodeDisconnect(v5, p)
    case Auth(_, _) => EncodeAuth(v5, p)
  }

  function EncodePacket(v5: bool, p: Packet): Outcome<Bytes>
    requires Encodable(p)
  {
    if !FlagsOk(Header(KindBits(p), DupBit(p), QosBits(p), RetainBit(p), 0, 0)) then Fail(InvalidPacket)
    else
      match EncodeBody(v5, p)
      case Fail(e) => Fail(e)
      case Done(b) => Done(EncodeHeader(KindBits(p), DupBit(p), QosBits(p), RetainBit(p), |b|) + b)
  }

  function Options(f: TopicFilter): nat {
    Bits(f.qos % 4, f.noLocal, f.retainAsPublished, f.retainHandling % 4)
  }

  function EncodeFilter(f: TopicFilter): Outcome<Bytes> {
    if f.qos > 2 || f.retainHandling > 2 then Fail(Malformed)
    else if !Sendable(f.topic) then Fail(BadText)
    else Done(EncBin(f.topic) + [Options(f)])
  }

  function EncodeTopic(t: Bytes): Outcome<Bytes> {
    if Sendable(t) then Done(EncBin(t)) else Fail(BadText)
  }

  function EncodeList<T>(enc: T -> Outcome<Bytes>, xs: seq<T>): Outcome<Bytes> {
    if xs == [] then Done([])
    else
      match enc(xs[0])
      case Fail(e) => Fail(e)
      case Done(b) => match EncodeList(enc, xs[1..]) case Fail(e) => Fail(e) case Done(rest) => Done(b + rest)
  }

  function EncodeFilters(fs: seq<TopicFilter>): Outcome<Bytes> {
    EncodeList(EncodeFilter, fs)
  }

  function EncodeTopics(ts: seq<Bytes>): Outcome<Bytes> {
    EncodeList(EncodeTopic, ts)
  }

  // ---------------------------------------------------------------- lists of filters and topics, exactly

  lemma TextExact(s: Bytes, d: Bytes, rest: Bytes)
    ensures DecText(s) == Got(d, rest) <==> Sendable(d) && s == EncBin(d) + rest
  {
    if DecText(s) == Got(d, rest) {
      DecTextUses(s);
      TextBack(s, |d|);
    }
    if Sendable(d) && s == EncBin(d) + rest {
      TextDecodes(d, rest);
    }
  }

  lemma TextBack(s: Bytes, n: nat)
    requires 2 + n <= |s| && n == At(s, 0) * 256 + At(s, 1)
    ensures s == EncBin(s[2..2 + n]) + s[2 + n..]
  {
    TwoBytes(At(s, 0), At(s, 1));
    SmallMod(n, 0x1_0000);
    assert Enc16(n) == s[..2];
    assert s == s[..2] + (s[2..2 + n] + s[2 + n..]);
  }

  lemma TwoBytes(a: nat, b: nat)
    requires a < 256 && b < 256
    ensures (a * 256 + b) / 256 == a && (a * 256 + b) % 256 == b && a * 256 + b < 0x1_0000
  {
  }

  /** Before MQTT 5.0 the byte carries a QoS and nothing else. */
  predicate Representable(v5: bool, f: TopicFilter) {
    v5 || (!f.noLocal && !f.retainAsPublished && f.retainHandling == 0)
  }

  function Bits(qos: nat, noLocal: bool, retain: bool, handling: nat): nat {
    qos + (if noLocal then 4 else 0) + (if retain then 8 else 0) + 16 * handling
  }

  lemma BitsForth(qos: nat, noLocal: bool, retain: bool, handling: nat)
    requires qos < 4 && handling < 4
    ensures var b := Bits(qos, noLocal, retain, handling);
      b < 64 && b % 4 == qos && ((b / 4) % 2 == 1 <==> noLocal) && ((b / 8) % 2 == 1 <==> retain) &&
        (b / 16) % 4 == handling
  {
  }

  lemma BitsBack(b: nat)
    requires b < 64
    ensures b == Bits(b % 4, (b / 4) % 2 == 1, (b / 8) % 2 == 1, (b / 16) % 4)
  {
  }

  lemma OptionsForth(v5: bool, f: TopicFilter)
    requires f.qos <= 2 && f.retainHandling <= 2 && Representable(v5, f)
    ensures ParseOptions(v5, f.topic, Options(f)) == Done(f)
  {
    BitsForth(f.qos, f.noLocal, f.retainAsPublished, f.retainHandling);
  }

  lemma OptionsBack(v5: bool, topic: Bytes, b: nat)
    requires ParseOptions(v5, topic, b).Done?
    ensures var f := ParseOptions(v5, topic, b).value;
      f.topic == topic && f.qos <= 2 && f.retainHandling <= 2 && Options(f) == b && Representable(v5, f)
  {
    BitsBack(b);
  }

  /** Where the options of a filter stand, lowest first: the level, No Local, Retain As Published, Retain Handling. */
  lemma OptionsPlaces(v5: bool, topic: Bytes, b: nat)
    requires ParseOptions(v5, topic, b).Done?
    ensures var f := ParseOptions(v5, topic, b).value;
            && f.topic == topic && f.qos <= 2 && f.retainHandling <= 2 && (!v5 ==> b == f.qos)
            && b == f.qos + Weight(f.noLocal, 4) + Weight(f.retainAsPublished, 8) + 16 * f.retainHandling
  {
    BitsBack(b);
  }

  lemma FilterBack(v5: bool, s: Bytes, f: TopicFilter, rest: Bytes)
    requires FilterAt(v5, s) == Done((f, rest))
    ensures Representable(v5, f) && EncodeFilter(f).Done? && s == EncodeFilter(f).value + rest
  {
    var topic := DecText(s);
    TextExact(s, topic.value, topic.rest);
    OptionsBack(v5, topic.value, topic.rest[0]);
    assert topic.rest == [topic.rest[0]] + rest;
    assert EncBin(f.topic) + ([Options(f)] + rest) == EncBin(f.topic) + [Options(f)] + rest;
  }

  lemma FilterForth(v5: bool, s: Bytes, f: TopicFilter, rest: Bytes)
    requires Representable(v5, f) && EncodeFilter(f).Done? && s == EncodeFilter(f).value + rest
    ensures FilterAt(v5, s) == Done((f, rest))
  {
    var tail := [Options(f)] + rest;
    assert s == EncBin(f.topic) + tail;
    TextExact(s, f.topic, tail);
    OptionsForth(v5, f);
    assert tail[1..] == rest;
  }

  lemma FilterExact(v5: bool, s: Bytes, f: TopicFilter, rest: Bytes)
    ensures FilterAt(v5, s) == Done((f, rest)) <==>
            Representable(v5, f) && EncodeFilter(f).Done? && s == EncodeFilter(f).value + rest
  {
    if FilterAt(v5, s) == Done((f, rest)) {
      FilterBack(v5, s, f, rest);
    }
    if Representable(v5, f) && EncodeFilter(f).Done? && s == EncodeFilter(f).value + rest {
      FilterForth(v5, s, f, rest);
    }
  }

  /** An item is read off the front exactly when the front is what the encoder makes of it. */
  ghost predicate InverseAt<T(!new)>(one: Reader<T>, enc: T -> Outcome<Bytes>, ok: T -> bool, s: Bytes, x: T,
                                     rest: Bytes) {
    one(s) == Done((x, rest)) <==> ok(x) && enc(x).Done? && enc(x).value != [] && s == enc(x).value + rest
  }

  ghost predicate Inverse<T(!new)>(one: Reader<T>, enc: T -> Outcome<Bytes>, ok: T -> bool) {
    && (forall s, x, rest :: InverseAt(one, enc, ok, s, x, rest))
    && (forall x :: enc(x).Done? ==> enc(x).value != [])
  }

  lemma {:induction false} ListForth<T(!new)>(one: Reader<T>, enc: T -> Outcome<Bytes>, ok: T -> bool, xs: seq<T>,
                                              acc: seq<T>)
    requires Inverse(one, enc, ok) && EncodeList(enc, xs).Done? && forall x :: x in xs ==> ok(x)
    ensures ParseList(one, EncodeList(enc, xs).value, acc) == Done(acc + xs)
    decreases |xs|
  {
    if xs == [] {
      assert acc + xs == acc;
    } else {
      var s, rest := EncodeList(enc, xs).value, EncodeList(enc, xs[1..]).value;
      assert InverseAt(one, enc, ok, s, xs[0], rest);
      ListForth(one, enc, ok, xs[1..], acc + [xs[0]]);
      assert acc + [xs[0]] + xs[1..] == acc + xs;
    }
  }

  lemma {:induction false} ListKept<T>(one: Reader<T>, s: Bytes, acc: seq<T>)
    requires ParseList(one, s, acc).Done?
    ensures acc <= ParseList(one, s, acc).value
    decreases |s|
  {
    if s != [] {
      ListKept(one, one(s).value.1, acc + [one(s).value.0]);
    }
  }

  lemma NextElement<T>(acc: seq<T>, xs: seq<T>, x: T)
    requires acc + [x] <= acc + xs
    ensures xs != [] && xs == [x] + xs[1..] && acc + [x] + xs[1..] == acc + xs
  {
    assert (acc + xs)[|acc|] == (acc + [x])[|acc|] == x;
  }

  lemma {:induction false} ListBack<T(!new)>(one: Reader<T>, enc: T -> Outcome<Bytes>, ok: T -> bool, s: Bytes,
                                             xs: seq<T>, acc: seq<T>)
    requires Inverse(one, enc, ok) && ParseList(one, s, acc) == Done(acc + xs)
    ensures EncodeList(enc, xs) == Done(s) && forall x :: x in xs ==> ok(x)
    decreases |s|
  {
    if s == [] {
      assert |acc + xs| == |acc|;
    } else {
      var x, rest := one(s).value.0, one(s).value.1;
      ListKept(one, rest, acc + [x]);
      NextElement(acc, xs, x);
      assert InverseAt(one, enc, ok, s, x, rest);
      ListBack(one, enc, ok, rest, xs[1..], acc + [x]);
    }
  }

  lemma ListExact<T(!new)>(one: Reader<T>, enc: T -> Outcome<Bytes>, ok: T -> bool, s: Bytes, xs: seq<T>)
    requires Inverse(one, enc, ok)
    ensures ParseList(one, s, []) == Done(xs) <==> EncodeList(enc, xs) == Done(s) && forall x :: x in xs ==> ok(x)
  {
    assert [] + xs == xs;
    if ParseList(one, s, []) == Done(xs) {
      ListBack(one, enc, ok, s, xs, []);
    }
    if EncodeList(enc, xs) == Done(s) && forall x :: x in xs ==> ok(x) {
      ListForth(one, enc, ok, xs, []);
    }
  }

  /** The filters of a body are parsed to a list exactly when the body is what the encoder makes of that list, and the
  version can express it: before MQTT 5.0 the encoder writes options that no decoder accepts. */
  lemma FiltersExact(v5: bool, s: Bytes, fs: seq<TopicFilter>)
    ensures ParseFilters(v5, s, []) == Done(fs) <==>
            EncodeFilters(fs) == Done(s) && forall f :: f in fs ==> Representable(v5, f)
  {
    var ok := f => Representable(v5, f);
    forall s, f, rest ensures InverseAt(FilterReader(v5), EncodeFilter, ok, s, f, rest) {
      FilterExact(v5, s, f, rest);
    }
    ListExact(FilterReader(v5), EncodeFilter, ok, s, fs);
  }

  lemma TopicsExact(s: Bytes, ts: seq<Bytes>)
    ensures ParseTopics(s, []) == Done(ts) <==> EncodeTopics(ts) == Done(s)
  {
    var ok := (t: Bytes) => true;
    forall s, t, rest ensures InverseAt(TopicAt, EncodeTopic, ok, s, t, rest) {
      TextExact(s, t, rest);
    }
    ListExact(TopicAt, EncodeTopic, ok, s, ts);
  }

  // ---------------------------------------------------------------- round trips

  /** A property section that comes back as it was sent. */
  predicate Carried(v5: bool, props: Props, l: Locus) {
    props.Some? ==> v5 && props.value != EMPTY && WellFormed(props.value, l) && |Body(props.value)| <= MAX_VARINT
  }

  predicate SoundPublish(v5: bool, p: Packet)
    requires p.Publish?
  {
    && p.qos <= 2 && (p.qos == 0 <==> p.id == 0) && p.id < 0x1_0000
    && Sendable(p.topic) && NameOk(v5, p.topic, p.props) && Carried(v5, p.props, InPublish)
  }

  predicate SoundAck(v5: bool, p: Packet)
    requires p.Ack?
  {
    && PUBACK <= p.kind <= PUBCOMP && (p.dup ==> p.kind == PUBREL) && 0 < p.id < 0x1_0000
    && SoundReason(v5, p.reason, p.props, InAck)
  }

  lemma SectionRoundTrip(v5: bool, props: Props, l: Locus, t: Bytes)
    requires Carried(v5, props, l)
    ensures WriteSection(v5, props, l).Done? && SectionIf(v5, WriteSection(v5, props, l).value + t, l) == Got(props, t)
  {
    if v5 {
      RoundTrip(props, l, t);
    } else {
      assert [] + t == t;
    }
  }

  function IdBytes(qos: nat, id: nat): Bytes {
    if qos > 0 then Enc16(id % 0x1_0000) else []
  }

  lemma IdDecodes(qos: nat, id: nat, t: Bytes)
    requires (qos == 0 <==> id == 0) && id < 0x1_0000
    ensures (if qos > 0 then Dec16(IdBytes(qos, id) + t) else Got(0, IdBytes(qos, id) + t)) == Got(id, t)
  {
  }

  lemma PublishParses(v5: bool, h: Header, topic: Bytes, id: nat, tail: Bytes, props: Props, payload: Bytes)
    requires Sendable(topic) && NameOk(v5, topic, props) && (h.qos == 0 <==> id == 0) && id < 0x1_0000
    requires SectionIf(v5, tail, InPublish) == Got(props, payload)
    ensures ParsePublish(v5, h, EncBin(topic) + (IdBytes(h.qos, id) + tail))
        == Done(Publish(h.dup, h.qos, h.retain, topic, id, payload, props))
  {
    TextDecodes(topic, IdBytes(h.qos, id) + tail);
    IdDecodes(h.qos, id, tail);
  }

  lemma Regroup(a: Bytes, b: Bytes, c: Bytes, d: Bytes)
    ensures a + b + c + d == a + (b + (c + d))
  {
  }

  lemma PublishEncodes(v5: bool, p: Packet, section: Bytes)
    requires p.Publish? && SoundPublish(v5, p) && WriteSection(v5, p.props, InPublish) == Done(section)
    ensures EncodePublish(v5, p) == Done(EncBin(p.topic) + (IdBytes(p.qos, p.id) + (section + p.payload)))
  {
    Regroup(EncBin(p.topic), IdBytes(p.qos, p.id), section, p.payload);
  }

  lemma PublishRoundTrip(v5: bool, p: Packet, h: Header)
    requires p.Publish? && SoundPublish(v5, p) && h.dup == p.dup && h.qos == p.qos && h.retain == p.retain
    ensures EncodePublish(v5, p).Done? && ParsePublish(v5, h, EncodePublish(v5, p).value) == Done(p)
  {
    SectionRoundTrip(v5, p.props, InPublish, p.payload);
    var section := WriteSection(v5, p.props, InPublish).value;
    PublishEncodes(v5, p, section);
    PublishParses(v5, h, p.topic, p.id, section + p.payload, p.props, p.payload);
  }

  /** A reason code and properties that come back as they were sent. */
  predicate SoundReason(v5: bool, reason: nat, props: Props, l: Locus) {
    reason < 256 && (!v5 ==> reason == 0) && Carried(v5, props, l)
  }

  lemma ReasonRoundTrip(v5: bool, reason: nat, props: Props, l: Locus)
    requires SoundReason(v5, reason, props, l)
    ensures var tail := EncodeReason(v5, reason, props, l);
            && tail.Done? && ParseReason(tail.value, l) == Done((reason, props))
            && (!v5 ==> tail.value == []) && (tail.value != [] ==> tail.value[0] == reason)
            && (tail.value == [] ==> reason == 0)
  {
    SmallMod(reason, 256);
    if props.Some? {
      RoundTrip(props, l, []);
      var section := EncodeProperties(props.value, l).value;
      var s := [reason] + section;
      assert s[1..] == section == section + [];
      assert |section| >= 1;
    }
  }

  lemma AckParses(v5: bool, h: Header, id: nat, tail: Bytes, reason: nat, props: Props)
    requires 0 < id < 0x1_0000 && (!v5 ==> tail == []) && ParseReason(tail, InAck) == Done((reason, props))
    ensures ParseAck(v5, h, Enc16(id) + tail) == Done(Ack(h.kind, h.dup, id, reason, props))
  {
    RoundTrip16(id, tail);
  }

  lemma AckRoundTrip(v5: bool, p: Packet, h: Header)
    requires p.Ack? && SoundAck(v5, p) && h.kind == p.kind && h.dup == p.dup
    ensures EncodeAck(v5, p).Done? && ParseAck(v5, h, EncodeAck(v5, p).value) == Done(p)
  {
    ReasonRoundTrip(v5, p.reason, p.props, InAck);
    SmallMod(p.id, 0x1_0000);
    AckParses(v5, h, p.id, EncodeReason(v5, p.reason, p.props, InAck).value, p.reason, p.props);
  }

  lemma DisconnectRoundTrip(v5: bool, p: Packet)
    requires p.Disconnect? && SoundReason(v5, p.reason, p.props, InDisconnect)
    ensures EncodeDisconnect(v5, p).Done? && ParseDisconnect(v5, EncodeDisconnect(v5, p).value) == Done(p)
  {
    ReasonRoundTrip(v5, p.reason, p.props, InDisconnect);
  }

  lemma AuthRoundTrip(v5: bool, p: Packet)
    requires p.Auth? && v5 && AuthReason(p.reason) && SoundReason(v5, p.reason, p.props, InAuth)
    ensures EncodeAuth(v5, p).Done? && ParseAuth(v5, EncodeAuth(v5, p).value) == Done(p)
  {
    ReasonRoundTrip(v5, p.reason, p.props, InAuth);
  }

  /** A version without the session present flag says that there is none. */
  lemma ConnAckRoundTrip(v5: bool, session: bool, p: Packet)
    requires p.ConnAck? && p.reason < 256 && Carried(v5, p.props, InConnAck)
    ensures var body := EncodeConnAck(v5, session, p);
            body.Done? && ParseConnAck(v5, body.value) == Done(p.(present := p.present && session))
  {
    SmallMod(p.reason, 256);
    SectionRoundTrip(v5, p.props, InConnAck, []);
    var section := WriteSection(v5, p.props, InConnAck).value;
    var first := if p.present && session then 1 else 0;
    ConnAckParses(v5, first, p.reason, section, p.props);
  }

  lemma ConnAckParses(v5: bool, first: byte, reason: byte, section: Bytes, props: Props)
    requires SectionIf(v5, section + [], InConnAck) == Got(props, []) && (!v5 ==> section == [])
    requires v5 ==> section != []
    ensures ParseConnAck(v5, [first, reason] + section) == Done(ConnAck(first % 2 == 1, reason, props))
  {
    var body := [first, reason] + section;
    assert body[2..] == section == section + [];
    assert |body| == 2 + |section|;
  }

  predicate SoundCodes(v5: bool, id: nat, props: Props, l: Locus) {
    0 < id < 0x1_0000 && Carried(v5, props, l)
  }

  lemma CodesRoundTrip(v5: bool, h: Header, id: nat, codes: Bytes, props: Props, l: Locus)
    requires SoundCodes(v5, id, props, l) && (h.kind == SUBACK || h.kind == UNSUBACK)
    requires l == if h.kind == SUBACK then InSubAck else InUnsubAck
    ensures var body := EncodeCodes(id, WriteSection(v5, props, l), codes);
            && body.Done? && |body.value| >= 2 && (!v5 && codes == [] ==> |body.value| == 2)
            && IdBody((id: nat, s: Bytes) => ParseAfterId(v5, h, id, s), body.value)
               == Done(if h.kind == SUBACK then SubAck(id, codes, props) else UnsubAck(id, codes, props))
  {
    SectionRoundTrip(v5, props, l, codes);
    SmallMod(id, 0x1_0000);
    var section := WriteSection(v5, props, l).value;
    assert Enc16(id) + section + codes == Enc16(id) + (section + codes);
    ListedParses(v5, h, id, section + codes, (id: nat, s: Bytes) => ParseAfterId(v5, h, id, s));
  }

  lemma SubAckRoundTrip(v5: bool, p: Packet, h: Header)
    requires p.SubAck? && SoundCodes(v5, p.id, p.props, InSubAck) && h.kind == SUBACK
    ensures EncodeSubAck(v5, p).Done? && ParseWithId(v5, h, EncodeSubAck(v5, p).value) == Done(p)
  {
    CodesRoundTrip(v5, h, p.id, p.codes, p.props, InSubAck);
  }

  lemma UnsubAckRoundTrip(v5: bool, p: Packet, h: Header)
    requires p.UnsubAck? && SoundCodes(v5, p.id, p.props, InUnsubAck) && (!v5 ==> p.codes == []) && h.kind == UNSUBACK
    ensures EncodeUnsubAck(v5, p).Done? && ParseWithId(v5, h, EncodeUnsubAck(v5, p).value) == Done(p)
  {
    CodesRoundTrip(v5, h, p.id, p.codes, p.props, InUnsubAck);
  }

  // ---------------------------------------------------------------- CONNECT

  /** Flags the encoder writes in full: not the reserved one, and no level of a will that is not there. */
  predicate SoundFlags(f: ConnectFlags) {
    !f.reserved && f.willQoS < 4 && (!f.will ==> f.willQoS == 0)
  }

  /** The byte of connect flags, bit by bit from the top. */
  lemma FlagsPlaces(b: nat)
    requires b < 256
    ensures var f := FlagsOf(b);
            && f.willQoS < 4
            && b == Weight(f.username, 128) + Weight(f.password, 64) + Weight(f.willRetain, 32) + 8 * f.willQoS
                  + Weight(f.will, 4) + Weight(f.clean, 2) + Weight(f.reserved, 1)
  {
    LowBits(b);
    HighBits(b / 8);
    Shifts(b);
    BitWeight(b / 128, 128);
    BitWeight(b / 64, 64);
    BitWeight(b / 32, 32);
    BitWeight(b / 4, 4);
    BitWeight(b / 2, 2);
    BitWeight(b, 1);
  }

  /** What a bit adds to its byte. */
  function Weight(bit: bool, place: nat): nat {
    if bit then place else 0
  }

  lemma BitWeight(n: nat, place: nat)
    ensures Weight(n % 2 == 1, place) == place * (n % 2)
  {
  }

  lemma Halves(n: nat)
    ensures n == 2 * (n / 2) + n % 2
  {
  }

  lemma HalfTwice(b: nat)
    ensures (b / 2) / 2 == b / 4 && (b / 4) / 2 == b / 8
  {
  }

  lemma LowBits(b: nat)
    ensures b == 8 * (b / 8) + 4 * ((b / 4) % 2) + 2 * ((b / 2) % 2) + b % 2
  {
    HalfTwice(b);
    Halves(b);
    Halves(b / 2);
    Halves(b / 4);
  }

  lemma HighBits(c: nat)
    requires c < 32
    ensures c == 16 * ((c / 16) % 2) + 8 * ((c / 8) % 2) + 4 * ((c / 4) % 2) + c % 4
  {
    LowBits(c / 4);
    HalfTwice(c / 4);
    assert c == 4 * (c / 4) + c % 4;
    assert (c / 4) / 2 == c / 8 && (c / 4) / 4 == c / 16;
  }

  lemma Shifts(b: nat)
    ensures (b / 8) / 4 == b / 32 && (b / 8) / 8 == b / 64 && (b / 8) / 16 == b / 128
  {
  }

  lemma FlagsRoundTrip(f: ConnectFlags)
    requires SoundFlags(f)
    ensures FlagsByte(f) < 256 && FlagsOf(FlagsByte(f)) == f
  {
    var b := FlagsByte(f);
    SmallMod(f.willQoS, 4);
    FlagBits(Weight(f.username, 1), Weight(f.password, 1), Weight(f.willRetain, 1), f.willQoS, Weight(f.will, 1),
             Weight(f.clean, 1));
  }

  lemma AppendBit(n: nat, bit: nat)
    requires bit < 2
    ensures (2 * n + bit) / 2 == n && (2 * n + bit) % 2 == bit
  {
  }

  lemma AppendLevel(n: nat, q: nat)
    requires q < 4
    ensures (4 * n + q) / 4 == n && (4 * n + q) % 4 == q
  {
  }

  lemma FlagBits(u: nat, p: nat, r: nat, q: nat, w: nat, c: nat)
    requires u < 2 && p < 2 && r < 2 && q < 4 && w < 2 && c < 2
    ensures var b := 128 * u + 64 * p + 32 * r + 8 * q + 4 * w + 2 * c;
            && (b / 128) % 2 == u && (b / 64) % 2 == p && (b / 32) % 2 == r && (b / 8) % 4 == q
            && (b / 4) % 2 == w && (b / 2) % 2 == c && b % 2 == 0
  {
    var high := 16 * u + 8 * p + 4 * r + q;
    LowFlags(high, w, c);
    HighFlags(u, p, r, q);
    Shifts(8 * high + 4 * w + 2 * c);
  }

  lemma LowFlags(high: nat, w: nat, c: nat)
    requires w < 2 && c < 2
    ensures var b := 8 * high + 4 * w + 2 * c;
            b / 8 == high && (b / 4) % 2 == w && (b / 2) % 2 == c && b % 2 == 0
  {
    AppendBit(high, w);
    AppendBit(2 * high + w, c);
    HalfTwice(8 * high + 4 * w + 2 * c);
  }

  lemma HighFlags(u: nat, p: nat, r: nat, q: nat)
    requires u < 2 && p < 2 && r < 2 && q < 4
    ensures var h := 16 * u + 8 * p + 4 * r + q;
            (h / 16) % 2 == u && (h / 8) % 2 == p && (h / 4) % 2 == r && h % 4 == q
  {
    AppendLevel(4 * u + 2 * p + r, q);
    AppendBit(2 * u + p, r);
    AppendBit(u, p);
    HalfTwice(4 * u + 2 * p + r);
  }

  predicate SoundWill(v5: bool, w: Will) {
    Carried(v5, w.props, InWill) && Sendable(w.topic) && |w.message| < 0x1_0000
  }

  /** Every field is as long as its length field can say, and there exactly if its flag says so. */
  predicate SoundConnect(p: Packet)
    requires p.Connect?
  {
    && Sendable(p.name) && p.version < 256 && SoundFlags(p.flags) && p.keepAlive < 0x1_0000
    && Carried(p.version == 5, p.props, InConnect) && Sendable(p.client)
    && (if p.flags.will then p.will.Some? && SoundWill(p.version == 5, p.will.value) else p.will.None?)
    && (if p.flags.username then Sendable(p.username) else p.username == [])
    && (if p.flags.password then |p.password| < 0x1_0000 else p.password == [])
  }

  lemma WillRoundTrip(v5: bool, flag: bool, will: Option<Will>, t: Bytes)
    requires if flag then will.Some? && SoundWill(v5, will.value) else will.None?
    ensures EncodeWill(v5, flag, will).Done?
    ensures ParseWill(v5, flag, EncodeWill(v5, flag, will).value + t) == Got(will, t)
  {
    if flag {
      var w := will.value;
      SectionRoundTrip(v5, w.props, InWill, EncBin(w.topic) + (EncBin(w.message) + t));
      var section := WriteSection(v5, w.props, InWill).value;
      WillParses(v5, w, section, t);
      RegroupInner(section, EncBin(w.topic), EncBin(w.message), t);
    } else {
      assert [] + t == t;
    }
  }

  lemma RegroupInner(a: Bytes, b: Bytes, c: Bytes, d: Bytes)
    ensures a + (b + c) + d == a + (b + (c + d))
  {
  }

  lemma WillParses(v5: bool, w: Will, section: Bytes, t: Bytes)
    requires Sendable(w.topic) && |w.message| < 0x1_0000
    requires var tail := EncBin(w.topic) + (EncBin(w.message) + t);
             SectionIf(v5, section + tail, InWill) == Got(w.props, tail)
    ensures ParseWill(v5, true, section + (EncBin(w.topic) + (EncBin(w.message) + t))) == Got(Some(w), t)
  {
    TextDecodes(w.topic, EncBin(w.message) + t);
    RoundTripBin(w.message, t);
  }

  lemma TextRoundTrip(flag: bool, d: Bytes, t: Bytes)
    requires if flag then Sendable(d) else d == []
    ensures EncodeText(flag, d).Done?
    ensures var s := EncodeText(flag, d).value + t; (if flag then DecText(s) else Got([], s)) == Got(d, t)
  {
    if flag {
      TextDecodes(d, t);
    } else {
      assert [] + t == t;
    }
  }

  lemma DataRoundTrip(flag: bool, d: Bytes, t: Bytes)
    requires if flag then |d| < 0x1_0000 else d == []
    ensures EncodeData(flag, d).Done?
    ensures var s := EncodeData(flag, d).value + t; (if flag then DecBin(s) else Got([], s)) == Got(d, t)
  {
    if flag {
      RoundTripBin(d, t);
    } else {
      assert [] + t == t;
    }
  }

  /** A body that reads field by field as the packet says is that packet. */
  lemma FieldsParse(body: Bytes, p: Packet, rest: Bytes, afterProps: Bytes, afterClient: Bytes, afterWill: Bytes,
                    afterUser: Bytes)
    requires p.Connect? && DecText(body) == Got(p.name, rest)
    requires |rest| >= 4 && At(rest, 0) == p.version && FlagsOf(At(rest, 1)) == p.flags
    requires Dec16(rest[2..]).Got? && Dec16(rest[2..]).value == p.keepAlive
    requires SectionIf(p.version == 5, rest[4..], InConnect) == Got(p.props, afterProps)
    requires DecText(afterProps) == Got(p.client, afterClient)
    requires ParseWill(p.version == 5, p.flags.will, afterClient) == Got(p.will, afterWill)
    requires (if p.flags.username then DecText(afterWill) else Got([], afterWill)) == Got(p.username, afterUser)
    requires (if p.flags.password then DecBin(afterUser) else Got([], afterUser)) == Got(p.password, [])
    ensures ParseConnect(body) == Done(p)
  {
  }

  /** Version, flags and keep alive in front of the rest. */
  lemma FixedFields(version: byte, flags: byte, keepAlive: nat, tail: Bytes)
    requires keepAlive < 0x1_0000
    ensures var s := [version, flags] + (Enc16(keepAlive) + tail);
            && |s| >= 4 && At(s, 0) == version && At(s, 1) == flags && s[4..] == tail
            && Dec16(s[2..]).Got? && Dec16(s[2..]).value == keepAlive
  {
    var s := [version, flags] + (Enc16(keepAlive) + tail);
    assert s[2..] == Enc16(keepAlive) + tail;
    RoundTrip16(keepAlive, tail);
  }

  /** The payload: client identifier, will, user name and password, in this order. */
  lemma PayloadParses(p: Packet, will: Bytes, username: Bytes, password: Bytes)
    requires p.Connect? && SoundConnect(p)
    requires EncodeWill(p.version == 5, p.flags.will, p.will) == Done(will)
    requires EncodeText(p.flags.username, p.username) == Done(username)
    requires EncodeData(p.flags.password, p.password) == Done(password)
    ensures var afterClient := will + (username + password);
            && DecText(EncBin(p.client) + afterClient) == Got(p.client, afterClient)
            && ParseWill(p.version == 5, p.flags.will, afterClient) == Got(p.will, username + password)
    ensures (if p.flags.username then DecText(username + password) else Got([], username + password))
            == Got(p.username, password)
    ensures (if p.flags.password then DecBin(password) else Got([], password)) == Got(p.password, [])
  {
    TextDecodes(p.client, will + (username + password));
    WillRoundTrip(p.version == 5, p.flags.will, p.will, username + password);
    TextRoundTrip(p.flags.username, p.username, password);
    DataRoundTrip(p.flags.password, p.password, []);
    assert password + [] == password;
  }

  /** Every CONNECT that the encoder writes in full reads back, whatever the version, the will and the credentials. */
  lemma ConnectRoundTrip(p: Packet)
    requires p.Connect? && SoundConnect(p)
    ensures EncodeConnect(p).Done? && ParseConnect(EncodeConnect(p).value) == Done(p)
  {
    var v5 := p.version == 5;
    WillRoundTrip(v5, p.flags.will, p.will, []);
    TextRoundTrip(p.flags.username, p.username, []);
    DataRoundTrip(p.flags.password, p.password, []);
    SectionRoundTrip(v5, p.props, InConnect, []);
    var section, will, username, password := WriteSection(v5, p.props, InConnect).value,
      EncodeWill(v5, p.flags.will, p.will).value, EncodeText(p.flags.username, p.username).value,
      EncodeData(p.flags.password, p.password).value;
    ConnectEncodes(p, section, will, username, password);
    ConnectParses(p, section, will, username, password);
  }

  /** The fields of a CONNECT one after the other, the parts that may be missing given. */
  function ConnectBytes(p: Packet, section: Bytes, will: Bytes, username: Bytes, password: Bytes): Bytes
    requires p.Connect? && p.version < 256 && SoundFlags(p.flags) && p.keepAlive < 0x1_0000
  {
    EncBin(p.name) + ([p.version, FlagsByte(p.flags)] + (Enc16(p.keepAlive) + (section + (EncBin(p.client)
      + (will + (username + password))))))
  }

  lemma ConnectEncodes(p: Packet, section: Bytes, will: Bytes, username: Bytes, password: Bytes)
    requires p.Connect? && SoundConnect(p) && WriteSection(p.version == 5, p.props, InConnect) == Done(section)
    requires EncodeWill(p.version == 5, p.flags.will, p.will) == Done(will)
    requires EncodeText(p.flags.username, p.username) == Done(username)
    requires EncodeData(p.flags.password, p.password) == Done(password)
    ensures EncodeConnect(p) == Done(ConnectBytes(p, section, will, username, password))
  {
    SmallMod(p.version, 256);
    SmallMod(p.keepAlive, 0x1_0000);
  }

  lemma ConnectParses(p: Packet, section: Bytes, will: Bytes, username: Bytes, password: Bytes)
    requires p.Connect? && SoundConnect(p) && WriteSection(p.version == 5, p.props, InConnect) == Done(section)
    requires EncodeWill(p.version == 5, p.flags.will, p.will) == Done(will)
    requires EncodeText(p.flags.username, p.username) == Done(username)
    requires EncodeData(p.flags.password, p.password) == Done(password)
    ensures ParseConnect(ConnectBytes(p, section, will, username, password)) == Done(p)
  {
    PayloadParses(p, will, username, password);
    var afterClient := will + (username + password);
    var payload := EncBin(p.client) + afterClient;
    SectionRoundTrip(p.version == 5, p.props, InConnect, payload);
    var rest := FrontParses(p, section, payload);
    FieldsParse(EncBin(p.name) + rest, p, rest, payload, afterClient, username + password, password);
  }

  lemma FrontParses(p: Packet, section: Bytes, payload: Bytes) returns (rest: Bytes)
    requires p.Connect? && Sendable(p.name) && p.version < 256 && SoundFlags(p.flags) && p.keepAlive < 0x1_0000
    requires SectionIf(p.version == 5, section + payload, InConnect) == Got(p.props, payload)
    ensures FlagsByte(p.flags) < 256
    ensures rest == [p.version, FlagsByte(p.flags)] + (Enc16(p.keepAlive) + (section + payload))
    ensures DecText(EncBin(p.name) + rest) == Got(p.name, rest)
    ensures |rest| >= 4 && At(rest, 0) == p.version && FlagsOf(At(rest, 1)) == p.flags
    ensures Dec16(rest[2..]).Got? && Dec16(rest[2..]).value == p.keepAlive
    ensures SectionIf(p.version == 5, rest[4..], InConnect) == Got(p.props, payload)
  {
    FlagsRoundTrip(p.flags);
    FixedFields(p.version, FlagsByte(p.flags), p.keepAlive, section + payload);
    rest := [p.version, FlagsByte(p.flags)] + (Enc16(p.keepAlive) + (section + payload));
    TextDecodes(p.name, rest);
  }

  predicate SoundSubscribe(v5: bool, p: Packet)
    requires p.Subscribe?
  {
    && 0 < p.id < 0x1_0000 && Carried(v5, p.props, InSubscribe)
    && p.filters != [] && EncodeFilters(p.filters).Done? && forall f :: f in p.filters ==> Representable(v5, f)
  }

  predicate SoundUnsubscribe(v5: bool, p: Packet)
    requires p.Unsubscribe?
  {
    && 0 < p.id < 0x1_0000 && Carried(v5, p.props, InUnsubscribe)
    && p.topics != [] && EncodeTopics(p.topics).Done?
  }

  lemma ListedParses(v5: bool, h: Header, id: nat, tail: Bytes, after: (nat, Bytes) -> Outcome<Packet>)
    requires 0 < id < 0x1_0000
    ensures IdBody(after, Enc16(id) + tail) == after(id, tail)
  {
    RoundTrip16(id, tail);
  }

  lemma SubscribeRoundTrip(v5: bool, p: Packet, h: Header)
    requires p.Subscribe? && SoundSubscribe(v5, p) && h.kind == SUBSCRIBE && h.dup == p.dup
    ensures EncodeSubscribe(v5, p).Done? && ParseWithId(v5, h, EncodeSubscribe(v5, p).value) == Done(p)
  {
    var list := EncodeFilters(p.filters).value;
    SectionRoundTrip(v5, p.props, InSubscribe, list);
    FiltersExact(v5, list, p.filters);
    SmallMod(p.id, 0x1_0000);
    var section := WriteSection(v5, p.props, InSubscribe).value;
    assert Enc16(p.id) + section + list == Enc16(p.id) + (section + list);
    ListedParses(v5, h, p.id, section + list, (id: nat, s: Bytes) => ParseAfterId(v5, h, id, s));
  }

  lemma UnsubscribeRoundTrip(v5: bool, p: Packet, h: Header)
    requires p.Unsubscribe? && SoundUnsubscribe(v5, p) && h.kind == UNSUBSCRIBE && h.dup == p.dup
    ensures EncodeUnsubscribe(v5, p).Done? && ParseWithId(v5, h, EncodeUnsubscribe(v5, p).value) == Done(p)
  {
    var list := EncodeTopics(p.topics).value;
    SectionRoundTrip(v5, p.props, InUnsubscribe, list);
    TopicsExact(list, p.topics);
    SmallMod(p.id, 0x1_0000);
    var section := WriteSection(v5, p.props, InUnsubscribe).value;
    assert Enc16(p.id) + section + list == Enc16(p.id) + (section + list);
    ListedParses(v5, h, p.id, section + list, (id: nat, s: Bytes) => ParseAfterId(v5, h, id, s));
  }

  /** Packets of every kind that come back as they were sent. */
  predicate SoundBody(v5: bool, p: Packet) {
    match p
    case Connect(_, _, _, _, _, _, _, _, _) => SoundConnect(p)
    case ConnAck(_, reason, props) => reason < 256 && Carried(v5, props, InConnAck)
    case Publish(_, _, _, _, _, _, _) => SoundPublish(v5, p)
    case Ack(_, _, _, _, _) => SoundAck(v5, p)
    case Subscribe(_, _, _, _) => SoundSubscribe(v5, p)
    case SubAck(id, _, props) => SoundCodes(v5, id, props, InSubAck)
    case Unsubscribe(_, _, _, _) => SoundUnsubscribe(v5, p)
    case UnsubAck(id, codes, props) => SoundCodes(v5, id, props, InUnsubAck) && (!v5 ==> codes == [])
    case PingReq => true
    case PingResp => true
    case Disconnect(reason, props) => SoundReason(v5, reason, props, InDisconnect)
    case Auth(reason, props) => v5 && AuthReason(reason) && SoundReason(v5, reason, props, InAuth)
  }

  lemma BodyParses(v5: bool, p: Packet, h: Header)
    requires SoundBody(v5, p) && h.kind == KindBits(p) && h.dup == DupBit(p) && h.qos == QosBits(p)
    requires h.retain == RetainBit(p)
    ensures EncodeBody(v5, p).Done? && ParseBody(v5, h, EncodeBody(v5, p).value) == Done(p)
  {
    match p
    case Connect(_, _, _, _, _, _, _, _, _) => ConnectRoundTrip(p);
    case ConnAck(_, _, _) => ConnAckRoundTrip(v5, true, p);
    case Publish(_, _, _, _, _, _, _) => PublishRoundTrip(v5, p, h);
    case Ack(_, _, _, _, _) => AckRoundTrip(v5, p, h);
    case Subscribe(_, _, _, _) => SubscribeRoundTrip(v5, p, h);
    case SubAck(_, _, _) => SubAckRoundTrip(v5, p, h);
    case Unsubscribe(_, _, _, _) => UnsubscribeRoundTrip(v5, p, h);
    case UnsubAck(_, _, _) => UnsubAckRoundTrip(v5, p, h);
    case PingReq =>
    case PingResp =>
    case Disconnect(_, _) => DisconnectRoundTrip(v5, p);
    case Auth(_, _) => AuthRoundTrip(v5, p);
  }

  /** A packet the decoder of this codec will take back. */
  predicate Sound(v5: bool, maxPacketSize: nat, p: Packet) {
    && SoundBody(v5, p)
    && |BodyBytes(v5, p)| <= MAX_VARINT
    && 1 + |VarEnc(|BodyBytes(v5, p)|)| + |BodyBytes(v5, p)| <= maxPacketSize
  }

  function BodyBytes(v5: bool, p: Packet): Bytes
    requires Encodable(p)
  {
    var body := EncodeBody(v5, p);
    if body.Done? then body.value else []
  }

  lemma PacketRoundTrip(v5: bool, maxPacketSize: nat, p: Packet, t: Bytes)
    requires Sound(v5, maxPacketSize, p)
    ensures EncodePacket(v5, p).Done? && DecodePacket(v5, maxPacketSize, EncodePacket(v5, p).value + t) == Got(p, t)
  {
    var body := BodyBytes(v5, p);
    var h := Header(KindBits(p), DupBit(p), QosBits(p), RetainBit(p), |body|, 1 + |VarEnc(|body|)|);
    BodyParses(v5, p, h);
    FrameRoundTrip((h: Header, body: Bytes) => ParseBody(v5, h, body), maxPacketSize, h, body, t, p);
  }

  lemma FrameDecodes<T>(parse: (Header, Bytes) -> Outcome<T>, maxPacketSize: nat, h: Header, s: Bytes, body: Bytes,
                        t: Bytes, p: T)
    requires DecodeHeader(s) == Got(h, body + t) && h.remaining == |body|
    requires HeaderOk(h, maxPacketSize) && parse(h, body) == Done(p)
    ensures DecodeFrame(parse, maxPacketSize, s) == Got(p, t)
  {
    assert (body + t)[..|body|] == body && (body + t)[|body|..] == t;
  }

  /** A frame whose body parses is decoded, and leaves what follows it untouched. */
  lemma FrameRoundTrip<T>(parse: (Header, Bytes) -> Outcome<T>, maxPacketSize: nat, h: Header, body: Bytes, t: Bytes,
                          p: T)
    requires h.kind < 16 && h.qos < 4 && h.remaining == |body| <= MAX_VARINT && h.size == 1 + |VarEnc(|body|)|
    requires HeaderOk(h, maxPacketSize) && parse(h, body) == Done(p)
    ensures DecodeFrame(parse, maxPacketSize, EncodeHeader(h.kind, h.dup, h.qos, h.retain, |body|) + body + t)
        == Got(p, t)
  {
    var head := EncodeHeader(h.kind, h.dup, h.qos, h.retain, |body|);
    HeaderRoundTrip(h.kind, h.dup, h.qos, h.retain, |body|, body + t);
    assert head + body + t == head + (body + t);
    FrameDecodes(parse, maxPacketSize, h, head + body + t, body, t, p);
  }

  // ---------------------------------------------------------------- whole streams

  /** Read frames until the bytes run out. A reader that consumed nothing would not get past its frame. */
  function DecodeAll<T>(decode: Bytes -> Parsed<T>, s: Bytes): Outcome<seq<T>>
    decreases |s|
  {
    if s == [] then Done([])
    else
      match decode(s)
      case Bad(e) => Fail(e)
      case Got(p, rest) =>
        if |rest| >= |s| then Fail(Malformed)
        else
          match DecodeAll(decode, rest)
          case Fail(e) => Fail(e)
          case Done(ps) => Done([p] + ps)
  }

  function EncodeAll<T>(encode: T -> Bytes, ps: seq<T>): Bytes {
    if ps == [] then [] else encode(ps[0]) + EncodeAll(encode, ps[1..])
  }

  /** Whatever follows it, the frame reads back and is not empty. */
  ghost predicate ReadsBack<T>(decode: Bytes -> Parsed<T>, frame: Bytes, p: T) {
    |frame| > 0 && forall t :: decode(frame + t) == Got(p, t)
  }

  lemma {:induction false} AllReadBack<T>(decode: Bytes -> Parsed<T>, encode: T -> Bytes, ps: seq<T>)
    requires forall i :: 0 <= i < |ps| ==> ReadsBack(decode, encode(ps[i]), ps[i])
    ensures DecodeAll(decode, EncodeAll(encode, ps)) == Done(ps)
    decreases |ps|
  {
    if ps != [] {
      AllReadBack(decode, encode, ps[1..]);
      assert ReadsBack(decode, encode(ps[0]), ps[0]);
      assert ps == [ps[0]] + ps[1..];
    }
  }

  function Frame(v5: bool, p: Packet): Bytes {
    if Encodable(p) && EncodePacket(v5, p).Done? then EncodePacket(v5, p).value else []
  }

  function DecodeStream(v5: bool, maxPacketSize: nat, s: Bytes): Outcome<seq<Packet>> {
    DecodeAll((x: Bytes) => DecodePacket(v5, maxPacketSize, x), s)
  }

  function EncodeStream(v5: bool, ps: seq<Packet>): Bytes {
    EncodeAll((p: Packet) => Frame(v5, p), ps)
  }

  lemma FrameReadsBack(v5: bool, maxPacketSize: nat, p: Packet)
    requires Sound(v5, maxPacketSize, p)
    ensures ReadsBack((x: Bytes) => DecodePacket(v5, maxPacketSize, x), Frame(v5, p), p)
  {
    PacketRoundTrip(v5, maxPacketSize, p, []);
    forall t: Bytes ensures DecodePacket(v5, maxPacketSize, Frame(v5, p) + t) == Got(p, t) {
      PacketRoundTrip(v5, maxPacketSize, p, t);
    }
  }

  lemma ConnectionStep(v5: bool, maxPacketSize: nat, frame: Bytes, p: Packet, t: Bytes, ps: seq<Packet>)
    requires |frame| > 0 && DecodePacket(v5, maxPacketSize, frame + t) == Got(p, t)
    requires DecodeConnection(Announced(v5, p), maxPacketSize, t) == Done(ps)
    ensures DecodeConnection(v5, maxPacketSize, frame + t) == Done([p] + ps)
  {
  }

  /** Each packet by the version that holds when it is its turn: a CONNECT changes it for all that follow. */
  function EncodeVia(frame: (bool, Packet) -> Bytes, v5: bool, ps: seq<Packet>): Bytes
    decreases |ps|
  {
    if ps == [] then [] else frame(v5, ps[0]) + EncodeVia(frame, Announced(v5, ps[0]), ps[1..])
  }

  predicate SoundVia(sound: (bool, Packet) -> bool, v5: bool, ps: seq<Packet>)
    decreases |ps|
  {
    ps == [] || (sound(v5, ps[0]) && SoundVia(sound, Announced(v5, ps[0]), ps[1..]))
  }

  /** A frame in front of bytes that read back reads back with them. */
  ghost predicate Prepends(whole: (bool, Bytes) -> Outcome<seq<Packet>>, frame: (bool, Packet) -> Bytes, v: bool,
                           p: Packet, t: Bytes, ps: seq<Packet>) {
    whole(Announced(v, p), t) == Done(ps) ==> whole(v, frame(v, p) + t) == Done([p] + ps)
  }

  lemma {:induction false} ViaRoundTrip(whole: (bool, Bytes) -> Outcome<seq<Packet>>, frame: (bool, Packet) -> Bytes,
                                        sound: (bool, Packet) -> bool, v5: bool, ps: seq<Packet>)
    requires forall v :: whole(v, []) == Done([])
    requires forall v, p, t, ps :: sound(v, p) ==> Prepends(whole, frame, v, p, t, ps)
    requires SoundVia(sound, v5, ps)
    ensures whole(v5, EncodeVia(frame, v5, ps)) == Done(ps)
    decreases |ps|
  {
    if ps != [] {
      var next := Announced(v5, ps[0]);
      ViaRoundTrip(whole, frame, sound, next, ps[1..]);
      assert Prepends(whole, frame, v5, ps[0], EncodeVia(frame, next, ps[1..]), ps[1..]);
      assert ps == [ps[0]] + ps[1..];
    }
  }

  lemma FrameThen(v5: bool, maxPacketSize: nat, p: Packet, rest: Bytes, ps: seq<Packet>)
    requires Sound(v5, maxPacketSize, p) && DecodeConnection(Announced(v5, p), maxPacketSize, rest) == Done(ps)
    ensures DecodeConnection(v5, maxPacketSize, Frame(v5, p) + rest) == Done([p] + ps)
  {
    PacketRoundTrip(v5, maxPacketSize, p, rest);
    ConnectionStep(v5, maxPacketSize, Frame(v5, p), p, rest, ps);
  }

  function EncodeConnection(v5: bool, ps: seq<Packet>): Bytes {
    EncodeVia((v: bool, p: Packet) => Frame(v, p), v5, ps)
  }

  predicate SoundConnection(v5: bool, maxPacketSize: nat, ps: seq<Packet>) {
    SoundVia((v: bool, p: Packet) => Sound(v, maxPacketSize, p), v5, ps)
  }

  /** Whatever a connection sends, packet after packet of any kind, is read back as it was sent; a CONNECT among them
  decides by which version the rest is written and read. */
  lemma ConnectionRoundTrip(v5: bool, maxPacketSize: nat, ps: seq<Packet>)
    requires SoundConnection(v5, maxPacketSize, ps)
    ensures DecodeConnection(v5, maxPacketSize, EncodeConnection(v5, ps)) == Done(ps)
  {
    var frame, sound := (v: bool, p: Packet) => Frame(v, p), (v: bool, p: Packet) => Sound(v, maxPacketSize, p);
    var whole := (v: bool, s: Bytes) => DecodeConnection(v, maxPacketSize, s);
    forall v, p, t, ps | sound(v, p) ensures Prepends(whole, frame, v, p, t, ps) {
      if whole(Announced(v, p), t) == Done(ps) {
        FrameThen(v, maxPacketSize, p, t, ps);
      }
    }
    ViaRoundTrip(whole, frame, sound, v5, ps);
  }

  /** A CONNECT is written and read alike whatever version the codec had before. */
  lemma ConnectForgetsVersion(v5: bool, maxPacketSize: nat, p: Packet, ps: seq<Packet>)
    requires p.Connect? && SoundConnection(v5, maxPacketSize, [p] + ps)
    ensures EncodeConnection(v5, [p] + ps) == EncodeConnection(!v5, [p] + ps)
    ensures DecodeConnection(!v5, maxPacketSize, EncodeConnection(v5, [p] + ps)) == Done([p] + ps)
  {
    assert ([p] + ps)[1..] == ps;
    ConnectAlike(v5, maxPacketSize, p);
    ConnectionRoundTrip(!v5, maxPacketSize, [p] + ps);
  }

  lemma ConnectAlike(v5: bool, maxPacketSize: nat, p: Packet)
    requires p.Connect?
    ensures Frame(v5, p) == Frame(!v5, p) && (Sound(v5, maxPacketSize, p) <==> Sound(!v5, maxPacketSize, p))
  {
    assert EncodeBody(v5, p) == EncodeConnect(p) == EncodeBody(!v5, p);
  }

  /** A concatenation of encoded packets decodes back to the list. */
  lemma StreamRoundTrip(v5: bool, maxPacketSize: nat, ps: seq<Packet>)
    requires forall i :: 0 <= i < |ps| ==> Sound(v5, maxPacketSize, ps[i])
    ensures DecodeStream(v5, maxPacketSize, EncodeStream(v5, ps)) == Done(ps)
  {
    var decode, encode := (x: Bytes) => DecodePacket(v5, maxPacketSize, x), (p: Packet) => Frame(v5, p);
    forall i | 0 <= i < |ps| ensures ReadsBack(decode, encode(ps[i]), ps[i]) {
      FrameReadsBack(v5, maxPacketSize, ps[i]);
    }
    AllReadBack(decode, encode, ps);
  }
}
