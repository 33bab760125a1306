/** Control packets as functions of their own bytes: headers, bodies, and a whole connection of them. */
module Packets {
  import opened Basics
  import opened Properties
  import opened Wire

  const CONNECT := 1
  const CONNACK := 2
  const PUBLISH := 3
  const PUBACK := 4
  const PUBREC := 5
  const PUBREL := 6
  const PUBCOMP := 7
  const SUBSCRIBE := 8
  const SUBACK := 9
  const UNSUBSCRIBE := 10
  const UNSUBACK := 11
  const PINGREQ := 12
  const PINGRESP := 13
  const DISCONNECT := 14
  const AUTH := 15

  const TOPIC_ALIAS: nat := 0x23

  type Props = Option<PropertySet>

  datatype TopicFilter = TopicFilter(topic: Bytes, qos: nat, noLocal: bool, retainAsPublished: bool,
                                     retainHandling: nat)

  datatype Packet =
    | Connect(name: Bytes, version: nat, flags: ConnectFlags, keepAlive: nat, client: Bytes, will: Option<Will>,
              username: Bytes, password: Bytes, props: Props)
    | ConnAck(present: bool, reason: nat, props: Props)
    | Publish(dup: bool, qos: nat, retain: bool, topic: Bytes, id: nat, payload: Bytes, props: Props)
    | Ack(kind: nat, dup: bool, id: nat, reason: nat, props: Props)
    | Subscribe(dup: bool, id: nat, filters: seq<TopicFilter>, props: Props)
    | SubAck(id: nat, codes: Bytes, props: Props)
    | Unsubscribe(dup: bool, id: nat, topics: seq<Bytes>, props: Props)
    | UnsubAck(id: nat, codes: Bytes, props: Props)
    | PingReq
    | PingResp
    | Disconnect(reason: nat, props: Props)
    | Auth(reason: nat, props: Props)

  datatype ConnectFlags = ConnectFlags(username: bool, password: bool, willRetain: bool, willQoS: nat, will: bool,
                                       clean: bool, reserved: bool)

  datatype Will = Will(topic: Bytes, message: Bytes, props: Props)

  datatype Header = Header(kind: nat, dup: bool, qos: nat, retain: bool, remaining: nat, size: nat)

  // ---------------------------------------------------------------- the fixed header

  function DecodeHeader(s: Bytes): Parsed<Header> {
    if s == [] then Bad(ShortRead)
    else
      var b := At(s, 0);
      match LenDec(s[1..], 4, true)
      case Bad(e) => Bad(e)
      case Got(n, rest) => Got(Header(b / 16, (b / 8) % 2 == 1, (b / 2) % 4, b % 2 == 1, n, |s| - |rest|), rest)
  }

  /** The reserved bits of the first byte. */
  predicate FlagsOk(h: Header) {
    if h.kind == PUBLISH then h.qos != 3
    else if h.kind == PUBREL || h.kind == SUBSCRIBE || h.kind == UNSUBSCRIBE then h.qos == 1 && !h.retain
    else !h.dup && h.qos == 0 && !h.retain
  }

  // ---------------------------------------------------------------- bodies

  /** No wildcard in a topic name: neither '#' nor '+'. */
  predicate TopicName(topic: Bytes) {
    topic != [] && forall i :: 0 <= i < |topic| ==> topic[i] != 0x23 && topic[i] != 0x2B
  }

  /** An empty name needs an alias, which only MQTT 5.0 has. */
  predicate NameOk(v5: bool, topic: Bytes, props: Props) {
    if topic == [] then v5 && props.Some? && TOPIC_ALIAS in props.value.nums && props.value.nums[TOPIC_ALIAS] != 0
    else TopicName(topic)
  }

  /** The property section, where the version has one. */
  function SectionIf(v5: bool, s: Bytes, l: Locus): Parsed<Props> {
    if v5 then DecodeProperties(s, l) else Got(None, s)
  }

  /** What is left of a PUBLISH once its topic and identifier are read; `section` reads the properties. */
  function PublishRest(section: Bytes -> Parsed<Props>, v5: bool, h: Header, topic: Bytes, id: nat,
                       rest: Bytes): Outcome<Packet> {
    var props := section(rest);
    if props.Bad? then Fail(props.error)
    else if !NameOk(v5, topic, props.value) then Fail(Malformed)
    else Done(Publish(h.dup, h.qos, h.retain, topic, id, props.rest, props.value))
  }

  function PublishBody(section: Bytes -> Parsed<Props>, v5: bool, h: Header, body: Bytes): Outcome<Packet> {
    var topic := DecText(body);
    if topic.Bad? then Fail(topic.error)
    else
      var id := if h.qos > 0 then Dec16(topic.rest) else Got(0, topic.rest);
      if id.Bad? then Fail(id.error)
      else if h.qos > 0 && id.value == 0 then Fail(Malformed)
      else PublishRest(section, v5, h, topic.value, id.value, id.rest)
  }

  function ParsePublish(v5: bool, h: Header, body: Bytes): Outcome<Packet> {
    PublishBody((s: Bytes) => SectionIf(v5, s, InPublish), v5, h, body)
  }

  /** A reason code and a property section that must fill what is left, either of them absent if the body ends first. */
  function ParseReason(s: Bytes, l: Locus): Outcome<(nat, Props)> {
    if s == [] then Done((0, None))
    else if |s| == 1 then Done((s[0], None))
    else
      match DecodeProperties(s[1..], l)
      case Bad(e) => Fail(e)
      case Got(props, rest) => if rest != [] then Fail(Malformed) else Done((s[0], props))
  }

  function ParseAck(v5: bool, h: Header, body: Bytes): Outcome<Packet> {
    if |body| < 2 || (!v5 && |body| != 2) then Fail(Malformed)
    else
      var id := Dec16(body);
      if id.value == 0 then Fail(Malformed)
      else
        match ParseReason(body[2..], InAck)
        case Fail(e) => Fail(e)
        case Done(r) => Done(Ack(h.kind, h.dup, id.value, r.0, r.1))
  }

  function ParseOptions(v5: bool, topic: Bytes, b: nat): Outcome<TopicFilter> {
    if (!v5 && b >= 4) || b >= 64 || b % 4 == 3 || (b / 16) % 4 == 3 then Fail(Malformed)
    else Done(TopicFilter(topic, b % 4, (b / 4) % 2 == 1, (b / 8) % 2 == 1, (b / 16) % 4))
  }

  /** One filter and its options, and what follows them. */
  function FilterAt(v5: bool, s: Bytes): (r: Outcome<(TopicFilter, Bytes)>)
    ensures r.Done? ==> |r.value.1| < |s|
  {
    var topic := DecText(s);
    if topic.Bad? then Fail(topic.error)
    else if topic.rest == [] then Fail(ShortRead)
    else
      match ParseOptions(v5, topic.value, topic.rest[0])
      case Fail(e) => Fail(e)
      case Done(f) => Done((f, topic.rest[1..]))
  }

  function TopicAt(s: Bytes): Outcome<(Bytes, Bytes)> {
    match DecText(s)
    case Bad(e) => Fail(e)
    case Got(t, rest) => Done((t, rest))
  }

  type Reader<T> = Bytes -> Outcome<(T, Bytes)>

  function FilterReader(v5: bool): Reader<TopicFilter> {
    s => FilterAt(v5, s)
  }

  /** One item after the other until the bytes run out. */
  function ParseList<T>(one: Reader<T>, s: Bytes, acc: seq<T>): Outcome<seq<T>>
    decreases |s|
  {
    if s == [] then Done(acc)
    else
      match one(s)
      case Fail(e) => Fail(e)
      case Done(item) => if |item.1| >= |s| then Fail(Malformed) else ParseList(one, item.1, acc + [item.0])
  }

  function ParseFilters(v5: bool, s: Bytes, acc: seq<TopicFilter>): Outcome<seq<TopicFilter>> {
    ParseList(FilterReader(v5), s, acc)
  }

  function ParseTopics(s: Bytes, acc: seq<Bytes>): Outcome<seq<Bytes>> {
    ParseList(TopicAt, s, acc)
  }

  /** The body of a packet that starts with an identifier, after that identifier. */
  function ParseAfterId(v5: bool, h: Header, id: nat, s: Bytes): Outcome<Packet> {
    if h.kind == SUBSCRIBE then
      var props := SectionIf(v5, s, InSubscribe);
      if props.Bad? then Fail(props.error)
      else
        match ParseFilters(v5, props.rest, [])
        case Fail(e) => Fail(e)
        case Done(fs) => if fs == [] then Fail(Malformed) else Done(Subscribe(h.dup, id, fs, props.value))
    else if h.kind == UNSUBSCRIBE then
      var props := SectionIf(v5, s, InUnsubscribe);
      if props.Bad? then Fail(props.error)
      else
        match ParseTopics(props.rest, [])
        case Fail(e) => Fail(e)
        case Done(ts) => if ts == [] then Fail(Malformed) else Done(Unsubscribe(h.dup, id, ts, props.value))
    else if s == [] then Done(if h.kind == SUBACK then SubAck(id, [], None) else UnsubAck(id, [], None))
    else
      var props := SectionIf(v5, s, if h.kind == SUBACK then InSubAck else InUnsubAck);
      if props.Bad? then Fail(props.error)
      else Done(if h.kind == SUBACK then SubAck(id, props.rest, props.value) else UnsubAck(id, props.rest, props.value))
  }

  /** A non-zero identifier, and what follows it. */
  function IdBody(after: (nat, Bytes) -> Outcome<Packet>, body: Bytes): Outcome<Packet> {
    if |body| < 2 then Fail(Malformed)
    else
      var id := Dec16(body);
      if id.value == 0 then Fail(Malformed) else after(id.value, body[2..])
  }

  function ParseWithId(v5: bool, h: Header, body: Bytes): Outcome<Packet> {
    if h.kind == UNSUBACK && !v5 && |body| != 2 then Fail(Malformed)
    else IdBody((id: nat, s: Bytes) => ParseAfterId(v5, h, id, s), body)
  }

  function ParseDisconnect(v5: bool, body: Bytes): Outcome<Packet> {
    if !v5 && body != [] then Fail(Malformed)
    else
      match ParseReason(body, InDisconnect)
      case Fail(e) => Fail(e)
      case Done(r) => Done(Disconnect(r.0, r.1))
  }

  predicate AuthReason(code: nat) {
    code == 0x00 || code == 0x18 || code == 0x19
  }

  function ParseAuth(v5: bool, body: Bytes): Outcome<Packet> {
    if !v5 then Fail(InvalidPacket)
    else if body != [] && !AuthReason(body[0]) then Fail(Malformed)
    else
      match ParseReason(body, InAuth)
      case Fail(e) => Fail(e)
      case Done(r) => Done(Auth(r.0, r.1))
  }

  function ParseConnAck(v5: bool, body: Bytes): Outcome<Packet> {
    if |body| < 2 then Fail(ShortRead)
    else if !v5 && |body| != 2 then Fail(Malformed)
    else if |body| == 2 then Done(ConnAck(body[0] % 2 == 1, body[1], None))
    else
      match DecodeProperties(body[2..], InConnAck)
      case Bad(e) => Fail(e)
      case Got(props, rest) => if rest != [] then Fail(Malformed) else Done(ConnAck(body[0] % 2 == 1, body[1], props))
  }

  /** The version a CONNECT announces, which decides how the rest of it reads. */
  function ConnectVersion(body: Bytes): Option<nat> {
    match DecText(body)
    case Bad(_) => None
    case Got(_, rest) => if rest == [] then None else Some(rest[0])
  }

  function ParseWill(v5: bool, flag: bool, s: Bytes): Parsed<Option<Will>> {
    if !flag then Got(None, s)
    else
      var props := SectionIf(v5, s, InWill);
      if props.Bad? then Bad(props.error)
      else
        var topic := DecText(props.rest);
        if topic.Bad? then Bad(topic.error)
        else
          var message := DecBin(topic.rest);
          if message.Bad? then Bad(message.error)
          else Got(Some(Will(topic.value, message.value, props.value)), message.rest)
  }

  function FlagsOf(b: nat): ConnectFlags {
    ConnectFlags((b / 128) % 2 == 1, (b / 64) % 2 == 1, (b / 32) % 2 == 1, (b / 8) % 4, (b / 4) % 2 == 1,
                 (b / 2) % 2 == 1, b % 2 == 1)
  }

  function ParseConnect(body: Bytes): Outcome<Packet> {
    var name := DecText(body);
    if name.Bad? then Fail(name.error)
    else if |name.rest| < 4 then Fail(ShortRead)
    else
      var version, flags, v5 := At(name.rest, 0), FlagsOf(At(name.rest, 1)), name.rest[0] == 5;
      var keepAlive := Dec16(name.rest[2..]);
      var props := SectionIf(v5, name.rest[4..], InConnect);
      if props.Bad? then Fail(props.error)
      else
        var client := DecText(props.rest);
        if client.Bad? then Fail(client.error)
        else
          var will := ParseWill(v5, flags.will, client.rest);
          if will.Bad? then Fail(will.error)
          else
            var user := if flags.username then DecText(will.rest) else Got([], will.rest);
            if user.Bad? then Fail(user.error)
            else
              var pass := if flags.password then DecBin(user.rest) else Got([], user.rest);
              if pass.Bad? then Fail(pass.error)
              else if pass.rest != [] then Fail(Malformed)
              else Done(Connect(name.value, version, flags, keepAlive.value, client.value, will.value, user.value,
                pass.value, props.value))
  }

  function ParseBody(v5: bool, h: Header, body: Bytes): Outcome<Packet> {
    if h.kind == CONNECT then ParseConnect(body)
    else if h.kind == CONNACK then ParseConnAck(v5, body)
    else if h.kind == PUBLISH then ParsePublish(v5, h, body)
    else if PUBACK <= h.kind <= PUBCOMP then ParseAck(v5, h, body)
    else if SUBSCRIBE <= h.kind <= UNSUBACK then ParseWithId(v5, h, body)
    else if h.kind == PINGREQ then (if body == [] then Done(PingReq) else Fail(Malformed))
    else if h.kind == PINGRESP then (if body == [] then Done(PingResp) else Fail(Malformed))
    else if h.kind == DISCONNECT then ParseDisconnect(v5, body)
    else if h.kind == AUTH then ParseAuth(v5, body)
    else Fail(InvalidPacket)
  }

  // ---------------------------------------------------------------- one packet off a stream of bytes

  /** What the codec will look at: a header with sound flags, of a packet no larger than allowed. */
  predicate HeaderOk(h: Header, maxPacketSize: nat) {
    FlagsOk(h) && h.remaining + h.size <= maxPacketSize
  }

  /** One frame off the front of the stream, its body read by `parse`. */
  function DecodeFrame<T>(parse: (Header, Bytes) -> Outcome<T>, maxPacketSize: nat, s: Bytes): Parsed<T> {
    match DecodeHeader(s)
    case Bad(e) => Bad(e)
    case Got(h, rest) =>
      if !FlagsOk(h) then Bad(InvalidPacket)
      else if !HeaderOk(h, maxPacketSize) then Bad(TooLarge)
      else if |rest| < h.remaining then Bad(ShortRead)
      else
        match parse(h, rest[..h.remaining])
        case Fail(e) => Bad(e)
        case Done(p) => Got(p, rest[h.remaining..])
  }

  /** The packet at the front of the stream, a function of the bytes of its own frame alone. */
  function DecodePacket(v5: bool, maxPacketSize: nat, s: Bytes): Parsed<Packet> {
    DecodeFrame((h: Header, body: Bytes) => ParseBody(v5, h, body), maxPacketSize, s)
  }

  // ---------------------------------------------------------------- a whole connection

  /** The version that holds after a packet was accepted. */
  function Announced(v5: bool, p: Packet): bool {
    if p.Connect? then p.version == 5 else v5
  }

  /** Read frames until the bytes run out, each by the version announced before it. */
  function DecodeConnection(v5: bool, maxPacketSize: nat, s: Bytes): Outcome<seq<Packet>>
    decreases |s|
  {
    if s == [] then Done([])
    else
      match DecodePacket(v5, maxPacketSize, s)
      case Bad(e) => Fail(e)
      case Got(p, rest) =>
        if |rest| >= |s| then Fail(Malformed)
        else
          match DecodeConnection(Announced(v5, p), maxPacketSize, rest)
          case Fail(e) => Fail(e)
          case Done(ps) => Done([p] + ps)
  }
}
