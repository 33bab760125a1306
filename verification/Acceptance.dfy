/** What the decoders let through: nothing the encoders could not have written, and no byte that belongs to no field. */
module Acceptance {
  import opened Basics
  import opened Encoding
  import opened Packets
  import opened Properties
  import opened Wire

  // ---------------------------------------------------------------- sound packets only

  /** A set of properties without any is not told apart from none. */
  predicate Told(props: Props) {
    props != Some(EMPTY)
  }

  /** The packet holds nothing the encoder has no bytes for: an empty set of properties, the reserved flag of a CONNECT,
  the level of a will that is not there. */
  predicate Expressible(p: Packet) {
    match p
    case Connect(_, _, flags, _, _, will, _, _, props) =>
      SoundFlags(flags) && Told(props) && (will.Some? ==> Told(will.value.props))
    case PingReq => true
    case PingResp => true
    case _ => Told(p.props)
  }

  /** The header the packet is written with. */
  predicate Heads(h: Header, p: Packet) {
    Encodable(p) && h.kind == KindBits(p) && h.dup == DupBit(p) && h.qos == QosBits(p) && h.retain == RetainBit(p)
  }

  lemma LengthBound(s: Bytes)
    requires VarDec(s, 4).Got?
    ensures VarDec(s, 4).value <= MAX_VARINT
  {
    MaxIsPow();
    VarDecShrinks(s, 4);
  }

  lemma ItemsAccepted(b: Bytes, l: Locus, p: PropertySet)
    requires DecItems(b, l, {}, EMPTY) == Done(p)
    ensures WellFormed(p, l) && |Body(p)| <= |b|
  {
    BodyShrinks(b, l);
  }

  lemma CarriedIff(p: PropertySet, l: Locus)
    requires WellFormed(p, l) && |Body(p)| <= MAX_VARINT
    ensures Carried(true, Some(p), l) <==> Told(Some(p))
  {
  }

  lemma PropertiesAccepted(s: Bytes, l: Locus)
    requires DecodeProperties(s, l).Got?
    ensures Carried(true, DecodeProperties(s, l).value, l) <==> Told(DecodeProperties(s, l).value)
  {
    var n, rest, props := VarDec(s, 4).value, VarDec(s, 4).rest, DecodeProperties(s, l).value;
    LengthBound(s);
    if props.Some? {
      ItemsAccepted(rest[..n], l, props.value);
      CarriedIff(props.value, l);
    }
  }

  lemma SectionAccepted(v5: bool, s: Bytes, l: Locus)
    requires SectionIf(v5, s, l).Got?
    ensures Carried(v5, SectionIf(v5, s, l).value, l) <==> Told(SectionIf(v5, s, l).value)
  {
    if v5 {
      PropertiesAccepted(s, l);
    }
  }

  lemma ReasonAccepted(v5: bool, s: Bytes, l: Locus)
    requires ParseReason(s, l).Done? && (!v5 ==> s == [])
    ensures var (reason, props) := ParseReason(s, l).value; SoundReason(v5, reason, props, l) <==> Told(props)
  {
    if |s| > 1 {
      PropertiesAccepted(s[1..], l);
    }
  }

  lemma PublishAccepted(v5: bool, h: Header, body: Bytes)
    requires FlagsOk(h) && h.qos < 4 && h.kind == PUBLISH && ParsePublish(v5, h, body).Done?
    ensures var p := ParsePublish(v5, h, body).value; Heads(h, p) && (SoundPublish(v5, p) <==> Told(p.props))
  {
    var topic := DecText(body);
    DecTextUses(body);
    var id := if h.qos > 0 then Dec16(topic.rest) else Got(0, topic.rest);
    SectionAccepted(v5, id.rest, InPublish);
  }

  lemma AckAccepted(v5: bool, h: Header, body: Bytes)
    requires FlagsOk(h) && PUBACK <= h.kind <= PUBCOMP && ParseAck(v5, h, body).Done?
    ensures var p := ParseAck(v5, h, body).value; Heads(h, p) && (SoundAck(v5, p) <==> Told(p.props))
  {
    ReasonAccepted(v5, body[2..], InAck);
  }

  lemma SubscribeAccepted(v5: bool, h: Header, id: nat, s: Bytes)
    requires FlagsOk(h) && h.kind == SUBSCRIBE && 0 < id < 0x1_0000 && ParseAfterId(v5, h, id, s).Done?
    ensures var p := ParseAfterId(v5, h, id, s).value; Heads(h, p) && (SoundBody(v5, p) <==> Told(p.props))
  {
    SectionAccepted(v5, s, InSubscribe);
    var rest := SectionIf(v5, s, InSubscribe).rest;
    FiltersExact(v5, rest, ParseFilters(v5, rest, []).value);
  }

  lemma UnsubscribeAccepted(v5: bool, h: Header, id: nat, s: Bytes)
    requires FlagsOk(h) && h.kind == UNSUBSCRIBE && 0 < id < 0x1_0000 && ParseAfterId(v5, h, id, s).Done?
    ensures var p := ParseAfterId(v5, h, id, s).value; Heads(h, p) && (SoundBody(v5, p) <==> Told(p.props))
  {
    SectionAccepted(v5, s, InUnsubscribe);
    var rest := SectionIf(v5, s, InUnsubscribe).rest;
    TopicsExact(rest, ParseTopics(rest, []).value);
  }

  lemma CodesAccepted(v5: bool, h: Header, id: nat, s: Bytes)
    requires FlagsOk(h) && (h.kind == SUBACK || h.kind == UNSUBACK) && 0 < id < 0x1_0000
    requires ParseAfterId(v5, h, id, s).Done? && (h.kind == UNSUBACK && !v5 ==> s == [])
    ensures var p := ParseAfterId(v5, h, id, s).value; Heads(h, p) && (SoundBody(v5, p) <==> Told(p.props))
  {
    if s != [] {
      SectionAccepted(v5, s, if h.kind == SUBACK then InSubAck else InUnsubAck);
    }
  }

  lemma AfterIdAccepted(v5: bool, h: Header, id: nat, s: Bytes)
    requires FlagsOk(h) && SUBSCRIBE <= h.kind <= UNSUBACK && 0 < id < 0x1_0000
    requires ParseAfterId(v5, h, id, s).Done? && (h.kind == UNSUBACK && !v5 ==> s == [])
    ensures var p := ParseAfterId(v5, h, id, s).value; Heads(h, p) && (SoundBody(v5, p) <==> Told(p.props))
  {
    if h.kind == SUBSCRIBE {
      SubscribeAccepted(v5, h, id, s);
    } else if h.kind == UNSUBSCRIBE {
      UnsubscribeAccepted(v5, h, id, s);
    } else {
      CodesAccepted(v5, h, id, s);
    }
  }

  lemma WithIdAccepted(v5: bool, h: Header, body: Bytes)
    requires FlagsOk(h) && SUBSCRIBE <= h.kind <= UNSUBACK && ParseWithId(v5, h, body).Done?
    ensures var p := ParseWithId(v5, h, body).value; Heads(h, p) && (SoundBody(v5, p) <==> Told(p.props))
  {
    AfterIdAccepted(v5, h, Dec16(body).value, body[2..]);
  }

  lemma ConnAckAccepted(v5: bool, body: Bytes)
    requires ParseConnAck(v5, body).Done?
    ensures var p := ParseConnAck(v5, body).value;
            p.ConnAck? && p.reason < 256 && (Carried(v5, p.props, InConnAck) <==> Told(p.props))
  {
    if |body| > 2 {
      PropertiesAccepted(body[2..], InConnAck);
    }
  }

  lemma WillAccepted(v5: bool, flag: bool, s: Bytes)
    requires ParseWill(v5, flag, s).Got?
    ensures var will := ParseWill(v5, flag, s).value;
            && (will.Some? <==> flag)
            && (will.Some? ==> (SoundWill(v5, will.value) <==> Told(will.value.props)))
  {
    if flag {
      SectionAccepted(v5, s, InWill);
      var props := SectionIf(v5, s, InWill);
      DecTextUses(props.rest);
      DecBinUses(DecText(props.rest).rest);
    }
  }

  lemma FlagsLevel(b: nat)
    requires b < 256
    ensures FlagsOf(b).willQoS < 4
  {
  }

  lemma ConnectAccepted(body: Bytes)
    requires ParseConnect(body).Done?
    ensures var p := ParseConnect(body).value; p.Connect? && (SoundConnect(p) <==> Expressible(p))
  {
    var name := DecText(body);
    DecTextUses(body);
    var flags, v5 := FlagsOf(At(name.rest, 1)), name.rest[0] == 5;
    FlagsLevel(At(name.rest, 1));
    SectionAccepted(v5, name.rest[4..], InConnect);
    var props := SectionIf(v5, name.rest[4..], InConnect);
    DecTextUses(props.rest);
    var client := DecText(props.rest);
    WillAccepted(v5, flags.will, client.rest);
    var will := ParseWill(v5, flags.will, client.rest);
    CredentialsAccepted(flags, will.rest);
  }

  lemma CredentialsAccepted(flags: ConnectFlags, s: Bytes)
    ensures flags.username && DecText(s).Got? ==> Sendable(DecText(s).value)
    ensures var user := if flags.username then DecText(s) else Got([], s);
            user.Got? && flags.password && DecBin(user.rest).Got? ==> |DecBin(user.rest).value| < 0x1_0000
  {
    if DecText(s).Got? {
      DecTextUses(s);
    }
    var user := if flags.username then DecText(s) else Got([], s);
    if user.Got? && DecBin(user.rest).Got? {
      DecBinUses(user.rest);
    }
  }

  /** Whatever body a decoder accepts, the packet has the kind and flags of its header, and is one the encoder writes in
  full, if and only if it is expressible: no decoder lets through a zero identifier, a name with a wildcard, a level of
  3, text that is none, or a property out of place. */
  lemma AcceptedIsSoundIff(v5: bool, h: Header, body: Bytes)
    requires FlagsOk(h) && h.qos < 4 && ParseBody(v5, h, body).Done?
    ensures var p := ParseBody(v5, h, body).value; Heads(h, p) && (SoundBody(v5, p) <==> Expressible(p))
  {
    if h.kind == CONNECT {
      ConnectAccepted(body);
    } else if h.kind == CONNACK {
      ConnAckAccepted(v5, body);
    } else if h.kind == PUBLISH {
      PublishAccepted(v5, h, body);
    } else if PUBACK <= h.kind <= PUBCOMP {
      AckAccepted(v5, h, body);
    } else if SUBSCRIBE <= h.kind <= UNSUBACK {
      WithIdAccepted(v5, h, body);
    } else if h.kind == DISCONNECT {
      ReasonAccepted(v5, body, InDisconnect);
    } else if h.kind == AUTH {
      ReasonAccepted(v5, body, InAuth);
    }
  }

  /** And an expressible packet that was accepted is written and read again as it is. */
  lemma AcceptedComesBack(v5: bool, h: Header, body: Bytes)
    requires FlagsOk(h) && h.qos < 4 && ParseBody(v5, h, body).Done? && Expressible(ParseBody(v5, h, body).value)
    ensures var p := ParseBody(v5, h, body).value;
            Encodable(p) && EncodeBody(v5, p).Done? && ParseBody(v5, h, EncodeBody(v5, p).value) == Done(p)
  {
    AcceptedIsSoundIff(v5, h, body);
    BodyParses(v5, ParseBody(v5, h, body).value, h);
  }

  /** The name of an accepted PUBLISH holds neither '#' nor '+', and is empty only where an alias stands in for it. */
  lemma PublishNamed(v5: bool, h: Header, body: Bytes)
    requires ParsePublish(v5, h, body).Done?
    ensures var p := ParsePublish(v5, h, body).value;
            && p.Publish? && 0x23 !in p.topic && 0x2B !in p.topic
            && (p.topic == [] ==>
                  v5 && p.props.Some? && 0x23 in p.props.value.nums && p.props.value.nums[0x23] > 0)
  {
  }

  /** And any such name is sent. */
  lemma NameSent(v5: bool, topic: Bytes, props: Props)
    requires 0x23 !in topic && 0x2B !in topic
    requires topic == [] ==> v5 && props.Some? && 0x23 in props.value.nums && props.value.nums[0x23] > 0
    ensures NameOk(v5, topic, props)
  {
  }

  // ---------------------------------------------------------------- no packet too large

  /** A packet larger than allowed, header included, is refused as such before its body is looked at. */
  lemma LargeIsRefused(v5: bool, maxPacketSize: nat, s: Bytes)
    requires DecodeHeader(s).Got? && FlagsOk(DecodeHeader(s).value)
    requires 1 + |VarEnc(DecodeHeader(s).value.remaining)| + DecodeHeader(s).value.remaining > maxPacketSize
    ensures DecodePacket(v5, maxPacketSize, s) == Bad(TooLarge)
  {
    HeaderPlaces(s);
  }

  /** And a packet that is read takes no more bytes than allowed. */
  lemma ReadIsWithinLimit(v5: bool, maxPacketSize: nat, s: Bytes)
    requires DecodePacket(v5, maxPacketSize, s).Got?
    ensures var rest := DecodePacket(v5, maxPacketSize, s).rest;
            |rest| <= |s| <= |rest| + maxPacketSize && rest == s[|s| - |rest|..]
  {
    HeaderPlaces(s);
    var h, after := DecodeHeader(s).value, DecodeHeader(s).rest;
    assert |s| == |s[1..]| + 1;
    assert after == s[1 + |VarEnc(h.remaining)|..];
  }

  // ---------------------------------------------------------------- no byte too many

  lemma {:induction false} VarFollowed(s: Bytes, k: nat, t: Bytes)
    requires VarDec(s, k).Got?
    ensures VarDec(s + t, k) == Got(VarDec(s, k).value, VarDec(s, k).rest + t)
    decreases k
  {
    assert (s + t)[1..] == s[1..] + t;
    if s[0] >= 128 {
      VarFollowed(s[1..], k - 1, t);
    }
  }

  lemma BinFollowed(s: Bytes, t: Bytes)
    requires DecBin(s).Got?
    ensures DecBin(s + t) == Got(DecBin(s).value, DecBin(s).rest + t)
  {
    var n := At(s, 0) * 256 + At(s, 1);
    assert (s + t)[2..2 + n] == s[2..2 + n] && (s + t)[2 + n..] == s[2 + n..] + t;
  }

  lemma TextFollowed(s: Bytes, t: Bytes)
    requires DecText(s).Got?
    ensures DecText(s + t) == Got(DecText(s).value, DecText(s).rest + t)
  {
    BinFollowed(s, t);
  }

  type Section = Bytes -> Parsed<Props>

  /** What the reader makes of the front is the same whatever follows. */
  ghost predicate Ignores(read: Section, s: Bytes, t: Bytes) {
    read(s).Got? ==> read(s + t) == Got(read(s).value, read(s).rest + t)
  }

  /** A property section once its length is read; `items` reads the properties. */
  function AfterLength(items: Bytes -> Outcome<PropertySet>, n: nat, rest: Bytes): Parsed<Props> {
    if n == 0 then Got(None, rest)
    else if n > |rest| then Bad(Malformed)
    else
      match items(rest[..n])
      case Fail(e) => Bad(e)
      case Done(p) => Got(Some(p), rest[n..])
  }

  lemma AfterLengthFollowed(items: Bytes -> Outcome<PropertySet>, n: nat, rest: Bytes, t: Bytes)
    requires AfterLength(items, n, rest).Got?
    ensures AfterLength(items, n, rest + t)
         == Got(AfterLength(items, n, rest).value, AfterLength(items, n, rest).rest + t)
  {
    if n > 0 {
      assert (rest + t)[..n] == rest[..n] && (rest + t)[n..] == rest[n..] + t;
    }
  }

  lemma SectionParts(s: Bytes, l: Locus, items: Bytes -> Outcome<PropertySet>)
    requires forall b :: items(b) == DecItems(b, l, {}, EMPTY)
    ensures DecodeProperties(s, l) == match VarDec(s, 4)
                                      case Bad(e) => Bad(e)
                                      case Got(n, rest) => AfterLength(items, n, rest)
  {
  }

  lemma PropertiesFollowed(s: Bytes, l: Locus, t: Bytes, read: Section)
    requires forall x :: read(x) == DecodeProperties(x, l)
    ensures Ignores(read, s, t)
  {
    var items := (b: Bytes) => DecItems(b, l, {}, EMPTY);
    SectionParts(s, l, items);
    SectionParts(s + t, l, items);
    if read(s).Got? {
      VarFollowed(s, 4, t);
      AfterLengthFollowed(items, VarDec(s, 4).value, VarDec(s, 4).rest, t);
    }
  }

  lemma SectionFollowed(v5: bool, s: Bytes, l: Locus, t: Bytes)
    requires SectionIf(v5, s, l).Got?
    ensures SectionIf(v5, s + t, l) == Got(SectionIf(v5, s, l).value, SectionIf(v5, s, l).rest + t)
  {
    if v5 {
      var read := (x: Bytes) => DecodeProperties(x, l);
      PropertiesFollowed(s, l, t, read);
      assert read(s + t) == Got(read(s).value, read(s).rest + t);
    }
  }

  lemma WillFollowed(v5: bool, flag: bool, s: Bytes, t: Bytes)
    requires ParseWill(v5, flag, s).Got?
    ensures ParseWill(v5, flag, s + t) == Got(ParseWill(v5, flag, s).value, ParseWill(v5, flag, s).rest + t)
  {
    if flag {
      SectionFollowed(v5, s, InWill, t);
      var rest := SectionIf(v5, s, InWill).rest;
      TextFollowed(rest, t);
      BinFollowed(DecText(rest).rest, t);
    }
  }

  /** What is left of the body of a CONNECT after each of its fields. */
  datatype Cuts = Cuts(name: Bytes, props: Bytes, client: Bytes, will: Bytes, user: Bytes)

  /** The body reads field by field as the packet says, and leaves `end`. */
  ghost predicate ReadsAs(body: Bytes, p: Packet, c: Cuts, end: Bytes) {
    && p.Connect? && DecText(body) == Got(p.name, c.name)
    && |c.name| >= 4 && At(c.name, 0) == p.version && FlagsOf(At(c.name, 1)) == p.flags
    && SectionIf(p.version == 5, c.name[4..], InConnect) == Got(p.props, c.props)
    && DecText(c.props) == Got(p.client, c.client)
    && ParseWill(p.version == 5, p.flags.will, c.client) == Got(p.will, c.will)
    && (if p.flags.username then DecText(c.will) else Got([], c.will)) == Got(p.username, c.user)
    && (if p.flags.password then DecBin(c.user) else Got([], c.user)) == Got(p.password, end)
  }

  lemma ConnectCuts(body: Bytes) returns (c: Cuts)
    requires ParseConnect(body).Done?
    ensures ReadsAs(body, ParseConnect(body).value, c, [])
  {
    var rest := DecText(body).rest;
    var flags, v5 := FlagsOf(At(rest, 1)), rest[0] == 5;
    var afterProps := SectionIf(v5, rest[4..], InConnect).rest;
    var afterClient := DecText(afterProps).rest;
    var afterWill := ParseWill(v5, flags.will, afterClient).rest;
    c := Cuts(rest, afterProps, afterClient, afterWill, if flags.username then DecText(afterWill).rest else afterWill);
  }

  lemma OverrunFails(body: Bytes, p: Packet, c: Cuts, end: Bytes)
    requires ReadsAs(body, p, c, end) && end != []
    ensures ParseConnect(body) == Fail(Malformed)
  {
  }

  lemma FrontFollowed(body: Bytes, p: Packet, c: Cuts, t: Bytes)
    requires ReadsAs(body, p, c, [])
    ensures DecText(body + t) == Got(p.name, c.name + t)
    ensures |c.name + t| >= 4 && At(c.name + t, 0) == p.version && FlagsOf(At(c.name + t, 1)) == p.flags
    ensures SectionIf(p.version == 5, (c.name + t)[4..], InConnect) == Got(p.props, c.props + t)
  {
    TextFollowed(body, t);
    var s, v5 := c.name[4..], p.version == 5;
    assert (c.name + t)[4..] == s + t;
    SectionFollowed(v5, s, InConnect, t);
  }

  lemma UserFollowed(flag: bool, s: Bytes, d: Bytes, rest: Bytes, t: Bytes)
    requires (if flag then DecText(s) else Got([], s)) == Got(d, rest)
    ensures (if flag then DecText(s + t) else Got([], s + t)) == Got(d, rest + t)
  {
    if flag {
      TextFollowed(s, t);
    }
  }

  lemma PasswordFollowed(flag: bool, s: Bytes, d: Bytes, t: Bytes)
    requires (if flag then DecBin(s) else Got([], s)) == Got(d, [])
    ensures (if flag then DecBin(s + t) else Got([], s + t)) == Got(d, t)
  {
    assert [] + t == t;
    if flag {
      BinFollowed(s, t);
    }
  }

  lemma PayloadFollowed(body: Bytes, p: Packet, c: Cuts, t: Bytes)
    requires ReadsAs(body, p, c, [])
    ensures DecText(c.props + t) == Got(p.client, c.client + t)
    ensures ParseWill(p.version == 5, p.flags.will, c.client + t) == Got(p.will, c.will + t)
  {
    TextFollowed(c.props, t);
    WillFollowed(p.version == 5, p.flags.will, c.client, t);
  }

  /** A CONNECT fills its body: no accepted CONNECT is the beginning of another. */
  lemma ConnectFillsBody(body: Bytes, t: Bytes)
    requires ParseConnect(body).Done? && t != []
    ensures ParseConnect(body + t) == Fail(Malformed)
  {
    var p := ParseConnect(body).value;
    var c := ConnectCuts(body);
    FrontFollowed(body, p, c, t);
    PayloadFollowed(body, p, c, t);
    UserFollowed(p.flags.username, c.will, p.username, c.user, t);
    PasswordFollowed(p.flags.password, c.user, p.password, t);
    OverrunFails(body + t, p, Cuts(c.name + t, c.props + t, c.client + t, c.will + t, c.user + t), t);
  }

  /** A section that must fill what is left. */
  function Filling(read: Section, s: Bytes): Outcome<Props> {
    match read(s)
    case Bad(e) => Fail(e)
    case Got(props, rest) => if rest != [] then Fail(Malformed) else Done(props)
  }

  lemma FillingOverrun(read: Section, s: Bytes, t: Bytes)
    requires Ignores(read, s, t) && Filling(read, s).Done? && t != []
    ensures Filling(read, s + t) == Fail(Malformed)
  {
    assert [] + t == t;
  }

  lemma ReasonFills(s: Bytes, l: Locus, read: Section)
    requires |s| > 1 && forall x :: read(x) == DecodeProperties(x, l)
    ensures ParseReason(s, l).Done? ==> Filling(read, s[1..]).Done?
    ensures Filling(read, s[1..]) == Fail(Malformed) ==> ParseReason(s, l) == Fail(Malformed)
  {
  }

  lemma TailFollowed(s: Bytes, t: Bytes)
    requires |s| > 0
    ensures (s + t)[1..] == s[1..] + t
  {
  }

  /** An AUTH names one of three reasons, and only MQTT 5.0 has it. */
  lemma AuthReasonsIff(v5: bool, reason: byte)
    ensures ParseAuth(v5, [reason]).Done? <==> v5 && (reason == 0x00 || reason == 0x18 || reason == 0x19)
    ensures ParseAuth(v5, []).Done? <==> v5
  {
  }

  /** Nothing may follow the properties of an acknowledgement, a DISCONNECT or an AUTH. */
  lemma NothingAfterReason(s: Bytes, l: Locus, t: Bytes)
    requires ParseReason(s, l).Done? && |s| > 1 && t != []
    ensures ParseReason(s + t, l) == Fail(Malformed)
  {
    OverrunReason(s, l, t, s + t, (x: Bytes) => DecodeProperties(x, l));
  }

  lemma OverrunReason(s: Bytes, l: Locus, t: Bytes, longer: Bytes, read: Section)
    requires ParseReason(s, l).Done? && |s| > 1 && t != [] && longer == s + t
    requires forall x :: read(x) == DecodeProperties(x, l)
    ensures ParseReason(longer, l) == Fail(Malformed)
  {
    TailFollowed(s, t);
    ReasonFills(s, l, read);
    PropertiesFollowed(s[1..], l, t, read);
    FillingOverrun(read, s[1..], t);
    ReasonFills(longer, l, read);
  }

  /** Nor those of a CONNACK. */
  lemma NothingAfterConnAck(v5: bool, body: Bytes, t: Bytes)
    requires ParseConnAck(v5, body).Done? && (v5 ==> |body| > 2) && t != []
    ensures ParseConnAck(v5, body + t) == Fail(Malformed)
  {
    assert (body + t)[2..] == body[2..] + t;
    if v5 {
      var read := (x: Bytes) => DecodeProperties(x, InConnAck);
      PropertiesFollowed(body[2..], InConnAck, t, read);
      FillingOverrun(read, body[2..], t);
    }
  }
}
