/** The decoders as they read a byte stream: what they consume when they succeed and when they refuse. */
module Framing {
  import opened Basics
  import opened Encoding
  import opened Packets
  import opened Properties
  import opened Wire

  class Stream {
    const input: Bytes
    var pos: nat

    ghost predicate Valid()
      reads this
    {
      pos <= |input|
    }

    constructor (bytes: Bytes)
      ensures Valid() && input == bytes && pos == 0
    {
      input, pos := bytes, 0;
    }

    /** All of the bytes asked for, or the rest of the stream and an error. */
    method ReadFull(n: nat) returns (r: Outcome<Bytes>)
      requires Valid()
      modifies this
      ensures Valid()
      ensures old(pos) + n <= |input| ==> pos == old(pos) + n && r == Done(input[old(pos)..pos])
      ensures old(pos) + n > |input| ==> pos == |input| && r == Fail(ShortRead)
    {
      if pos + n <= |input| {
        r := Done(input[pos..pos + n]);
        pos := pos + n;
      } else {
        r := Fail(ShortRead);
        pos := |input|;
      }
    }
  }

  /** The frame of `n` bytes at `start`, if the stream holds all of it. */
  ghost function FrameAt(input: Bytes, start: nat, n: nat): Option<Bytes> {
    if start + n <= |input| then Some(input[start..start + n]) else None
  }

  /** A decoder that was handed a frame of `n` bytes at `start` stopped at `pos`. `want` is what the frame alone parses
  to. It accepts exactly when the frame does; then it consumed the frame, and in no case did it read past it. */
  ghost predicate Framed(want: Outcome<Packet>, n: nat, size: nat, start: nat, pos: nat, r: Outcome<Packet>) {
    && start <= pos <= size
    && pos <= start + n
    && (r.Done? <==> want.Done?)
    && (r.Done? ==> pos == start + n && r == want)
  }

  // ---------------------------------------------------------------- the loops over filters and topics

  /** The filters of a SUBSCRIBE: the list that the bytes are the encoding of. */
  method ReadFilters(v5: bool, s: Bytes) returns (r: Outcome<seq<TopicFilter>>)
    ensures r == ParseFilters(v5, s, [])
    ensures r.Done? ==> EncodeFilters(r.value) == Done(s) && forall f :: f in r.value ==> Representable(v5, f)
    ensures r.Fail? ==> forall fs :: EncodeFilters(fs) == Done(s) ==> exists f :: f in fs && !Representable(v5, f)
  {
    FiltersMeaning(v5, s);
    var rest, filters := s, [];
    while |rest| > 0
      invariant ParseFilters(v5, s, []) == ParseFilters(v5, rest, filters)
      decreases |rest|
    {
      var topic := DecText(rest);
      if topic.Bad? {
        return Fail(topic.error);
      }
      if topic.rest == [] {
        return Fail(ShortRead);
      }
      var f := ParseOptions(v5, topic.value, topic.rest[0]);
      if f.Fail? {
        return Fail(f.error);
      }
      rest, filters := topic.rest[1..], filters + [f.value];
    }
    return Done(filters);
  }

  lemma FiltersMeaning(v5: bool, s: Bytes)
    ensures var r := ParseFilters(v5, s, []);
      && (r.Done? ==> EncodeFilters(r.value) == Done(s) && forall f :: f in r.value ==> Representable(v5, f))
      && (r.Fail? ==> forall fs :: EncodeFilters(fs) == Done(s) ==> exists f :: f in fs && !Representable(v5, f))
  {
    var r := ParseFilters(v5, s, []);
    if r.Done? {
      FiltersExact(v5, s, r.value);
    }
    forall fs | r.Fail? && EncodeFilters(fs) == Done(s) ensures exists f :: f in fs && !Representable(v5, f) {
      FiltersExact(v5, s, fs);
    }
  }

  lemma TopicsMeaning(s: Bytes)
    ensures var r := ParseTopics(s, []);
      if r.Done? then EncodeTopics(r.value) == Done(s) else forall ts :: EncodeTopics(ts) != Done(s)
  {
    var r := ParseTopics(s, []);
    if r.Done? {
      TopicsExact(s, r.value);
    }
    forall ts | r.Fail? ensures EncodeTopics(ts) != Done(s) {
      TopicsExact(s, ts);
    }
  }

  /** The topics of an UNSUBSCRIBE, likewise. */
  method ReadTopics(s: Bytes) returns (r: Outcome<seq<Bytes>>)
    ensures r == ParseTopics(s, [])
    ensures if r.Done? then EncodeTopics(r.value) == Done(s) else forall ts :: EncodeTopics(ts) != Done(s)
  {
    TopicsMeaning(s);
    var rest, topics := s, [];
    while |rest| > 0
      invariant ParseTopics(s, []) == ParseTopics(rest, topics)
      decreases |rest|
    {
      var topic := DecText(rest);
      if topic.Bad? {
        return Fail(topic.error);
      }
      rest, topics := topic.rest, topics + [topic.value];
    }
    return Done(topics);
  }

  // ---------------------------------------------------------------- readers of one frame

  /** Read the whole body; the caller looks at it afterwards. */
  method ReadWhole(parse: Bytes -> Outcome<Packet>, r: Stream, n: nat, ghost want: Outcome<Packet>)
    returns (p: Outcome<Packet>, body: Bytes)
    requires r.Valid()
    requires match FrameAt(r.input, r.pos, n) case None => want.Fail? case Some(b) => want == parse(b)
    modifies r
    ensures r.Valid() && Framed(want, n, |r.input|, old(r.pos), r.pos, p)
    ensures FrameAt(r.input, old(r.pos), n).Some? ==> body == FrameAt(r.input, old(r.pos), n).value
    ensures FrameAt(r.input, old(r.pos), n).None? ==> body == []
  {
    var bytes := r.ReadFull(n);
    if bytes.Fail? {
      return Fail(bytes.error), [];
    }
    body := bytes.value;
    p := parse(body);
  }

  /** Read a non-zero identifier, then the rest of the body. */
  method ReadIdAndRest(r: Stream, n: nat) returns (o: Outcome<(nat, Bytes)>)
    requires r.Valid() && n >= 2
    modifies r
    ensures r.Valid() && old(r.pos) <= r.pos <= old(r.pos) + n
    ensures o.Done? ==> r.pos == old(r.pos) + n && o.value.1 == r.input[old(r.pos) + 2..r.pos]
    ensures o.Done? ==> o.value.0 == At(r.input, old(r.pos)) * 256 + At(r.input, old(r.pos) + 1) > 0
    ensures o.Fail? && old(r.pos) + n <= |r.input| ==> At(r.input, old(r.pos)) * 256 + At(r.input, old(r.pos) + 1) == 0
  {
    var bytes := r.ReadFull(2);
    if bytes.Fail? {
      return Fail(bytes.error);
    }
    var id := At(bytes.value, 0) * 256 + At(bytes.value, 1);
    if id == 0 {
      return Fail(Malformed);
    }
    var rest := r.ReadFull(n - 2);
    if rest.Fail? {
      return Fail(rest.error);
    }
    o := Done((id, rest.value));
  }

  // ---------------------------------------------------------------- PUBLISH, field by field

  predicate TopicRefused(body: Bytes) {
    |body| < 2 ||
    var n := At(body, 0) * 256 + At(body, 1);
    n > |body| - 2 || !ValidText(body[2..2 + n])
  }

  lemma PublishNeedsTopic(section: Bytes -> Parsed<Props>, v5: bool, h: Header, body: Bytes)
    requires TopicRefused(body)
    ensures PublishBody(section, v5, h, body).Fail?
  {
  }

  lemma PublishQoS0(section: Bytes -> Parsed<Props>, v5: bool, h: Header, body: Bytes, n: nat)
    requires !TopicRefused(body) && n == At(body, 0) * 256 + At(body, 1) && h.qos == 0
    ensures PublishBody(section, v5, h, body) == PublishRest(section, v5, h, body[2..2 + n], 0, body[2 + n..])
  {
  }

  lemma PublishWithId(section: Bytes -> Parsed<Props>, v5: bool, h: Header, body: Bytes, n: nat)
    requires !TopicRefused(body) && n == At(body, 0) * 256 + At(body, 1) && h.qos > 0
    ensures |body| < n + 4 ==> PublishBody(section, v5, h, body).Fail?
    ensures |body| >= n + 4 && At(body, 2 + n) * 256 + At(body, 3 + n) == 0 ==> PublishBody(section, v5, h, body).Fail?
    ensures |body| >= n + 4 && At(body, 2 + n) * 256 + At(body, 3 + n) > 0 ==>
      PublishBody(section, v5, h, body)
      == PublishRest(section, v5, h, body[2..2 + n], At(body, 2 + n) * 256 + At(body, 3 + n), body[4 + n..])
  {
    if |body| >= n + 4 {
      assert body[2 + n..][2..] == body[4 + n..];
    }
  }

  lemma Slices(s: Bytes, start: nat, n: nat, a: nat, b: nat)
    requires start + n <= |s| && a <= b <= n
    ensures s[start..start + n][a..b] == s[start + a..start + b]
  {
    var x, y := s[start..start + n][a..b], s[start + a..start + b];
    assert |x| == |y| && forall i :: 0 <= i < |x| ==> x[i] == y[i];
  }

  /** What reading the topic says about the frame, if the stream holds all of it. */
  ghost predicate TopicRead(frame: Option<Bytes>, o: Outcome<Bytes>) {
    frame.Some? ==> if o.Done? then Named(frame.value, o.value) else TopicRefused(frame.value)
  }

  /** The topic of a PUBLISH, its length checked against the frame before a byte of it is read. */
  method ReadTopic(r: Stream, n: nat) returns (o: Outcome<Bytes>)
    requires r.Valid()
    modifies r
    ensures r.Valid() && old(r.pos) <= r.pos <= old(r.pos) + n
    ensures o.Done? ==> n >= 2 + |o.value| && r.pos == old(r.pos) + 2 + |o.value| && ValidText(o.value)
    ensures TopicRead(FrameAt(r.input, old(r.pos), n), o)
  {
    ghost var start := r.pos;
    ghost var body := if start + n <= |r.input| then r.input[start..start + n] else [];
    if n < 2 {
      return Fail(Malformed);
    }
    var prefix := r.ReadFull(2);
    if prefix.Fail? {
      return Fail(prefix.error);
    }
    var length := At(prefix.value, 0) * 256 + At(prefix.value, 1);
    if length > n - 2 {
      return Fail(Malformed);
    }
    var topic := r.ReadFull(length);
    if topic.Fail? {
      return Fail(topic.error);
    }
    if start + n <= |r.input| {
      Slices(r.input, start, n, 2, 2 + length);
    }
    if !ValidText(topic.value) {
      return Fail(BadText);
    }
    o := topic;
  }

  /** `used` bytes into the frame, the rest of it decides. */
  method FinishFrame(finish: Bytes -> Outcome<Packet>, r: Stream, n: nat, used: nat, ghost start: nat,
                     ghost want: Outcome<Packet>)
    returns (p: Outcome<Packet>)
    requires r.Valid() && used <= n && r.pos == start + used
    requires match FrameAt(r.input, start, n) case None => want.Fail? case Some(b) => want == finish(b[used..])
    modifies r
    ensures r.Valid() && Framed(want, n, |r.input|, start, r.pos, p)
  {
    var rest := r.ReadFull(n - used);
    if rest.Fail? {
      return Fail(rest.error);
    }
    assert rest.value == r.input[start..start + n][used..];
    p := finish(rest.value);
  }

  /** The same with a non-zero identifier still to come. */
  method FinishFrameWithId(finish: (nat, Bytes) -> Outcome<Packet>, r: Stream, n: nat, used: nat, ghost start: nat,
                           ghost want: Outcome<Packet>)
    returns (p: Outcome<Packet>)
    requires r.Valid() && used <= n && r.pos == start + used
    requires match FrameAt(r.input, start, n)
      case None => want.Fail?
      case Some(b) => want == IdThen(finish, b, used) || (want.Fail? && IdThen(finish, b, used).Fail?)
    modifies r
    ensures r.Valid() && Framed(want, n, |r.input|, start, r.pos, p)
  {
    if used + 2 > n {
      return Fail(Malformed);
    }
    var o := ReadIdAndRest(r, n - used);
    if o.Fail? {
      return Fail(o.error);
    }
    assert o.value.1 == r.input[start..start + n][used + 2..];
    p := finish(o.value.0, o.value.1);
  }

  function IdThen(finish: (nat, Bytes) -> Outcome<Packet>, body: Bytes, used: nat): Outcome<Packet> {
    if |body| < used + 2 || At(body, used) * 256 + At(body, used + 1) == 0 then Fail(Malformed)
    else finish(At(body, used) * 256 + At(body, used + 1), body[used + 2..])
  }

  method ReadPublish(section: Bytes -> Parsed<Props>, v5: bool, r: Stream, h: Header, ghost want: Outcome<Packet>)
    returns (p: Outcome<Packet>)
    requires r.Valid()
    requires match FrameAt(r.input, r.pos, h.remaining)
      case None => want.Fail?
      case Some(b) => want == PublishBody(section, v5, h, b)
    modifies r
    ensures r.Valid() && Framed(want, h.remaining, |r.input|, old(r.pos), r.pos, p)
  {
    ghost var start, frame := r.pos, FrameAt(r.input, r.pos, h.remaining);
    var topic := ReadTopic(r, h.remaining);
    if topic.Fail? {
      if frame.Some? {
        PublishNeedsTopic(section, v5, h, frame.value);
      }
      return Fail(topic.error);
    }
    p := ReadPublishTail(section, v5, r, h, topic.value, start, want);
  }

  /** The body starts with this topic. */
  ghost predicate Named(body: Bytes, name: Bytes) {
    !TopicRefused(body) && At(body, 0) * 256 + At(body, 1) == |name| && body[2..2 + |name|] == name
  }

  /** The identifier, if there is one, and all that follows it. */
  method ReadPublishTail(section: Bytes -> Parsed<Props>, v5: bool, r: Stream, h: Header, name: Bytes, ghost start: nat,
                         ghost want: Outcome<Packet>)
    returns (p: Outcome<Packet>)
    requires r.Valid() && 2 + |name| <= h.remaining && r.pos == start + 2 + |name|
    requires match FrameAt(r.input, start, h.remaining)
      case None => want.Fail?
      case Some(b) => Named(b, name) && want == PublishBody(section, v5, h, b)
    modifies r
    ensures r.Valid() && Framed(want, h.remaining, |r.input|, start, r.pos, p)
  {
    ghost var frame := FrameAt(r.input, start, h.remaining);
    if h.qos > 0 {
      if frame.Some? {
        PublishWithId(section, v5, h, frame.value, |name|);
      }
      var finish := (id: nat, rest: Bytes) => PublishRest(section, v5, h, name, id, rest);
      p := FinishFrameWithId(finish, r, h.remaining, 2 + |name|, start, want);
    } else {
      if frame.Some? {
        PublishQoS0(section, v5, h, frame.value, |name|);
      }
      var finish := (rest: Bytes) => PublishRest(section, v5, h, name, 0, rest);
      p := FinishFrame(finish, r, h.remaining, 2 + |name|, start, want);
    }
  }

  // ---------------------------------------------------------------- the codec

  /** What the frame behind a header parses to, if it is all there. */
  ghost function WantAt(v5: bool, h: Header, input: Bytes, start: nat): Outcome<Packet> {
    match FrameAt(input, start, h.remaining) case None => Fail(ShortRead) case Some(b) => ParseBody(v5, h, b)
  }

  lemma AckRefused(v5: bool, h: Header, b: Bytes)
    requires PUBACK <= h.kind <= PUBCOMP && (|b| < 2 || (!v5 && |b| != 2))
    ensures ParseBody(v5, h, b).Fail?
  {
  }

  lemma IdentifiedRefused(v5: bool, h: Header, b: Bytes)
    requires SUBSCRIBE <= h.kind <= UNSUBACK && (|b| < 2 || (h.kind == UNSUBACK && !v5 && |b| != 2))
    ensures ParseBody(v5, h, b).Fail?
  {
  }

  lemma IdentifiedIsIdBody(v5: bool, h: Header, b: Bytes, after: (nat, Bytes) -> Outcome<Packet>)
    requires SUBSCRIBE <= h.kind <= UNSUBACK && !(h.kind == UNSUBACK && !v5 && |b| != 2)
    requires forall id, s :: after(id, s) == ParseAfterId(v5, h, id, s)
    ensures ParseBody(v5, h, b) == IdBody(after, b)
  {
  }

  /** The identifier and the rest of a frame that `after` makes a packet of. */
  method ReadIdentified(ghost after: (nat, Bytes) -> Outcome<Packet>, r: Stream, n: nat, ghost want: Outcome<Packet>)
    returns (o: Outcome<(nat, Bytes)>)
    requires r.Valid() && n >= 2
    requires match FrameAt(r.input, r.pos, n) case None => want.Fail? case Some(b) => want == IdBody(after, b)
    modifies r
    ensures r.Valid() && old(r.pos) <= r.pos <= old(r.pos) + n
    ensures if o.Done? then r.pos == old(r.pos) + n && want == after(o.value.0, o.value.1) else want.Fail?
  {
    ghost var start := r.pos;
    o := ReadIdAndRest(r, n);
    if o.Done? {
      Slices(r.input, start, n, 2, n);
    }
  }

  lemma WholeRefused(v5: bool, h: Header, b: Bytes)
    requires ((h.kind == PINGREQ || h.kind == PINGRESP) && b != []) || (h.kind == DISCONNECT && !v5 && b != []) ||
        (h.kind == AUTH && !v5)
    ensures ParseBody(v5, h, b).Fail?
  {
  }

  lemma ConnectAnnounces(v5: bool, h: Header, b: Bytes)
    requires h.kind == CONNECT && ParseBody(v5, h, b).Done?
    ensures var p := ParseBody(v5, h, b).value; p.Connect? && ConnectVersion(b) == Some(p.version)
  {
  }

  lemma PublishIsBody(v5: bool, h: Header, b: Bytes, section: Bytes -> Parsed<Props>)
    requires h.kind == PUBLISH && forall s :: section(s) == SectionIf(v5, s, InPublish)
    ensures ParseBody(v5, h, b) == PublishBody(section, v5, h, b)
  {
  }

  /** The fixed header takes at most five bytes, whatever they are. */
  method ReadHeader(r: Stream) returns (o: Outcome<Header>)
    requires r.Valid()
    modifies r
    ensures r.Valid() && old(r.pos) <= r.pos <= old(r.pos) + 5
    ensures match DecodeHeader(r.input[old(r.pos)..])
      case Bad(_) => o.Fail?
      case Got(h, rest) => o == Done(h) && r.pos == old(r.pos) + h.size && rest == r.input[r.pos..]
  {
    ghost var start := r.pos;
    var first := r.ReadFull(1);
    if first.Fail? {
      return Fail(first.error);
    }
    var b := At(first.value, 0);
    assert r.input[start..][1..] == r.input[r.pos..];
    var n, used := ReadRemainingLength(r.input[r.pos..]);
    assert r.input[r.pos..][used..] == r.input[r.pos + used..];
    r.pos := r.pos + used;
    if n.Bad? {
      return Fail(n.error);
    }
    o := Done(Header(b / 16, (b / 8) % 2 == 1, (b / 2) % 4, b % 2 == 1, n.value, 1 + used));
  }

  /** A packet was decoded exactly when the front of the stream holds one, and reading stopped right behind it. */
  ghost predicate Decoded(want: Parsed<Packet>, p: Outcome<Packet>, rest: Bytes) {
    if want.Got? then p == Done(want.value) && rest == want.rest else p.Fail?
  }

  /** Never past the frame the header announces, nor past the longest header if there is none. */
  ghost predicate Within(header: Parsed<Header>, start: nat, pos: nat) {
    pos <= start + if header.Got? then header.value.size + header.value.remaining else 5
  }

  /** Behind a sound header, what the frame parses to is what the stream decodes to. */
  lemma FramedIsDecoded(parse: (Header, Bytes) -> Outcome<Packet>, maxPacketSize: nat, h: Header, input: Bytes,
                        start: nat, at: nat, pos: nat, p: Outcome<Packet>, want: Outcome<Packet>)
    requires start <= at <= |input| && DecodeHeader(input[start..]) == Got(h, input[at..]) && HeaderOk(h, maxPacketSize)
    requires match FrameAt(input, at, h.remaining) case None => want.Fail? case Some(b) => want == parse(h, b)
    requires Framed(want, h.remaining, |input|, at, pos, p)
    ensures Decoded(DecodeFrame(parse, maxPacketSize, input[start..]), p, input[pos..])
  {
    if at + h.remaining <= |input| {
      assert input[at..][..h.remaining] == input[at..at + h.remaining];
      assert input[at..][h.remaining..] == input[at + h.remaining..];
    }
  }

  // ---------------------------------------------------------------- the version of a connection

  /** The version a frame leaves behind: a CONNECT announces it, even one that is then refused. */
  function VersionAfter(v5: bool, h: Header, frame: Option<Bytes>): bool {
    if h.kind == CONNECT && frame.Some? && ConnectVersion(frame.value).Some? then ConnectVersion(frame.value).value == 5
    else v5
  }

  /** The version after one packet off the stream. */
  function VersionNext(v5: bool, maxPacketSize: nat, s: Bytes): bool {
    match DecodeHeader(s)
    case Bad(_) => v5
    case Got(h, rest) =>
      if !HeaderOk(h, maxPacketSize) then v5
      else VersionAfter(v5, h, if |rest| >= h.remaining then Some(rest[..h.remaining]) else None)
  }

  lemma ConnectKind(v5: bool, h: Header, b: Bytes)
    requires ParseBody(v5, h, b).Done?
    ensures ParseBody(v5, h, b).value.Connect? <==> h.kind == CONNECT
  {
  }

  lemma BodyAnnounces(v5: bool, h: Header, b: Bytes)
    requires ParseBody(v5, h, b).Done?
    ensures VersionAfter(v5, h, Some(b)) == Announced(v5, ParseBody(v5, h, b).value)
  {
    ConnectKind(v5, h, b);
    if h.kind == CONNECT {
      ConnectAnnounces(v5, h, b);
    }
  }

  lemma PacketAnnounces(v5: bool, maxPacketSize: nat, s: Bytes)
    requires DecodePacket(v5, maxPacketSize, s).Got?
    ensures VersionNext(v5, maxPacketSize, s) == Announced(v5, DecodePacket(v5, maxPacketSize, s).value)
    ensures |DecodePacket(v5, maxPacketSize, s).rest| < |s|
  {
    var h, rest := DecodeHeader(s).value, DecodeHeader(s).rest;
    HeaderConsumes(s);
    BodyAnnounces(v5, h, rest[..h.remaining]);
  }

  lemma HeaderConsumes(s: Bytes)
    requires DecodeHeader(s).Got?
    ensures |DecodeHeader(s).rest| < |s|
  {
    var r := LenDec(s[1..], 4, true);
    RemainingLengthBijection(r.value, r.rest, s[1..]);
  }

  /** What a loop has read so far, and what it makes of the rest. */
  ghost function Continued(ps: seq<Packet>, rest: Outcome<seq<Packet>>): Outcome<seq<Packet>> {
    if rest.Done? then Done(ps + rest.value) else rest
  }

  lemma ContinuedStep(v5: bool, maxPacketSize: nat, s: Bytes, ps: seq<Packet>)
    requires s != [] && DecodePacket(v5, maxPacketSize, s).Got?
    ensures var r := DecodePacket(v5, maxPacketSize, s);
      Continued(ps, DecodeConnection(v5, maxPacketSize, s))
      == Continued(ps + [r.value], DecodeConnection(Announced(v5, r.value), maxPacketSize, r.rest))
  {
    PacketAnnounces(v5, maxPacketSize, s);
    var r := DecodePacket(v5, maxPacketSize, s);
    var after := DecodeConnection(Announced(v5, r.value), maxPacketSize, r.rest);
    if after.Done? {
      assert ps + [r.value] + after.value == ps + ([r.value] + after.value);
    }
  }

  /** `ps` was read up to `pos`, and the rest completes it to what is wanted. */
  ghost predicate Owed(want: Outcome<seq<Packet>>, ps: seq<Packet>, v5: bool, maxPacketSize: nat, input: Bytes,
                       pos: nat)
    requires pos <= |input|
  {
    want == Continued(ps, DecodeConnection(v5, maxPacketSize, input[pos..]))
  }

  ghost predicate AllRead(want: Outcome<seq<Packet>>, ps: Outcome<seq<Packet>>, pos: nat, size: nat) {
    if want.Done? then ps == want && pos == size else ps.Fail?
  }

  lemma NothingOwed(want: Outcome<seq<Packet>>, ps: seq<Packet>, v5: bool, maxPacketSize: nat, input: Bytes)
    requires Owed(want, ps, v5, maxPacketSize, input, |input|)
    ensures want == Done(ps)
  {
    assert input[|input|..] == [] && ps + [] == ps;
  }

  lemma ContinuedStart(o: Outcome<seq<Packet>>)
    ensures Continued([], o) == o
  {
    if o.Done? {
      assert [] + o.value == o.value;
    }
  }

  /** One turn of the reading loop. */
  lemma LoopStep(v5: bool, maxPacketSize: nat, s: Bytes, ps: seq<Packet>, p: Outcome<Packet>, rest: Bytes, next: bool)
    requires s != [] && Decoded(DecodePacket(v5, maxPacketSize, s), p, rest) &&
        next == VersionNext(v5, maxPacketSize, s)
    ensures p.Fail? ==> DecodeConnection(v5, maxPacketSize, s).Fail?
    ensures p.Done? ==> |rest| < |s|
    ensures p.Done? ==>
      Continued(ps, DecodeConnection(v5, maxPacketSize, s))
      == Continued(ps + [p.value], DecodeConnection(next, maxPacketSize, rest))
  {
    if p.Done? {
      ContinuedStep(v5, maxPacketSize, s, ps);
      PacketAnnounces(v5, maxPacketSize, s);
    }
  }

  lemma SameFrame(input: Bytes, at: nat, n: nat)
    requires at <= |input|
    ensures FrameAt(input, at, n) == if |input[at..]| >= n then Some(input[at..][..n]) else None
  {
    if at + n <= |input| {
      assert input[at..][..n] == input[at..at + n];
    }
  }

  class Codec {
    var v5: bool
    const maxPacketSize: nat

    constructor (size: nat)
      ensures !v5 && maxPacketSize == size
    {
      v5, maxPacketSize := false, size;
    }

    /** One packet off the stream. */
    method Decode(r: Stream) returns (p: Outcome<Packet>)
      requires r.Valid()
      modifies r, `v5
      ensures r.Valid() && r.pos >= old(r.pos)
      ensures Decoded(DecodePacket(old(v5), maxPacketSize, r.input[old(r.pos)..]), p, r.input[r.pos..])
      ensures Within(DecodeHeader(r.input[old(r.pos)..]), old(r.pos), r.pos)
      ensures v5 == VersionNext(old(v5), maxPacketSize, r.input[old(r.pos)..])
    {
      ghost var start, version := r.pos, v5;
      ghost var parse := (h: Header, body: Bytes) => ParseBody(version, h, body);
      var o := ReadHeader(r);
      if o.Fail? {
        return Fail(o.error);
      }
      var h := o.value;
      if !FlagsOk(h) {
        return Fail(InvalidPacket);
      }
      if h.remaining + h.size > maxPacketSize {
        return Fail(TooLarge);
      }
      ghost var at, want := r.pos, WantAt(v5, h, r.input, r.pos);
      p := DecodeBody(r, h);
      FramedIsDecoded(parse, maxPacketSize, h, r.input, start, at, r.pos, p, want);
      SameFrame(r.input, at, h.remaining);
    }

    /** One more packet, `ps` read before it; `want` is what the whole stream holds. */
    method DecodeNext(r: Stream, ghost ps: seq<Packet>, ghost want: Outcome<seq<Packet>>) returns (p: Outcome<Packet>)
      requires r.Valid() && r.pos < |r.input|
      requires Owed(want, ps, v5, maxPacketSize, r.input, r.pos)
      modifies r, `v5
      ensures r.Valid() && (p.Fail? ==> want.Fail?)
      ensures p.Done? ==> r.pos > old(r.pos) && Owed(want, ps + [p.value], v5, maxPacketSize, r.input, r.pos)
    {
      ghost var s, version := r.input[r.pos..], v5;
      p := Decode(r);
      LoopStep(version, maxPacketSize, s, ps, p, r.input[r.pos..], v5);
    }

    /** Packets off the stream until it ends: each is read by the version that the ones before it announced. */
    method DecodeToEnd(r: Stream) returns (ps: Outcome<seq<Packet>>)
      requires r.Valid()
      modifies r, `v5
      ensures r.Valid()
      ensures AllRead(DecodeConnection(old(v5), maxPacketSize, r.input[old(r.pos)..]), ps, r.pos, |r.input|)
    {
      ghost var want := DecodeConnection(v5, maxPacketSize, r.input[r.pos..]);
      ContinuedStart(want);
      ps := DecodeLoop(r, want);
    }

    method DecodeLoop(r: Stream, ghost want: Outcome<seq<Packet>>) returns (ps: Outcome<seq<Packet>>)
      requires r.Valid() && Owed(want, [], v5, maxPacketSize, r.input, r.pos)
      modifies r, `v5
      ensures r.Valid() && AllRead(want, ps, r.pos, |r.input|)
    {
      var got := [];
      while r.pos < |r.input|
        invariant r.Valid() && Owed(want, got, v5, maxPacketSize, r.input, r.pos)
        decreases |r.input| - r.pos
      {
        var p := DecodeNext(r, got, want);
        if p.Fail? {
          return Fail(p.error);
        }
        got := got + [p.value];
      }
      NothingOwed(want, got, v5, maxPacketSize, r.input);
      ps := Done(got);
    }

    /** The decoder of the packet's own type. */
    method DecodeBody(r: Stream, h: Header) returns (p: Outcome<Packet>)
      requires r.Valid()
      modifies r, `v5
      ensures r.Valid() && Framed(WantAt(old(v5), h, r.input, old(r.pos)), h.remaining, |r.input|, old(r.pos), r.pos, p)
      ensures v5 == VersionAfter(old(v5), h, FrameAt(r.input, old(r.pos), h.remaining))
    {
      if h.kind == PUBLISH {
        p := DecodePublish(r, h);
      } else if PUBACK <= h.kind <= PUBCOMP {
        p := DecodeAck(r, h);
      } else if SUBSCRIBE <= h.kind <= UNSUBACK {
        p := DecodeIdentified(r, h);
      } else if h.kind == CONNECT || h.kind == CONNACK || UNSUBACK < h.kind <= AUTH {
        p := DecodeWhole(r, h);
      } else {
        p := Fail(InvalidPacket);
      }
    }

    method DecodePublish(r: Stream, h: Header) returns (p: Outcome<Packet>)
      requires r.Valid() && h.kind == PUBLISH
      modifies r
      ensures r.Valid() && Framed(WantAt(v5, h, r.input, old(r.pos)), h.remaining, |r.input|, old(r.pos), r.pos, p)
    {
      var version := v5;
      var section := (s: Bytes) => SectionIf(version, s, InPublish);
      ghost var frame := FrameAt(r.input, r.pos, h.remaining);
      if frame.Some? {
        PublishIsBody(v5, h, frame.value, section);
      }
      p := ReadPublish(section, v5, r, h, WantAt(v5, h, r.input, r.pos));
    }

    /** PUBACK, PUBREC, PUBREL and PUBCOMP: the length is checked first, then the whole body is read. */
    method DecodeAck(r: Stream, h: Header) returns (p: Outcome<Packet>)
      requires r.Valid() && PUBACK <= h.kind <= PUBCOMP
      modifies r
      ensures r.Valid() && Framed(WantAt(v5, h, r.input, old(r.pos)), h.remaining, |r.input|, old(r.pos), r.pos, p)
    {
      ghost var frame := FrameAt(r.input, r.pos, h.remaining);
      if h.remaining < 2 || (!v5 && h.remaining != 2) {
        if frame.Some? {
          AckRefused(v5, h, frame.value);
        }
        return Fail(Malformed);
      }
      var version, body := v5, [];
      p, body := ReadWhole((b: Bytes) => ParseBody(version, h, b), r, h.remaining, WantAt(v5, h, r.input, r.pos));
    }

    /** SUBSCRIBE, SUBACK, UNSUBSCRIBE and UNSUBACK: the identifier is read before the rest. */
    method DecodeIdentified(r: Stream, h: Header) returns (p: Outcome<Packet>)
      requires r.Valid() && SUBSCRIBE <= h.kind <= UNSUBACK
      modifies r
      ensures r.Valid() && Framed(WantAt(v5, h, r.input, old(r.pos)), h.remaining, |r.input|, old(r.pos), r.pos, p)
    {
      ghost var frame := FrameAt(r.input, r.pos, h.remaining);
      if h.remaining < 2 || (h.kind == UNSUBACK && !v5 && h.remaining != 2) {
        if frame.Some? {
          IdentifiedRefused(v5, h, frame.value);
        }
        return Fail(Malformed);
      }
      ghost var version := v5;
      ghost var after := (id: nat, s: Bytes) => ParseAfterId(version, h, id, s);
      if frame.Some? {
        IdentifiedIsIdBody(v5, h, frame.value, after);
      }
      var o := ReadIdentified(after, r, h.remaining, WantAt(v5, h, r.input, r.pos));
      if o.Fail? {
        return Fail(o.error);
      }
      p := ReadAfterId(h, o.value.0, o.value.1);
    }

    method ReadAfterId(h: Header, id: nat, s: Bytes) returns (p: Outcome<Packet>)
      ensures p == ParseAfterId(v5, h, id, s)
    {
      if h.kind == SUBSCRIBE {
        var props := SectionIf(v5, s, InSubscribe);
        if props.Bad? {
          return Fail(props.error);
        }
        var fs := ReadFilters(v5, props.rest);
        return if fs.Fail? then Fail(fs.error) else if fs.value == [] then Fail(Malformed)
               else Done(Subscribe(h.dup, id, fs.value, props.value));
      }
      if h.kind == UNSUBSCRIBE {
        var props := SectionIf(v5, s, InUnsubscribe);
        if props.Bad? {
          return Fail(props.error);
        }
        var ts := ReadTopics(props.rest);
        return if ts.Fail? then Fail(ts.error) else if ts.value == [] then Fail(Malformed)
               else Done(Unsubscribe(h.dup, id, ts.value, props.value));
      }
      p := ParseAfterId(v5, h, id, s);
    }

    /** CONNECT, CONNACK, the pings, DISCONNECT and AUTH read the whole body before they look at it. The version of a
    CONNECT is remembered as soon as it is seen, whether or not the packet turns out well. */
    method DecodeWhole(r: Stream, h: Header) returns (p: Outcome<Packet>)
      requires r.Valid() && (h.kind == CONNECT || h.kind == CONNACK || UNSUBACK < h.kind <= AUTH)
      modifies r, `v5
      ensures r.Valid() && Framed(WantAt(old(v5), h, r.input, old(r.pos)), h.remaining, |r.input|, old(r.pos), r.pos, p)
      ensures v5 == VersionAfter(old(v5), h, FrameAt(r.input, old(r.pos), h.remaining))
    {
      ghost var frame := FrameAt(r.input, r.pos, h.remaining);
      if ((h.kind == PINGREQ || h.kind == PINGRESP) && h.remaining != 0) ||
         (h.kind == DISCONNECT && !v5 && h.remaining > 0) || (h.kind == AUTH && !v5) {
        if frame.Some? {
          WholeRefused(v5, h, frame.value);
        }
        return Fail(if h.kind == AUTH then InvalidPacket else Malformed);
      }
      var version, body := v5, [];
      p, body := ReadWhole((b: Bytes) => ParseBody(version, h, b), r, h.remaining, WantAt(v5, h, r.input, r.pos));
      if h.kind == CONNECT {
        var announced := ConnectVersion(body);
        if announced.Some? {
          v5 := announced.value == 5;
        }
      }
    }
  }

  /** What was encoded is what the reading loop returns. */
  method ReadBack(c: Codec, ps: seq<Packet>) returns (got: Outcome<seq<Packet>>)
    requires SoundConnection(c.v5, c.maxPacketSize, ps)
    modifies c`v5
    ensures got == Done(ps)
  {
    ConnectionRoundTrip(c.v5, c.maxPacketSize, ps);
    var bytes := EncodeConnection(c.v5, ps);
    var r := new Stream(bytes);
    assert bytes[0..] == bytes;
    got := c.DecodeToEnd(r);
  }
}
