/** Property sections, as a parser and a printer driven by one table of identifiers, kinds and packets. */
module Properties {
  import opened Basics
  import opened Wire

  datatype Outcome<T> = Done(value: T) | Fail(error: Error)

  // ---------------------------------------------------------------- the table

  /** The packet, or the Will inside a CONNECT, that a section belongs to. */
  datatype Locus = InConnect | InWill | InConnAck | InPublish | InAck | InSubscribe | InSubAck | InUnsubscribe
                 | InUnsubAck | InDisconnect | InAuth

  datatype Kind = Flag | Num16 | Num16NonZero | Num32 | Num32NonZero | Text | Binary | SubId | UserPair | Unknown

  const SUB_ID: nat := 0x0B
  const USER: nat := 0x26
  const MAX_USER: nat := 100

  function KindOf(id: nat): Kind {
    match id
    case 0x01 => Flag
    case 0x02 => Num32
    case 0x03 => Text
    case 0x08 => Text
    case 0x09 => Binary
    case 0x0B => SubId
    case 0x11 => Num32
    case 0x12 => Text
    case 0x13 => Num16
    case 0x15 => Text
    case 0x16 => Binary
    case 0x17 => Flag
    case 0x18 => Num32
    case 0x19 => Flag
    case 0x1A => Text
    case 0x1C => Text
    case 0x1F => Text
    case 0x21 => Num16NonZero
    case 0x22 => Num16
    case 0x23 => Num16NonZero
    case 0x24 => Flag
    case 0x25 => Flag
    case 0x26 => UserPair
    case 0x27 => Num32NonZero
    case 0x28 => Flag
    case 0x29 => Flag
    case 0x2A => Flag
    case _ => Unknown
  }

  predicate AllowedIn(id: nat, l: Locus) {
    match id
    case 0x01 => l.InPublish? || l.InWill?
    case 0x02 => l.InPublish? || l.InWill?
    case 0x03 => l.InPublish? || l.InWill?
    case 0x08 => l.InPublish? || l.InWill?
    case 0x09 => l.InPublish? || l.InWill?
    case 0x0B => l.InPublish? || l.InSubscribe?
    case 0x11 => l.InConnect? || l.InConnAck? || l.InDisconnect?
    case 0x12 => l.InConnAck?
    case 0x13 => l.InConnAck?
    case 0x15 => l.InConnect? || l.InConnAck? || l.InAuth?
    case 0x16 => l.InConnect? || l.InConnAck? || l.InAuth?
    case 0x17 => l.InConnect?
    case 0x18 => l.InWill?
    case 0x19 => l.InConnect?
    case 0x1A => l.InConnAck?
    case 0x1C => l.InConnAck? || l.InDisconnect?
    case 0x1F => l.InConnAck? || l.InAck? || l.InSubAck? || l.InUnsubAck? || l.InDisconnect? || l.InAuth?
    case 0x21 => l.InConnect? || l.InConnAck?
    case 0x22 => l.InConnect? || l.InConnAck?
    case 0x23 => l.InPublish?
    case 0x24 => l.InConnAck?
    case 0x25 => l.InConnAck?
    case 0x26 => true
    case 0x27 => l.InConnect? || l.InConnAck?
    case 0x28 => l.InConnAck?
    case 0x29 => l.InConnAck?
    case 0x2A => l.InConnAck?
    case _ => false
  }

  predicate MayRepeat(id: nat, l: Locus) {
    id == USER || (id == SUB_ID && l.InPublish?)
  }

  /** The same table packet by packet, as the sections of the MQTT 5.0 standard on each packet list its properties. */
  ghost function PermittedIn(l: Locus): set<nat> {
    {USER} +
    match l
    case InConnect => {0x11, 0x15, 0x16, 0x17, 0x19, 0x21, 0x22, 0x27}
    case InWill => {0x01, 0x02, 0x03, 0x08, 0x09, 0x18}
    case InConnAck =>
      {0x11, 0x12, 0x13, 0x15, 0x16, 0x1A, 0x1C, 0x1F, 0x21, 0x22, 0x24, 0x25, 0x27, 0x28, 0x29, 0x2A}
    case InPublish => {0x01, 0x02, 0x03, 0x08, 0x09, 0x0B, 0x23}
    case InAck => {0x1F}
    case InSubscribe => {0x0B}
    case InSubAck => {0x1F}
    case InUnsubscribe => {}
    case InUnsubAck => {0x1F}
    case InDisconnect => {0x11, 0x1C, 0x1F}
    case InAuth => {0x15, 0x16, 0x1F}
  }

  /** And type by type. */
  ghost function OfKind(k: Kind): set<nat> {
    match k
    case Flag => {0x01, 0x17, 0x19, 0x24, 0x25, 0x28, 0x29, 0x2A}
    case Num16 => {0x13, 0x22}
    case Num16NonZero => {0x21, 0x23}
    case Num32 => {0x02, 0x11, 0x18}
    case Num32NonZero => {0x27}
    case Text => {0x03, 0x08, 0x12, 0x15, 0x1A, 0x1C, 0x1F}
    case Binary => {0x09, 0x16}
    case SubId => {0x0B}
    case UserPair => {0x26}
    case Unknown => {}
  }

  lemma TableByPacket(id: nat, l: Locus)
    ensures AllowedIn(id, l) <==> id in PermittedIn(l)
  {
  }

  lemma TableByType(id: nat, k: Kind)
    requires !k.Unknown?
    ensures KindOf(id) == k <==> id in OfKind(k)
  {
  }

  /** The order in which the encoder emits them. */
  const ORDER: seq<nat> := [0x01, 0x02, 0x03, 0x08, 0x09, 0x0B, 0x11, 0x12, 0x13, 0x15, 0x16, 0x17, 0x18, 0x19, 0x1A,
                            0x1C, 0x21, 0x22, 0x23, 0x24, 0x25, 0x26, 0x27, 0x28, 0x29, 0x2A, 0x1F]

  // ---------------------------------------------------------------- property sets

  /** A field that is unset, or a text that is empty, has no entry. */
  datatype PropertySet = PropertySet(nums: map<nat, nat>, texts: map<nat, Bytes>, bins: map<nat, Bytes>,
                                     subIds: seq<nat>, user: seq<(Bytes, Bytes)>)

  const EMPTY := PropertySet(map[], map[], map[], [], [])

  datatype Value = Number(n: nat) | Blob(d: Bytes) | Pair(key: Bytes, val: Bytes)

  predicate NumericKind(k: Kind) {
    k.Flag? || k.Num16? || k.Num16NonZero? || k.Num32? || k.Num32NonZero?
  }

  /** The values a numeric field may take. */
  predicate Fits(k: Kind, n: nat) {
    match k
    case Flag => n <= 1
    case Num16 => n < 0x1_0000
    case Num16NonZero => 0 < n < 0x1_0000
    case Num32 => n < 0x1_0000_0000
    case Num32NonZero => 0 < n < 0x1_0000_0000
    case _ => false
  }

  // ---------------------------------------------------------------- decoding

  function DecNum(k: Kind, s: Bytes): Parsed<nat> {
    var r := if k.Flag? then Dec8(s) else if k.Num16? || k.Num16NonZero? then Dec16(s) else Dec32(s);
    if r.Got? && !Fits(k, r.value) then Bad(Malformed) else r
  }

  function DecPair(s: Bytes): Parsed<Value> {
    match DecText(s)
    case Bad(e) => Bad(e)
    case Got(k, rest) =>
      match DecText(rest)
      case Bad(e) => Bad(e)
      case Got(v, rest') => Got(Pair(k, v), rest')
  }

  function AsNumber(r: Parsed<nat>): Parsed<Value> {
    match r case Got(n, rest) => Got(Number(n), rest) case Bad(e) => Bad(e)
  }

  function AsBlob(r: Parsed<Bytes>): Parsed<Value> {
    match r case Got(d, rest) => Got(Blob(d), rest) case Bad(e) => Bad(e)
  }

  function DecSubId(s: Bytes): Parsed<nat> {
    match VarDec(s, 4)
    case Got(n, rest) => if n == 0 then Bad(Malformed) else Got(n, rest)
    case Bad(e) => Bad(e)
  }

  function DecValue(id: nat, s: Bytes): Parsed<Value> {
    match KindOf(id)
    case Text => AsBlob(DecText(s))
    case Binary => AsBlob(DecBin(s))
    case SubId => AsNumber(DecSubId(s))
    case UserPair => DecPair(s)
    case Unknown => Bad(Malformed)
    case k => AsNumber(DecNum(k, s))
  }

  /** Store one decoded value; an empty text or an empty binary leaves its field unset. */
  function Add(p: PropertySet, id: nat, v: Value): PropertySet {
    match v
    case Pair(key, val) => p.(user := p.user + [(key, val)])
    case Number(n) => if id == SUB_ID then p.(subIds := p.subIds + [n]) else p.(nums := p.nums[id := n])
    case Blob(d) =>
      if d == [] then p
      else if KindOf(id).Text? then p.(texts := p.texts[id := d])
      else p.(bins := p.bins[id := d])
  }

  /** Whether the next identifier may be read here at all. */
  function Refusal(id: nat, l: Locus, seen: set<nat>, p: PropertySet): Option<Error> {
    if KindOf(id).Unknown? || !AllowedIn(id, l) then Some(Malformed)
    else if id in seen && !MayRepeat(id, l) then Some(ProtocolError)
    else if id == USER && |p.user| >= MAX_USER then Some(Malformed)
    else None
  }

  lemma DecTextUses(s: Bytes)
    requires DecText(s).Got?
    ensures var r := DecText(s); Sendable(r.value) && |s| == 2 + |r.value| + |r.rest|
  {
  }

  /** A value takes at least one byte. */
  lemma DecValueUses(id: nat, s: Bytes)
    requires DecValue(id, s).Got?
    ensures |DecValue(id, s).rest| < |s|
  {
  }

  datatype Item = Item(id: nat, v: Value, rest: Bytes)

  /** The identifier and value at the front. */
  function ItemAt(s: Bytes, l: Locus, seen: set<nat>, p: PropertySet): (r: Outcome<Item>)
    requires s != []
    ensures r.Done? ==> |r.value.rest| < |s|
  {
    var id: nat := s[0];
    var refusal := Refusal(id, l, seen, p);
    if refusal.Some? then Fail(refusal.value)
    else
      match DecValue(id, s[1..])
      case Bad(e) => Fail(e)
      case Got(v, rest) =>
        DecValueUses(id, s[1..]);
        Done(Item(id, v, rest))
  }

  function DecItems(s: Bytes, l: Locus, seen: set<nat>, p: PropertySet): Outcome<PropertySet>
    decreases |s|
  {
    if s == [] then Done(p)
    else
      match ItemAt(s, l, seen, p)
      case Fail(e) => Fail(e)
      case Done(i) => DecItems(i.rest, l, seen + {i.id}, Add(p, i.id, i.v))
  }

  /** The decoding loop. */
  method ReadItems(body: Bytes, l: Locus) returns (r: Outcome<PropertySet>)
    ensures r == DecItems(body, l, {}, EMPTY)
  {
    var s, seen, p := body, {}, EMPTY;
    while |s| > 0
      invariant DecItems(body, l, {}, EMPTY) == DecItems(s, l, seen, p)
      decreases |s|
    {
      var item := ItemAt(s, l, seen, p);
      if item.Fail? {
        return Fail(item.error);
      }
      s, seen, p := item.value.rest, seen + {item.value.id}, Add(p, item.value.id, item.value.v);
    }
    return Done(p);
  }

  function DecodeProperties(s: Bytes, l: Locus): Parsed<Option<PropertySet>> {
    match VarDec(s, 4)
    case Bad(e) => Bad(e)
    case Got(n, rest) =>
      if n == 0 then Got(None, rest)
      else if n > |rest| then Bad(Malformed)
      else
        match DecItems(rest[..n], l, {}, EMPTY)
        case Fail(e) => Bad(e)
        case Done(p) => Got(Some(p), rest[n..])
  }

  // ---------------------------------------------------------------- encoding

  function EncNum(k: Kind, n: nat): Bytes {
    if k.Flag? then [n % 256]
    else if k.Num16? || k.Num16NonZero? then Enc16(n % 0x1_0000)
    else Enc32(n % 0x1_0000_0000)
  }

  function EncSubs(ids: seq<nat>): Bytes {
    if ids == [] then [] else [SUB_ID] + VarEnc(ids[0]) + EncSubs(ids[1..])
  }

  function EncUsers(us: seq<(Bytes, Bytes)>): Bytes {
    if us == [] then [] else [USER] + EncBin(us[0].0) + EncBin(us[0].1) + EncUsers(us[1..])
  }

  function EncField(p: PropertySet, id: byte): Bytes {
    if id == SUB_ID then EncSubs(p.subIds)
    else if id == USER then EncUsers(p.user)
    else if id in p.texts then [id] + EncBin(p.texts[id])
    else if id in p.bins then [id] + EncBin(p.bins[id])
    else if id in p.nums then [id] + EncNum(KindOf(id), p.nums[id])
    else []
  }

  function EncFields(p: PropertySet, ids: seq<nat>): Bytes {
    if ids == [] then [] else (if ids[0] < 256 then EncField(p, ids[0]) else []) + EncFields(p, ids[1..])
  }

  function Body(p: PropertySet): Bytes {
    EncFields(p, ORDER)
  }

  /** The fields are those the table defines, each holding a value of its own type. */
  predicate Typed(p: PropertySet) {
    && (forall id :: id in p.nums ==> NumericKind(KindOf(id)))
    && (forall id :: id in p.texts ==> KindOf(id).Text? && p.texts[id] != [])
    && (forall id :: id in p.bins ==> KindOf(id).Binary?)
  }

  /** The values and the places the encoder insists on. */
  predicate Valid(p: PropertySet, l: Locus) {
    && (forall id :: id in p.nums ==> Fits(KindOf(id), p.nums[id]) && AllowedIn(id, l))
    && (forall id :: id in p.texts ==> AllowedIn(id, l))
    && (forall id :: id in p.bins ==> AllowedIn(id, l))
    && (forall n :: n in p.subIds ==> n > 0)
    && (p.subIds != [] ==> AllowedIn(SUB_ID, l))
  }

  predicate TextsSendable(p: PropertySet) {
    && (forall id :: id in p.texts ==> Sendable(p.texts[id]))
    && PairsSendable(p.user)
  }

  predicate PairsSendable(us: seq<(Bytes, Bytes)>) {
    forall u :: u in us ==> Sendable(u.0) && Sendable(u.1)
  }

  function EncodeProperties(p: PropertySet, l: Locus): Outcome<Bytes> {
    if !Valid(p, l) then Fail(Malformed)
    else if !TextsSendable(p) then Fail(BadText)
    else Done(VarEnc(|Body(p)| % 0x1_0000_0000) + Body(p))
  }

  // ---------------------------------------------------------------- what a receiver accepts

  /** A set that survives the trip. */
  predicate WellFormed(p: PropertySet, l: Locus) {
    && Typed(p)
    && Valid(p, l)
    && TextsSendable(p)
    && (forall id :: id in p.bins ==> 0 < |p.bins[id]| < 0x1_0000)
    && (forall n :: n in p.subIds ==> n <= MAX_VARINT)
    && (|p.subIds| <= 1 || MayRepeat(SUB_ID, l))
    && |p.user| <= MAX_USER
  }

  // ---------------------------------------------------------------- values

  lemma NumDecodes(k: Kind, n: nat, t: Bytes)
    requires NumericKind(k) && Fits(k, n)
    ensures DecNum(k, EncNum(k, n) + t) == Got(n, t)
  {
    if k.Flag? {
      SmallMod(n, 256);
      assert ([n % 256] + t)[1..] == t;
    } else if k.Num16? || k.Num16NonZero? {
      SmallMod(n, 0x1_0000);
      RoundTrip16(n, t);
    } else {
      SmallMod(n, 0x1_0000_0000);
      RoundTrip32(n, t);
    }
  }

  lemma TextDecodes(d: Bytes, t: Bytes)
    requires Sendable(d)
    ensures DecText(EncBin(d) + t) == Got(d, t)
  {
  }

  lemma PairDecodes(k: Bytes, v: Bytes, t: Bytes)
    requires Sendable(k) && Sendable(v)
    ensures DecPair(EncBin(k) + EncBin(v) + t) == Got(Pair(k, v), t)
  {
    assert EncBin(k) + EncBin(v) + t == EncBin(k) + (EncBin(v) + t);
    TextDecodes(k, EncBin(v) + t);
    TextDecodes(v, t);
  }

  lemma SubIdDecodes(n: nat, t: Bytes)
    requires 0 < n <= MAX_VARINT
    ensures DecSubId(VarEnc(n) + t) == Got(n, t)
  {
    MaxIsPow();
    VarRoundTrip(n, t, 4);
  }

  /** The decoding loop seen from outside: it stops at the end and steps over one item at a time. */
  type Loop = (Bytes, Locus, set<nat>, PropertySet) -> Outcome<PropertySet>

  ghost predicate Steps(d: Loop) {
    && (forall l, seen, q :: d([], l, seen, q) == Done(q))
    && (forall id, e, v, t, l, seen, q :: StepsOver(d, id, e, v, t, l, seen, q))
  }

  ghost predicate StepsOver(d: Loop, id: byte, e: Bytes, v: Value, t: Bytes, l: Locus, seen: set<nat>, q: PropertySet) {
    Refusal(id, l, seen, q).None? && DecValue(id, e + t) == Got(v, t) ==>
      d([id] + e + t, l, seen, q) == d(t, l, seen + {id}, Add(q, id, v))
  }

  lemma DecItemsStep(id: byte, e: Bytes, v: Value, t: Bytes, l: Locus, seen: set<nat>, q: PropertySet)
    requires Refusal(id, l, seen, q).None? && DecValue(id, e + t) == Got(v, t)
    ensures DecItems([id] + e + t, l, seen, q) == DecItems(t, l, seen + {id}, Add(q, id, v))
  {
    ItemInFront(id, e, v, t, l, seen, q);
  }

  lemma ItemInFront(id: byte, e: Bytes, v: Value, t: Bytes, l: Locus, seen: set<nat>, q: PropertySet)
    requires Refusal(id, l, seen, q).None? && DecValue(id, e + t) == Got(v, t)
    ensures ItemAt([id] + e + t, l, seen, q) == Done(Item(id, v, t))
  {
    Prefixed(id, e, t);
    ItemGot([id] + e + t, id, e + t, v, t, l, seen, q);
  }

  lemma Prefixed(id: byte, e: Bytes, t: Bytes)
    ensures [id] + e + t != [] && ([id] + e + t)[0] == id && ([id] + e + t)[1..] == e + t
  {
  }

  lemma ItemGot(s: Bytes, id: nat, tail: Bytes, v: Value, t: Bytes, l: Locus, seen: set<nat>, q: PropertySet)
    requires s != [] && s[0] == id && s[1..] == tail
    requires Refusal(id, l, seen, q) == None && DecValue(id, tail) == Got(v, t)
    ensures ItemAt(s, l, seen, q) == Done(Item(id, v, t))
  {
  }

  lemma DecItemsSteps()
    ensures Steps(DecItems)
  {
    forall id: byte, e: Bytes, v: Value, t: Bytes, l: Locus, seen: set<nat>, q: PropertySet
      ensures StepsOver(DecItems, id, e, v, t, l, seen, q)
    {
      if Refusal(id, l, seen, q).None? && DecValue(id, e + t) == Got(v, t) {
        DecItemsStep(id, e, v, t, l, seen, q);
      }
    }
  }

  lemma ItemStep(d: Loop, id: byte, e: Bytes, v: Value, t: Bytes, l: Locus, seen: set<nat>, q: PropertySet)
    requires Steps(d) && Refusal(id, l, seen, q).None? && DecValue(id, e + t) == Got(v, t)
    ensures d([id] + e + t, l, seen, q) == d(t, l, seen + {id}, Add(q, id, v))
  {
    assert StepsOver(d, id, e, v, t, l, seen, q);
  }

  // ---------------------------------------------------------------- fields

  predicate Present(p: PropertySet, id: nat) {
    if id == SUB_ID then p.subIds != [] else if id == USER then p.user != []
    else id in p.texts || id in p.bins || id in p.nums
  }

  function Marked(p: PropertySet, id: nat, seen: set<nat>): set<nat> {
    if Present(p, id) then seen + {id} else seen
  }

  /** The field `id` of `p`, copied onto `q`. */
  function Copy(q: PropertySet, p: PropertySet, id: nat): PropertySet {
    if id == SUB_ID then q.(subIds := q.subIds + p.subIds)
    else if id == USER then q.(user := q.user + p.user)
    else if id in p.texts then q.(texts := q.texts[id := p.texts[id]])
    else if id in p.bins then q.(bins := q.bins[id := p.bins[id]])
    else if id in p.nums then q.(nums := q.nums[id := p.nums[id]])
    else q
  }

  lemma {:induction false} SubsDecode(d: Loop, ids: seq<nat>, t: Bytes, l: Locus, seen: set<nat>, q: PropertySet)
    requires Steps(d)
    requires AllowedIn(SUB_ID, l) && (forall n :: n in ids ==> 0 < n <= MAX_VARINT)
    requires MayRepeat(SUB_ID, l) || ids == [] || (SUB_ID !in seen && |ids| == 1)
    ensures d(EncSubs(ids) + t, l, seen, q)
         == d(t, l, if ids == [] then seen else seen + {SUB_ID}, q.(subIds := q.subIds + ids))
    decreases |ids|
  {
    if ids == [] {
      assert EncSubs(ids) + t == t && q.subIds + ids == q.subIds;
    } else {
      var rest := EncSubs(ids[1..]) + t;
      assert ids[0] in ids;
      assert EncSubs(ids) + t == [SUB_ID] + VarEnc(ids[0]) + rest;
      SubIdDecodes(ids[0], rest);
      ItemStep(d, SUB_ID, VarEnc(ids[0]), Number(ids[0]), rest, l, seen, q);
      var q' := Add(q, SUB_ID, Number(ids[0]));
      assert forall n :: n in ids[1..] ==> n in ids;
      SubsDecode(d, ids[1..], t, l, seen + {SUB_ID}, q');
      assert q'.subIds + ids[1..] == q.subIds + ids;
      assert seen + {SUB_ID} + {SUB_ID} == seen + {SUB_ID};
    }
  }

  lemma PairsTail(us: seq<(Bytes, Bytes)>)
    requires us != [] && PairsSendable(us)
    ensures Sendable(us[0].0) && Sendable(us[0].1) && PairsSendable(us[1..])
  {
  }

  lemma UsersHead(us: seq<(Bytes, Bytes)>, t: Bytes)
    requires us != []
    ensures EncUsers(us) + t == [USER] + (EncBin(us[0].0) + EncBin(us[0].1)) + (EncUsers(us[1..]) + t)
  {
  }

  lemma UserStep(d: Loop, u: (Bytes, Bytes), t: Bytes, l: Locus, seen: set<nat>, q: PropertySet)
    requires Steps(d)
    requires Sendable(u.0) && Sendable(u.1) && |q.user| < MAX_USER
    ensures d([USER] + (EncBin(u.0) + EncBin(u.1)) + t, l, seen, q) == d(t, l, seen + {USER}, q.(user := q.user + [u]))
  {
    PairDecodes(u.0, u.1, t);
    ItemStep(d, USER, EncBin(u.0) + EncBin(u.1), Pair(u.0, u.1), t, l, seen, q);
  }

  lemma UsersStep(d: Loop, us: seq<(Bytes, Bytes)>, t: Bytes, l: Locus, seen: set<nat>, q: PropertySet)
    requires Steps(d)
    requires us != [] && Sendable(us[0].0) && Sendable(us[0].1) && |q.user| < MAX_USER
    ensures d(EncUsers(us) + t, l, seen, q) == d(EncUsers(us[1..]) + t, l, seen + {USER}, q.(user := q.user + [us[0]]))
  {
    UsersHead(us, t);
    UserStep(d, us[0], EncUsers(us[1..]) + t, l, seen, q);
  }

  lemma {:induction false} UsersDecode(d: Loop, us: seq<(Bytes, Bytes)>, t: Bytes, l: Locus, seen: set<nat>,
                                       q: PropertySet)
    requires Steps(d)
    requires PairsSendable(us) && |q.user| + |us| <= MAX_USER
    ensures d(EncUsers(us) + t, l, seen, q)
         == d(t, l, if us == [] then seen else seen + {USER}, q.(user := q.user + us))
    decreases |us|
  {
    if us == [] {
      assert EncUsers(us) + t == t && q.user + us == q.user;
    } else {
      PairsTail(us);
      UsersStep(d, us, t, l, seen, q);
      UsersDecode(d, us[1..], t, l, seen + {USER}, q.(user := q.user + [us[0]]));
      assert q.user + [us[0]] + us[1..] == q.user + us;
      assert seen + {USER} + {USER} == seen + {USER};
    }
  }

  lemma SimpleFieldDecodes(d: Loop, p: PropertySet, id: byte, t: Bytes, l: Locus, seen: set<nat>, q: PropertySet)
    requires Steps(d)
    requires WellFormed(p, l) && id !in seen && id != SUB_ID && id != USER && Present(p, id)
    ensures d(EncField(p, id) + t, l, seen, q) == d(t, l, seen + {id}, Copy(q, p, id))
  {
    if id in p.texts {
      TextDecodes(p.texts[id], t);
      ItemStep(d, id, EncBin(p.texts[id]), Blob(p.texts[id]), t, l, seen, q);
    } else if id in p.bins {
      RoundTripBin(p.bins[id], t);
      ItemStep(d, id, EncBin(p.bins[id]), Blob(p.bins[id]), t, l, seen, q);
    } else {
      NumDecodes(KindOf(id), p.nums[id], t);
      ItemStep(d, id, EncNum(KindOf(id), p.nums[id]), Number(p.nums[id]), t, l, seen, q);
    }
  }

  lemma FieldDecodes(d: Loop, p: PropertySet, id: byte, t: Bytes, l: Locus, seen: set<nat>, q: PropertySet)
    requires Steps(d)
    requires WellFormed(p, l) && id !in seen && (id == USER ==> q.user == [])
    ensures d(EncField(p, id) + t, l, seen, q) == d(t, l, Marked(p, id, seen), Copy(q, p, id))
  {
    if id == SUB_ID {
      if p.subIds == [] {
        assert EncField(p, id) + t == t && q.subIds + p.subIds == q.subIds;
      } else {
        SubsDecode(d, p.subIds, t, l, seen, q);
      }
    } else if id == USER {
      UsersDecode(d, p.user, t, l, seen, q);
    } else if Present(p, id) {
      SimpleFieldDecodes(d, p, id, t, l, seen, q);
    } else {
      assert EncField(p, id) + t == t;
    }
  }

  // ---------------------------------------------------------------- whole sections

  predicate Listed(ids: seq<nat>) {
    && (forall i :: 0 <= i < |ids| ==> ids[i] < 256)
    && (forall i, j :: 0 <= i < j < |ids| ==> ids[i] != ids[j])
  }

  function CopyAll(q: PropertySet, p: PropertySet, ids: seq<nat>): PropertySet
    decreases |ids|
  {
    if ids == [] then q else CopyAll(Copy(q, p, ids[0]), p, ids[1..])
  }

  lemma {:induction false} FieldsDecode(d: Loop, p: PropertySet, ids: seq<nat>, l: Locus, seen: set<nat>,
                                        q: PropertySet)
    requires Steps(d)
    requires WellFormed(p, l) && Listed(ids) && (forall id :: id in ids ==> id !in seen) &&
        (USER in ids ==> q.user == [])
    ensures d(EncFields(p, ids), l, seen, q) == Done(CopyAll(q, p, ids))
    decreases |ids|
  {
    if ids != [] {
      var id := ids[0];
      assert id in ids && id < 256;
      FieldDecodes(d, p, id, EncFields(p, ids[1..]), l, seen, q);
      assert forall k :: k in ids[1..] ==> k in ids && k != id;
      FieldsDecode(d, p, ids[1..], l, Marked(p, id, seen), Copy(q, p, id));
    }
  }

  lemma {:induction false} CopyAllMaps(q: PropertySet, p: PropertySet, ids: seq<nat>, k: nat)
    requires Typed(p)
    ensures k in CopyAll(q, p, ids).nums <==> k in q.nums || (k in ids && k in p.nums)
    ensures k in CopyAll(q, p, ids).texts <==> k in q.texts || (k in ids && k in p.texts)
    ensures k in CopyAll(q, p, ids).bins <==> k in q.bins || (k in ids && k in p.bins)
    decreases |ids|
  {
    if ids != [] {
      CopyAllMaps(Copy(q, p, ids[0]), p, ids[1..], k);
      assert k in ids <==> k == ids[0] || k in ids[1..];
    }
  }

  /** Wherever both hold an entry, they hold the same one. */
  ghost predicate Agrees(q: PropertySet, p: PropertySet) {
    && (forall k :: k in q.nums && k in p.nums ==> q.nums[k] == p.nums[k])
    && (forall k :: k in q.texts && k in p.texts ==> q.texts[k] == p.texts[k])
    && (forall k :: k in q.bins && k in p.bins ==> q.bins[k] == p.bins[k])
  }

  lemma {:induction false} CopyAllAgrees(q: PropertySet, p: PropertySet, ids: seq<nat>)
    requires Agrees(q, p)
    ensures Agrees(CopyAll(q, p, ids), p)
    decreases |ids|
  {
    if ids != [] {
      CopyAllAgrees(Copy(q, p, ids[0]), p, ids[1..]);
    }
  }

  lemma ListedTail(ids: seq<nat>, k: nat)
    requires Listed(ids) && ids != []
    ensures Listed(ids[1..]) && ids[0] !in ids[1..]
    ensures k in ids <==> k == ids[0] || k in ids[1..]
  {
  }

  lemma {:induction false} CopyAllLists(q: PropertySet, p: PropertySet, ids: seq<nat>)
    requires Listed(ids)
    ensures CopyAll(q, p, ids).subIds == if SUB_ID in ids then q.subIds + p.subIds else q.subIds
    ensures CopyAll(q, p, ids).user == if USER in ids then q.user + p.user else q.user
    decreases |ids|
  {
    if ids != [] {
      ListedTail(ids, SUB_ID);
      ListedTail(ids, USER);
      CopyAllLists(Copy(q, p, ids[0]), p, ids[1..]);
    }
  }

  /** Every identifier of the table, once. */
  ghost predicate Complete(ids: seq<nat>) {
    Listed(ids) && forall id :: !KindOf(id).Unknown? ==> id in ids
  }

  /** Where the encoder emits an identifier. */
  function Rank(id: nat): nat {
    match id
    case 0x01 => 0 case 0x02 => 1 case 0x03 => 2 case 0x08 => 3 case 0x09 => 4 case 0x0B => 5 case 0x11 => 6
    case 0x12 => 7 case 0x13 => 8 case 0x15 => 9 case 0x16 => 10 case 0x17 => 11 case 0x18 => 12 case 0x19 => 13
    case 0x1A => 14 case 0x1C => 15 case 0x21 => 16 case 0x22 => 17 case 0x23 => 18 case 0x24 => 19 case 0x25 => 20
    case 0x26 => 21 case 0x27 => 22 case 0x28 => 23 case 0x29 => 24 case 0x2A => 25 case 0x1F => 26
    case _ => 27
  }

  lemma RankOfOrder(i: nat)
    requires i < |ORDER|
    ensures ORDER[i] < 256 && Rank(ORDER[i]) == i
  {
  }

  lemma OrderHas(id: nat)
    requires !KindOf(id).Unknown?
    ensures Rank(id) < |ORDER| && ORDER[Rank(id)] == id
  {
  }

  lemma OrderComplete()
    ensures Complete(ORDER)
  {
    var ids := ORDER;
    forall i | 0 <= i < |ids| ensures ids[i] < 256 && Rank(ids[i]) == i {
      RankOfOrder(i);
    }
    forall id: nat | !KindOf(id).Unknown? ensures id in ids {
      OrderHas(id);
    }
  }

  lemma SameMap<V>(a: map<nat, V>, b: map<nat, V>)
    requires forall k: nat :: (k in a <==> k in b) && (k in a && k in b ==> a[k] == b[k])
    ensures a == b
  {
  }

  lemma CopyRestores(p: PropertySet, ids: seq<nat>)
    requires Typed(p) && Complete(ids)
    ensures CopyAll(EMPTY, p, ids) == p
  {
    var r := CopyAll(EMPTY, p, ids);
    forall k: nat
      ensures (k in r.nums <==> k in p.nums) && (k in r.texts <==> k in p.texts) && (k in r.bins <==> k in p.bins)
    {
      CopyAllMaps(EMPTY, p, ids, k);
    }
    CopyAllAgrees(EMPTY, p, ids);
    CopyAllLists(EMPTY, p, ids);
    SameMap(r.nums, p.nums);
    SameMap(r.texts, p.texts);
    SameMap(r.bins, p.bins);
    assert !KindOf(SUB_ID).Unknown? && !KindOf(USER).Unknown?;
  }

  /** The body of a well-formed set decodes to that set. */
  lemma BodyRoundTrip(p: PropertySet, l: Locus)
    requires WellFormed(p, l)
    ensures DecItems(Body(p), l, {}, EMPTY) == Done(p)
  {
    DecItemsSteps();
    OrderComplete();
    FieldsDecode(DecItems, p, ORDER, l, {}, EMPTY);
    CopyRestores(p, ORDER);
  }

  // ---------------------------------------------------------------- what was accepted is well formed

  function ValueLen(id: nat, v: Value): nat {
    match v
    case Number(n) => if id == SUB_ID then |VarEnc(n)| else |EncNum(KindOf(id), n)|
    case Blob(d) => 2 + |d|
    case Pair(key, val) => 4 + |key| + |val|
  }

  /** The values the decoder lets through. */
  predicate Good(id: nat, v: Value) {
    match KindOf(id)
    case Text => v.Blob? && Sendable(v.d)
    case Binary => v.Blob? && |v.d| < 0x1_0000
    case SubId => v.Number? && 0 < v.n <= MAX_VARINT
    case UserPair => v.Pair? && Sendable(v.key) && Sendable(v.val)
    case Unknown => false
    case k => v.Number? && Fits(k, v.n)
  }

  lemma NumShrinks(k: Kind, s: Bytes)
    requires NumericKind(k) && DecNum(k, s).Got?
    ensures var r := DecNum(k, s); Fits(k, r.value) && |EncNum(k, r.value)| + |r.rest| == |s|
  {
  }

  lemma PairShrinks(s: Bytes)
    requires DecPair(s).Got?
    ensures var r := DecPair(s); r.value.Pair? && Sendable(r.value.key) && Sendable(r.value.val)
    ensures var r := DecPair(s); 4 + |r.value.key| + |r.value.val| + |r.rest| == |s|
  {
  }

  lemma ValueShrinks(id: nat, s: Bytes)
    requires DecValue(id, s).Got?
    ensures var r := DecValue(id, s); Good(id, r.value) && ValueLen(id, r.value) + |r.rest| <= |s|
  {
    match KindOf(id)
    case Text => DecTextUses(s);
    case Binary => DecBinUses(s);
    case SubId =>
      MaxIsPow();
      VarDecShrinks(s, 4);
    case UserPair => PairShrinks(s);
    case Unknown =>
    case k => NumShrinks(k, s);
  }

  // ---------------------------------------------------------------- adding a value

  lemma {:induction false} SubsAppend(ids: seq<nat>, n: nat)
    ensures EncSubs(ids + [n]) == EncSubs(ids) + ([SUB_ID] + VarEnc(n))
    decreases |ids|
  {
    if ids == [] {
      assert ([n])[1..] == [];
    } else {
      assert (ids + [n])[1..] == ids[1..] + [n];
      SubsAppend(ids[1..], n);
    }
  }

  lemma {:induction false} UsersAppend(us: seq<(Bytes, Bytes)>, u: (Bytes, Bytes))
    ensures EncUsers(us + [u]) == EncUsers(us) + ([USER] + EncBin(u.0) + EncBin(u.1))
    decreases |us|
  {
    if us == [] {
      assert ([u])[1..] == [];
    } else {
      assert (us + [u])[1..] == us[1..] + [u];
      UsersAppend(us[1..], u);
    }
  }

  lemma OtherFieldKept(q: PropertySet, id: nat, v: Value, j: byte)
    requires Good(id, v) && j != id
    ensures EncField(Add(q, id, v), j) == EncField(q, j)
  {
  }

  lemma OwnFieldGrows(q: PropertySet, id: byte, v: Value)
    requires Good(id, v) && Typed(q) && (id == SUB_ID || id == USER || !Present(q, id))
    ensures |EncField(Add(q, id, v), id)| <= |EncField(q, id)| + 1 + ValueLen(id, v)
  {
    if id == SUB_ID {
      SubsAppend(q.subIds, v.n);
    } else if id == USER {
      UsersAppend(q.user, (v.key, v.val));
      RoundTripBin(v.key, []);
      RoundTripBin(v.val, []);
    } else if v.Blob? {
      RoundTripBin(v.d, []);
    }
  }

  lemma {:induction false} BodyGrows(q: PropertySet, id: byte, v: Value, ids: seq<nat>)
    requires Good(id, v) && Typed(q) && (id == SUB_ID || id == USER || !Present(q, id)) && Listed(ids)
    ensures |EncFields(Add(q, id, v), ids)| <= |EncFields(q, ids)| + (if id in ids then 1 + ValueLen(id, v) else 0)
    decreases |ids|
  {
    if ids != [] {
      BodyGrows(q, id, v, ids[1..]);
      assert id in ids <==> id == ids[0] || id in ids[1..];
      if ids[0] == id {
        OwnFieldGrows(q, id, v);
      } else {
        OtherFieldKept(q, id, v, ids[0]);
      }
    }
  }

  /** Every field that is set was seen. */
  ghost predicate Accounted(q: PropertySet, seen: set<nat>) {
    forall id :: Present(q, id) ==> id in seen
  }

  lemma AddAccounted(q: PropertySet, id: nat, v: Value, seen: set<nat>)
    requires Accounted(q, seen) && Good(id, v)
    ensures Accounted(Add(q, id, v), seen + {id})
  {
  }

  lemma AddWellFormed(q: PropertySet, id: nat, v: Value, l: Locus, seen: set<nat>)
    requires WellFormed(q, l) && Accounted(q, seen) && Good(id, v) && Refusal(id, l, seen, q).None?
    ensures WellFormed(Add(q, id, v), l)
  {
    match v
    case Number(n) =>
      if id == SUB_ID {
        AddSubId(q, n, l, seen);
      } else {
        AddNumber(q, id, n, l);
      }
    case Blob(d) => AddBlob(q, id, d, l);
    case Pair(key, val) => AddPair(q, key, val, l);
  }

  lemma AddSubId(q: PropertySet, n: nat, l: Locus, seen: set<nat>)
    requires WellFormed(q, l) && Accounted(q, seen) && 0 < n <= MAX_VARINT && Refusal(SUB_ID, l, seen, q).None?
    ensures WellFormed(q.(subIds := q.subIds + [n]), l)
  {
  }

  lemma AddNumber(q: PropertySet, id: nat, n: nat, l: Locus)
    requires WellFormed(q, l) && NumericKind(KindOf(id)) && Fits(KindOf(id), n) && AllowedIn(id, l)
    ensures WellFormed(q.(nums := q.nums[id := n]), l)
  {
  }

  lemma AddBlob(q: PropertySet, id: nat, d: Bytes, l: Locus)
    requires WellFormed(q, l) && Good(id, Blob(d)) && AllowedIn(id, l)
    ensures WellFormed(Add(q, id, Blob(d)), l)
  {
  }

  lemma AddPair(q: PropertySet, key: Bytes, val: Bytes, l: Locus)
    requires WellFormed(q, l) && Sendable(key) && Sendable(val) && |q.user| < MAX_USER
    ensures WellFormed(q.(user := q.user + [(key, val)]), l)
  {
  }

  lemma {:induction false} AcceptedIsWellFormed(s: Bytes, l: Locus, seen: set<nat>, q: PropertySet)
    requires WellFormed(q, l) && Accounted(q, seen) && DecItems(s, l, seen, q).Done?
    ensures var p := DecItems(s, l, seen, q).value; WellFormed(p, l) && |Body(p)| <= |Body(q)| + |s|
    decreases |s|
  {
    if s != [] {
      var id: byte := s[0];
      var r := DecValue(id, s[1..]);
      ValueShrinks(id, s[1..]);
      DecValueUses(id, s[1..]);
      AddWellFormed(q, id, r.value, l, seen);
      AddAccounted(q, id, r.value, seen);
      BodyStep(q, id, r.value, l, seen);
      AcceptedIsWellFormed(r.rest, l, seen + {id}, Add(q, id, r.value));
    }
  }

  lemma BodyStep(q: PropertySet, id: byte, v: Value, l: Locus, seen: set<nat>)
    requires WellFormed(q, l) && Accounted(q, seen) && Good(id, v) && Refusal(id, l, seen, q).None?
    ensures |Body(Add(q, id, v))| <= |Body(q)| + 1 + ValueLen(id, v)
  {
    OrderComplete();
    BodyGrows(q, id, v, ORDER);
  }

  // ---------------------------------------------------------------- the two laws

  function SetOf(o: Option<PropertySet>): PropertySet {
    if o.Some? then o.value else EMPTY
  }

  /** A set with no fields is not told apart from no set. */
  function Canonical(o: Option<PropertySet>): Option<PropertySet> {
    if SetOf(o) == EMPTY then None else o
  }

  function EncodeSection(o: Option<PropertySet>, l: Locus): Outcome<Bytes> {
    if o.None? then Done(VarEnc(0)) else EncodeProperties(o.value, l)
  }

  lemma {:induction false} EmptyBody(p: PropertySet, ids: seq<nat>)
    requires forall i :: 0 <= i < |ids| ==> ids[i] < 256
    ensures EncFields(p, ids) == [] <==> forall id :: id in ids ==> !Present(p, id)
    decreases |ids|
  {
    if ids != [] {
      EmptyBody(p, ids[1..]);
      assert ids[0] in ids && forall id :: id in ids <==> id == ids[0] || id in ids[1..];
      assert EncField(p, ids[0]) == [] <==> !Present(p, ids[0]);
    }
  }

  lemma PresentIsKnown(p: PropertySet, id: nat)
    requires Typed(p) && Present(p, id)
    ensures !KindOf(id).Unknown?
  {
  }

  lemma NothingPresent(p: PropertySet)
    requires Typed(p)
    ensures p == EMPTY <==> forall id: nat :: !Present(p, id)
  {
    if forall id: nat :: !Present(p, id) {
      assert !Present(p, SUB_ID) && !Present(p, USER);
      assert KindOf(SUB_ID).SubId? && KindOf(USER).UserPair?;
      forall k: nat ensures k !in p.nums && k !in p.texts && k !in p.bins {
        assert !Present(p, k);
      }
      SameMap(p.nums, map[]);
      SameMap(p.texts, map[]);
      SameMap(p.bins, map[]);
    }
  }

  lemma EmptyFields(p: PropertySet, ids: seq<nat>)
    requires Typed(p) && Complete(ids)
    ensures EncFields(p, ids) == [] <==> p == EMPTY
  {
    EmptyBody(p, ids);
    NothingPresent(p);
    if EncFields(p, ids) == [] {
      forall id: nat ensures !Present(p, id) {
        if Present(p, id) {
          PresentIsKnown(p, id);
        }
      }
    }
  }

  lemma EmptyBodyIff(p: PropertySet)
    requires Typed(p)
    ensures Body(p) == [] <==> p == EMPTY
  {
    OrderComplete();
    EmptyFields(p, ORDER);
  }

  lemma BodyShrinks(b: Bytes, l: Locus)
    requires DecItems(b, l, {}, EMPTY).Done?
    ensures var p := DecItems(b, l, {}, EMPTY).value; WellFormed(p, l) && |Body(p)| <= |b|
  {
    EmptyIsWellFormed(l);
    AcceptedIsWellFormed(b, l, {}, EMPTY);
    EmptyBodyIff(EMPTY);
  }

  lemma EmptyIsWellFormed(l: Locus)
    ensures WellFormed(EMPTY, l) && Accounted(EMPTY, {})
  {
  }

  lemma VarZero(t: Bytes)
    ensures VarDec(VarEnc(0) + t, 4) == Got(0, t)
  {
  }

  lemma SectionDecodes(p: PropertySet, l: Locus, t: Bytes)
    requires WellFormed(p, l) && |Body(p)| <= MAX_VARINT
    ensures DecodeProperties(VarEnc(|Body(p)|) + Body(p) + t, l) == Got(Canonical(Some(p)), t)
  {
    var b := Body(p);
    assert VarEnc(|b|) + b + t == VarEnc(|b|) + (b + t);
    MaxIsPow();
    VarRoundTrip(|b|, b + t, 4);
    EmptyBodyIff(p);
    if b == [] {
      assert b + t == t;
    } else {
      assert (b + t)[..|b|] == b && (b + t)[|b|..] == t;
      BodyRoundTrip(p, l);
    }
  }

  /** Every well-formed set whose encoding a Property Length can describe comes back as it was sent. */
  lemma RoundTrip(o: Option<PropertySet>, l: Locus, t: Bytes)
    requires o.Some? ==> WellFormed(o.value, l) && |Body(o.value)| <= MAX_VARINT
    ensures EncodeSection(o, l).Done? && DecodeProperties(EncodeSection(o, l).value + t, l) == Got(Canonical(o), t)
  {
    if o.None? {
      VarZero(t);
    } else {
      SmallMod(|Body(o.value)|, 0x1_0000_0000);
      SectionDecodes(o.value, l, t);
    }
  }

  /** A section that comes back with nothing else taken was described by its Property Length. */
  lemma LengthTold(p: PropertySet, l: Locus, t: Bytes, m: nat)
    requires m == |Body(p)| % 0x1_0000_0000
    requires DecodeProperties(VarEnc(m) + Body(p) + t, l) == Got(Canonical(Some(p)), t)
    ensures |Body(p)| == m <= MAX_VARINT
  {
    var b := Body(p);
    assert VarEnc(m) + b + t == VarEnc(m) + (b + t);
    MaxIsPow();
    if m > MAX_VARINT {
      VarTooLong(m, b + t, 4);
    } else {
      VarRoundTrip(m, b + t, 4);
      assert |(b + t)[m..]| == |b| + |t| - m;
    }
  }

  lemma BackIsWellFormed(p: PropertySet, l: Locus, t: Bytes)
    requires Typed(p) && |Body(p)| <= MAX_VARINT
    requires DecodeProperties(VarEnc(|Body(p)|) + Body(p) + t, l) == Got(Canonical(Some(p)), t)
    ensures WellFormed(p, l)
  {
    var b := Body(p);
    assert VarEnc(|b|) + b + t == VarEnc(|b|) + (b + t);
    MaxIsPow();
    VarRoundTrip(|b|, b + t, 4);
    EmptyBodyIff(p);
    if b == [] {
      EmptyIsWellFormed(l);
    } else {
      assert (b + t)[..|b|] == b;
      BodyShrinks(b, l);
    }
  }

  /** Of the sets the encoder accepts, those that come back are the well-formed ones of a length that can be told:
  the encoder also lets through what no receiver gives back. */
  lemma RoundTripIff(p: PropertySet, l: Locus, t: Bytes)
    requires Typed(p) && EncodeProperties(p, l).Done?
    ensures DecodeProperties(EncodeProperties(p, l).value + t, l) == Got(Canonical(Some(p)), t) <==>
            WellFormed(p, l) && |Body(p)| <= MAX_VARINT
  {
    if WellFormed(p, l) && |Body(p)| <= MAX_VARINT {
      RoundTrip(Some(p), l, t);
    }
    if DecodeProperties(EncodeProperties(p, l).value + t, l) == Got(Canonical(Some(p)), t) {
      LengthTold(p, l, t, |Body(p)| % 0x1_0000_0000);
      BackIsWellFormed(p, l, t);
    }
  }

  /** The numbers a numeric property may hold: the encoder takes these and no others. */
  lemma NumbersEncodedIff(id: nat, n: nat, l: Locus)
    requires id in PermittedIn(l) && NumericKind(KindOf(id))
    ensures EncodeProperties(EMPTY.(nums := map[id := n]), l).Done? <==>
            if id in {0x13, 0x22} then n < 0x1_0000
            else if id in {0x21, 0x23} then 0 < n < 0x1_0000
            else if id in {0x02, 0x11, 0x18} then n < 0x1_0000_0000
            else if id == 0x27 then 0 < n < 0x1_0000_0000
            else n <= 1
  {
    TableByPacket(id, l);
    OnlyNumber(id, n, l);
    TypeRange(id, n);
  }

  lemma OnlyNumber(id: nat, n: nat, l: Locus)
    requires AllowedIn(id, l)
    ensures EncodeProperties(EMPTY.(nums := map[id := n]), l).Done? <==> Fits(KindOf(id), n)
  {
    var p := EMPTY.(nums := map[id := n]);
    assert Valid(p, l) <==> Fits(KindOf(id), p.nums[id]);
  }

  lemma TypeRange(id: nat, n: nat)
    requires NumericKind(KindOf(id))
    ensures Fits(KindOf(id), n) <==>
            if id in {0x13, 0x22} then n < 0x1_0000
            else if id in {0x21, 0x23} then 0 < n < 0x1_0000
            else if id in {0x02, 0x11, 0x18} then n < 0x1_0000_0000
            else if id == 0x27 then 0 < n < 0x1_0000_0000
            else n <= 1
  {
    TableByType(id, KindOf(id));
  }

  /** A one-byte property is 0 or 1, and anything else is refused. */
  lemma FlagsDecodedIff(id: byte, b: byte, l: Locus)
    requires id in PermittedIn(l) && KindOf(id).Flag?
    ensures DecItems([id, b], l, {}, EMPTY).Done? <==> b == 0 || b == 1
  {
    TableByPacket(id, l);
    var s := [id, b];
    assert s[1..] == [b] && s[1..][1..] == [];
  }

  /** So of sets that hold user properties only, those with at most 100 come back. */
  lemma UserPropertiesIff(us: seq<(Bytes, Bytes)>, l: Locus, t: Bytes)
    requires PairsSendable(us)
    ensures var p := EMPTY.(user := us);
            && EncodeProperties(p, l).Done?
            && (DecodeProperties(EncodeProperties(p, l).value + t, l) == Got(Canonical(Some(p)), t) <==>
                |us| <= 100 && |Body(p)| <= MAX_VARINT)
  {
    RoundTripIff(EMPTY.(user := us), l, t);
  }

  /** And of sets that hold subscription identifiers only, any number in a PUBLISH and at most one in a SUBSCRIBE. */
  lemma SubscriptionIdsIff(ids: seq<nat>, l: Locus, t: Bytes)
    requires (l.InPublish? || l.InSubscribe?) && forall n :: n in ids ==> n > 0
    ensures var p := EMPTY.(subIds := ids);
            && EncodeProperties(p, l).Done?
            && (DecodeProperties(EncodeProperties(p, l).value + t, l) == Got(Canonical(Some(p)), t) <==>
                && (l.InSubscribe? ==> |ids| <= 1)
                && (forall n :: n in ids ==> n <= 268435455)
                && |Body(p)| <= MAX_VARINT)
  {
    RoundTripIff(EMPTY.(subIds := ids), l, t);
  }

  /** Such a set: Correlation Data of 65536 bytes or more, whose length is cut to two bytes without complaint. */
  lemma LongBinaryLost(data: Bytes, t: Bytes)
    requires |data| >= 0x1_0000
    ensures var p := EMPTY.(bins := map[0x09 := data]);
            && EncodeProperties(p, InPublish).Done?
            && DecodeProperties(EncodeProperties(p, InPublish).value + t, InPublish) != Got(Canonical(Some(p)), t)
  {
    var p := EMPTY.(bins := map[0x09 := data]);
    assert p.bins[0x09] == data;
    RoundTripIff(p, InPublish, t);
  }

  /** Whatever a decoder accepts re-encodes, to no more bytes, and decodes to the same set. */
  lemma Canonicalises(s: Bytes, l: Locus, t: Bytes)
    requires DecodeProperties(s, l).Got?
    ensures var r := DecodeProperties(s, l); EncodeSection(r.value, l).Done?
    ensures var r := DecodeProperties(s, l); |EncodeSection(r.value, l).value| + |r.rest| <= |s|
    ensures var r := DecodeProperties(s, l);
            DecodeProperties(EncodeSection(r.value, l).value + t, l) == Got(Canonical(r.value), t)
  {
    var n, rest := VarDec(s, 4).value, VarDec(s, 4).rest;
    MaxIsPow();
    VarDecShrinks(s, 4);
    if n == 0 {
      VarZero(t);
    } else {
      BodyShrinks(rest[..n], l);
      SectionShrinks(DecItems(rest[..n], l, {}, EMPTY).value, l, n, t);
    }
  }

  lemma SectionShrinks(p: PropertySet, l: Locus, n: nat, t: Bytes)
    requires WellFormed(p, l) && |Body(p)| <= n <= MAX_VARINT
    ensures EncodeSection(Some(p), l).Done? && |EncodeSection(Some(p), l).value| <= |VarEnc(n)| + n
    ensures DecodeProperties(EncodeSection(Some(p), l).value + t, l) == Got(Canonical(Some(p)), t)
  {
    VarEncMonotone(|Body(p)|, n);
    SmallMod(|Body(p)|, 0x1_0000_0000);
    RoundTrip(Some(p), l, t);
  }
}
