/** Bytes on the wire: fixed-width integers, variable byte integers, strings and binary data. */
module Wire {

  type byte = x: int | 0 <= x < 256
  type Bytes = seq<byte>

  const MAX_VARINT: nat := 268435455
  const LAST_MULTIPLIER: nat := 2097152

  datatype Error = ShortRead | Malformed | ProtocolError | InvalidPacket | TooLarge | BadText | Unsupported

  /** What a reader hands back: a value and what is left, or why it stopped. */
  datatype Parsed<T> = Got(value: T, rest: Bytes) | Bad(error: Error)

  function At(s: Bytes, i: nat): nat
    requires i < |s|
  {
    s[i]
  }

  // ---------------------------------------------------------------- fixed width

  function Enc16(n: nat): Bytes
    requires n < 0x1_0000
  {
    [n / 256, n % 256]
  }

  function Enc32(n: nat): Bytes
    requires n < 0x1_0000_0000
  {
    Enc16(n / 0x1_0000) + Enc16(n % 0x1_0000)
  }

  function Dec8(s: Bytes): Parsed<nat> {
    if |s| < 1 then Bad(ShortRead) else Got(s[0], s[1..])
  }

  function Dec16(s: Bytes): Parsed<nat> {
    if |s| < 2 then Bad(ShortRead) else Got(At(s, 0) * 256 + At(s, 1), s[2..])
  }

  function Dec32(s: Bytes): Parsed<nat> {
    if |s| < 4 then Bad(ShortRead) else Got(((At(s, 0) * 256 + At(s, 1)) * 256 + At(s, 2)) * 256 + At(s, 3), s[4..])
  }

  lemma RoundTrip16(n: nat, t: Bytes)
    requires n < 0x1_0000
    ensures |Enc16(n)| == 2 && Dec16(Enc16(n) + t) == Got(n, t)
  {
    assert (Enc16(n) + t)[2..] == t;
  }

  lemma RoundTrip32(n: nat, t: Bytes)
    requires n < 0x1_0000_0000
    ensures |Enc32(n)| == 4 && Dec32(Enc32(n) + t) == Got(n, t)
  {
    var e, hi, lo := Enc32(n), n / 0x1_0000, n % 0x1_0000;
    assert e == [hi / 256, hi % 256, lo / 256, lo % 256];
    assert (e + t)[4..] == t;
    assert (hi / 256) * 256 + hi % 256 == hi && (lo / 256) * 256 + lo % 256 == lo && hi * 0x1_0000 + lo == n;
  }

  /** The number some bytes stand for, the most significant first. */
  ghost function BigEndian(s: Bytes): nat {
    if s == [] then 0 else 256 * BigEndian(s[..|s| - 1]) + At(s, |s| - 1)
  }

  lemma BigEndianTwo(s: Bytes)
    requires |s| == 2
    ensures BigEndian(s) == 256 * At(s, 0) + At(s, 1)
  {
    assert s[..1] == [s[0]] && s[..1][..0] == [];
    assert BigEndian(s[..1]) == At(s, 0);
  }

  lemma BigEndianFour(s: Bytes)
    requires |s| == 4
    ensures BigEndian(s) == 0x1_0000 * BigEndian(s[..2]) + BigEndian(s[2..])
  {
    BigEndianTwo(s[..2]);
    BigEndianTwo(s[2..]);
    assert s[..3][..2] == s[..2];
    assert BigEndian(s[..3]) == 256 * BigEndian(s[..2]) + At(s, 2);
  }

  /** Fixed-width integers are read in network byte order, and fail only if there are too few bytes. */
  lemma FixedWidthBigEndian(s: Bytes)
    ensures Dec16(s) == if |s| < 2 then Bad(ShortRead) else Got(BigEndian(s[..2]), s[2..])
    ensures Dec32(s) == if |s| < 4 then Bad(ShortRead) else Got(BigEndian(s[..4]), s[4..])
  {
    if |s| >= 2 {
      BigEndianTwo(s[..2]);
    }
    if |s| >= 4 {
      BigEndianFour(s[..4]);
      assert s[..4][..2] == s[..2] && s[..4][2..] == s[2..4];
      BigEndianTwo(s[2..4]);
    }
  }

  /** And written so. */
  lemma WrittenBigEndian(n: nat)
    ensures n < 0x1_0000 ==> |Enc16(n)| == 2 && BigEndian(Enc16(n)) == n
    ensures n < 0x1_0000_0000 ==> |Enc32(n)| == 4 && BigEndian(Enc32(n)) == n
  {
    if n < 0x1_0000 {
      BigEndianTwo(Enc16(n));
    }
    if n < 0x1_0000_0000 {
      var hi, lo := n / 0x1_0000, n % 0x1_0000;
      BigEndianTwo(Enc16(hi));
      BigEndianTwo(Enc16(lo));
      assert Enc32(n)[..2] == Enc16(hi) && Enc32(n)[2..] == Enc16(lo);
      BigEndianFour(Enc32(n));
    }
  }

  // ---------------------------------------------------------------- variable byte integers

  /** Seven bits per byte, least significant first, the top bit set on all but the last byte. */
  function VarEnc(n: nat): Bytes {
    if n < 128 then [n] else [128 + n % 128] + VarEnc(n / 128)
  }

  /** Read at most `k` bytes, longer-than-needed encodings included. */
  function VarDec(s: Bytes, k: nat): Parsed<nat>
    decreases k
  {
    if k == 0 then Bad(Malformed)
    else if s == [] then Bad(ShortRead)
    else if s[0] < 128 then Got(s[0], s[1..])
    else Above(s[0], VarDec(s[1..], k - 1))
  }

  /** A leading byte in front of what the bytes behind it stand for. */
  function Above(b: byte, r: Parsed<nat>): Parsed<nat>
    requires b >= 128
  {
    match r
    case Got(n, rest) => Got(b - 128 + 128 * n, rest)
    case Bad(e) => Bad(e)
  }

  function Pow128(k: nat): (p: nat)
    ensures p >= 1
  {
    if k == 0 then 1 else 128 * Pow128(k - 1)
  }

  /** The number some bytes stand for, seven bits each, the least significant first. */
  ghost function Septets(s: Bytes): nat {
    if s == [] then 0 else s[0] % 128 + 128 * Septets(s[1..])
  }

  /** Every byte but the last says that more follow. */
  ghost predicate Chained(s: Bytes) {
    s != [] && At(s, |s| - 1) < 128 && forall i :: 0 <= i < |s| - 1 ==> s[i] >= 128
  }

  lemma {:induction false} VarEncSeptets(n: nat)
    ensures Chained(VarEnc(n)) && Septets(VarEnc(n)) == n
  {
    if n >= 128 {
      VarEncSeptets(n / 128);
      assert VarEnc(n)[1..] == VarEnc(n / 128);
    } else {
      assert [n as byte][1..] == [];
    }
  }

  /** A variable byte integer that is read is the seven-bit groups of a chain of at most `k` bytes at the front. */
  lemma {:induction false} VarDecSeptets(s: Bytes, k: nat)
    requires VarDec(s, k).Got?
    ensures var r := VarDec(s, k);
            var used := |s| - |r.rest|;
            0 < used <= |s| && used <= k && Chained(s[..used]) && r.value == Septets(s[..used]) && r.rest == s[used..]
    decreases k
  {
    if s[0] < 128 {
      assert s[..1][1..] == [];
    } else {
      VarDecSeptets(s[1..], k - 1);
      var used := |s| - |VarDec(s, k).rest|;
      assert s[..used][1..] == s[1..][..used - 1];
      assert forall i :: 0 < i < used ==> s[i] == s[1..][i - 1];
    }
  }

  lemma {:induction false} VarRoundTrip(n: nat, t: Bytes, k: nat)
    requires k > 0 && n < Pow128(k)
    ensures VarDec(VarEnc(n) + t, k) == Got(n, t) && |VarEnc(n)| <= k
    decreases k
  {
    if n < 128 {
      assert (VarEnc(n) + t)[1..] == t;
    } else {
      assert n / 128 < Pow128(k - 1);
      VarRoundTrip(n / 128, t, k - 1);
      assert (VarEnc(n) + t)[1..] == VarEnc(n / 128) + t;
    }
  }

  /** What was read is below the bound, and the shortest encoding of it is no longer than what was read. */
  lemma {:induction false} VarDecShrinks(s: Bytes, k: nat)
    requires VarDec(s, k).Got?
    ensures var r := VarDec(s, k); r.value < Pow128(k) && |r.rest| + |VarEnc(r.value)| <= |s|
    ensures var r := VarDec(s, k); |r.rest| < |s| && r.rest == s[|s| - |r.rest|..]
  {
    if s[0] >= 128 {
      VarDecShrinks(s[1..], k - 1);
      var n := VarDec(s[1..], k - 1).value;
      assert (s[0] - 128 + 128 * n) / 128 == n;
      assert |VarEnc(n)| >= 1;
    }
  }

  lemma {:induction false} VarEncMonotone(m: nat, n: nat)
    requires m <= n
    ensures |VarEnc(m)| <= |VarEnc(n)|
    decreases n
  {
    if m >= 128 {
      VarEncMonotone(m / 128, n / 128);
    }
  }

  lemma MaxIsPow()
    ensures Pow128(4) == MAX_VARINT + 1
  {
    assert Pow128(1) == 128 && Pow128(2) == 16384 && Pow128(3) == 2097152;
  }

  /** A value past the bound has no four-byte encoding, and the five bytes written for it are refused. */
  lemma {:induction false} VarTooLong(n: nat, t: Bytes, k: nat)
    requires n >= Pow128(k)
    ensures VarDec(VarEnc(n) + t, k) == Bad(Malformed)
    decreases k
  {
    if k > 0 {
      assert n >= 128 * Pow128(k - 1) && Pow128(k - 1) >= 1;
      assert n / 128 >= Pow128(k - 1);
      VarTooLong(n / 128, t, k - 1);
      assert (VarEnc(n) + t)[1..] == VarEnc(n / 128) + t;
    }
  }

  // ---------------------------------------------------------------- the Remaining Length

  /** The reader of the fixed header refuses an encoding that ends in a useless zero byte. */
  function LenDec(s: Bytes, k: nat, first: bool): Parsed<nat>
    decreases k
  {
    if s == [] then Bad(ShortRead)
    else if s[0] < 128 then (if s[0] == 0 && !first then Bad(InvalidPacket) else Got(s[0], s[1..]))
    else if k <= 1 then Bad(InvalidPacket)
    else Above(s[0], LenDec(s[1..], k - 1, false))
  }

  lemma {:induction false} LenRoundTrip(n: nat, t: Bytes, k: nat, first: bool)
    requires k > 0 && n < Pow128(k) && (first || n > 0)
    ensures LenDec(VarEnc(n) + t, k, first) == Got(n, t)
    decreases k
  {
    if n < 128 {
      assert (VarEnc(n) + t)[1..] == t;
    } else {
      assert n / 128 < Pow128(k - 1);
      LenRoundTrip(n / 128, t, k - 1, false);
      assert (VarEnc(n) + t)[1..] == VarEnc(n / 128) + t;
    }
  }

  lemma {:induction false} LenUnique(s: Bytes, k: nat, first: bool)
    requires k > 0 && LenDec(s, k, first).Got?
    ensures var r := LenDec(s, k, first); r.value < Pow128(k) && (first || r.value > 0) && s == VarEnc(r.value) + r.rest
    decreases k
  {
    if s[0] < 128 {
      assert s == [s[0]] + s[1..];
      assert Pow128(k) >= 128;
    } else {
      LenUnique(s[1..], k - 1, false);
      var r := LenDec(s[1..], k - 1, false);
      var n := s[0] - 128 + 128 * r.value;
      assert n / 128 == r.value && n % 128 == s[0] - 128;
      assert s == [s[0]] + s[1..];
    }
  }

  /** The Remaining Length coding is a bijection between 0..268435455 and the accepted encodings. */
  lemma RemainingLengthBijection(n: nat, t: Bytes, s: Bytes)
    ensures n <= MAX_VARINT ==> LenDec(VarEnc(n) + t, 4, true) == Got(n, t)
    ensures LenDec(s, 4, true) == Got(n, t) ==> n <= MAX_VARINT && s == VarEnc(n) + t
  {
    MaxIsPow();
    if n <= MAX_VARINT {
      LenRoundTrip(n, t, 4, true);
    }
    if LenDec(s, 4, true) == Got(n, t) {
      LenUnique(s, 4, true);
    }
  }

  // ---------------------------------------------------------------- the loops

  /** What the bytes to come add to what was read so far. */
  ghost function Scaled(val: nat, multiplier: nat, r: Parsed<nat>): Parsed<nat> {
    match r
    case Got(n, rest) => Got(val + multiplier * n, rest)
    case Bad(e) => Bad(e)
  }

  lemma ScaledStep(val: nat, m: nat, b: byte, r: Parsed<nat>)
    requires b >= 128
    ensures Scaled(val, m, Above(b, r)) == Scaled(val + (b - 128) * m, m * 128, r)
  {
    if r.Got? {
      Distribute(m, b - 128, r.value);
    }
  }

  lemma Distribute(m: nat, low: nat, n: nat)
    ensures m * (low + 128 * n) == low * m + (m * 128) * n
  {
    assert m * (low + 128 * n) == m * low + m * (128 * n);
    assert m * (128 * n) == (m * 128) * n;
  }

  lemma ScaledLast(val: nat, m: nat, b: byte, rest: Bytes)
    ensures Scaled(val, m, Got(b, rest)) == Got(val + b * m, rest)
  {
  }

  /** The seven bits a byte carries. */
  function Low(s: Bytes, i: nat): nat
    requires i < |s|
  {
    s[i] % 128
  }

  lemma VarEnd(s: Bytes, i: nat, val: nat, m: nat)
    requires i < |s| && i < 4 && s[i] < 128
    ensures Scaled(val, m, VarDec(s[i..], 4 - i)) == Got(val + Low(s, i) * m, s[i + 1..])
  {
    assert s[i..][0] == s[i] && s[i..][1..] == s[i + 1..];
    ScaledLast(val, m, s[i], s[i + 1..]);
  }

  lemma VarNext(s: Bytes, i: nat, val: nat, m: nat)
    requires i < |s| && i < 4 && s[i] >= 128
    ensures Scaled(val, m, VarDec(s[i..], 4 - i)) == Scaled(val + Low(s, i) * m, m * 128, VarDec(s[i + 1..], 3 - i))
  {
    assert s[i..][0] == s[i] && s[i..][1..] == s[i + 1..];
    ScaledStep(val, m, s[i], VarDec(s[i + 1..], 3 - i));
  }

  /** The four-byte reader, with its running multiplier. */
  method ReadVarInt(s: Bytes) returns (r: Parsed<nat>)
    ensures r == VarDec(s, 4)
  {
    var val: nat, multiplier: nat, i: nat := 0, 1, 0;
    while i < 4
      invariant 0 <= i <= 4 && i <= |s|
      invariant VarDec(s, 4) == Scaled(val, multiplier, VarDec(s[i..], 4 - i))
    {
      if i == |s| {
        return Bad(ShortRead);
      }
      if s[i] < 128 {
        VarEnd(s, i, val, multiplier);
        return Got(val + Low(s, i) * multiplier, s[i + 1..]);
      }
      VarNext(s, i, val, multiplier);
      val, multiplier, i := val + Low(s, i) * multiplier, multiplier * 128, i + 1;
    }
    return Bad(Malformed);
  }

  lemma LenEnd(s: Bytes, i: nat, first: bool, val: nat, m: nat)
    requires i < |s| && i < 4 && s[i] < 128
    ensures Scaled(val, m, LenDec(s[i..], 4 - i, first))
         == if s[i] == 0 && !first then Bad(InvalidPacket) else Got(val + Low(s, i) * m, s[i + 1..])
  {
    assert s[i..][0] == s[i] && s[i..][1..] == s[i + 1..];
    ScaledLast(val, m, s[i], s[i + 1..]);
  }

  lemma LenNext(s: Bytes, i: nat, first: bool, val: nat, m: nat)
    requires i < |s| && i < 4 && s[i] >= 128
    ensures Scaled(val, m, LenDec(s[i..], 4 - i, first))
         == if i == 3 then Bad(InvalidPacket)
           else Scaled(val + Low(s, i) * m, m * 128, LenDec(s[i + 1..], 3 - i, false))
  {
    assert s[i..][0] == s[i] && s[i..][1..] == s[i + 1..];
    if i < 3 {
      ScaledStep(val, m, s[i], LenDec(s[i + 1..], 3 - i, false));
    }
  }

  /** The multiplier after so many bytes. */
  function Multiplier(used: nat): nat {
    match used case 0 => 1 case 1 => 128 case 2 => 16384 case 3 => 2097152 case _ => 268435456
  }

  /** The reader of the fixed header. The bytes read are counted, whatever the outcome. */
  method ReadRemainingLength(s: Bytes) returns (r: Parsed<nat>, used: nat)
    ensures r == LenDec(s, 4, true)
    ensures used <= |s| && used <= 4 && (r.Got? ==> r.rest == s[used..])
  {
    var val: nat, multiplier: nat := 0, 1;
    used := 0;
    while true
      invariant used < 4 && used <= |s| && multiplier == Multiplier(used)
      invariant LenDec(s, 4, true) == Scaled(val, multiplier, LenDec(s[used..], 4 - used, used == 0))
      decreases 4 - used
    {
      if used == |s| {
        return Bad(ShortRead), used;
      }
      var b: nat := s[used];
      if b < 128 {
        LenEnd(s, used, used == 0, val, multiplier);
      } else {
        LenNext(s, used, used == 0, val, multiplier);
      }
      val := val + Low(s, used) * multiplier;
      multiplier := multiplier * 128;
      used := used + 1;
      if b < 128 {
        if used > 1 && b == 0 {
          return Bad(InvalidPacket), used;
        }
        return Got(val, s[used..]), used;
      }
      if multiplier > LAST_MULTIPLIER {
        return Bad(InvalidPacket), used;
      }
    }
  }

  method WriteVarInt(n: nat) returns (out: Bytes)
    ensures out == VarEnc(n)
  {
    var val := n;
    out := [];
    while true
      invariant out + VarEnc(val) == VarEnc(n)
      decreases val
    {
      var encoded, next := val % 128, val / 128;
      if next > 0 {
        encoded := encoded + 128;
      }
      assert out + [encoded] + (if next > 0 then VarEnc(next) else []) == out + VarEnc(val);
      out := out + [encoded];
      val := next;
      if val == 0 {
        break;
      }
    }
  }

  // ---------------------------------------------------------------- strings and binary data

  predicate Continues(s: Bytes, i: nat) {
    i < |s| && 0x80 <= s[i] <= 0xBF
  }

  /** The length of the well-formed UTF-8 sequence at the front, or 0. */
  function RuneSize(s: Bytes): (n: nat)
    ensures n <= |s|
  {
    if s == [] then 0
    else if s[0] < 0x80 then 1
    else if 0xC2 <= s[0] <= 0xDF then (if Continues(s, 1) then 2 else 0)
    else if 0xE0 <= s[0] <= 0xEF then
      (if Continues(s, 1) && Continues(s, 2) && (s[0] == 0xE0 ==> s[1] >= 0xA0) &&
        (s[0] == 0xED ==> s[1] <= 0x9F) then 3 else 0)
    else if 0xF0 <= s[0] <= 0xF4 then
      (if Continues(s, 1) && Continues(s, 2) && Continues(s, 3) && (s[0] == 0xF0 ==> s[1] >= 0x90) &&
        (s[0] == 0xF4 ==> s[1] <= 0x8F)
       then 4 else 0)
    else 0
  }

  /** The characters U+0000 to U+001F and U+007F to U+009F. */
  predicate Control(s: Bytes)
    requires RuneSize(s) > 0
  {
    s[0] <= 0x1F || s[0] == 0x7F || (s[0] == 0xC2 && s[1] <= 0x9F)
  }

  predicate ValidText(s: Bytes) {
    s == [] || (RuneSize(s) > 0 && !Control(s) && ValidText(s[RuneSize(s)..]))
  }

  /** Two bytes of length, then the data; the length is cut to sixteen bits. */
  function EncBin(d: Bytes): Bytes {
    Enc16(|d| % 0x1_0000) + d
  }

  function DecBin(s: Bytes): Parsed<Bytes> {
    if |s| < 2 then Bad(ShortRead)
    else
      var n := At(s, 0) * 256 + At(s, 1);
      if |s| < 2 + n then Bad(ShortRead) else Got(s[2..2 + n], s[2 + n..])
  }

  function DecText(s: Bytes): Parsed<Bytes> {
    match DecBin(s)
    case Got(d, rest) => if ValidText(d) then Got(d, rest) else Bad(BadText)
    case Bad(e) => Bad(e)
  }

  predicate Sendable(d: Bytes) {
    |d| < 0x1_0000 && ValidText(d)
  }

  lemma RoundTripBin(d: Bytes, t: Bytes)
    requires |d| < 0x1_0000
    ensures |EncBin(d)| == 2 + |d| && DecBin(EncBin(d) + t) == Got(d, t)
  {
    var n, s := |d|, EncBin(d) + t;
    SmallMod(n, 0x1_0000);
    assert s == Enc16(n) + (d + t);
    RoundTrip16(n, d + t);
    assert s[2..2 + n] == d && s[2 + n..] == t;
  }

  lemma SmallMod(n: nat, m: nat)
    requires n < m
    ensures n % m == n
  {
  }

  lemma DecBinUses(s: Bytes)
    requires DecBin(s).Got?
    ensures var r := DecBin(s); |r.value| < 0x1_0000 && |s| == 2 + |r.value| + |r.rest|
  {
  }
}
