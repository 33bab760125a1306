/** What a string on the wire may be: the UTF-8 encoding of characters, none of them a control character. */
module Text {
  import opened Wire

  /** A Unicode scalar value: a code point that is not half of a surrogate pair. */
  predicate Scalar(c: nat) {
    c <= 0x10FFFF && !(0xD800 <= c <= 0xDFFF)
  }

  predicate ControlCharacter(c: nat) {
    c <= 0x1F || 0x7F <= c <= 0x9F
  }

  /** UTF-8, as RFC 3629 defines it. */
  function Utf8(c: nat): Bytes
    requires Scalar(c)
  {
    if c < 0x80 then [c]
    else if c < 0x800 then [0xC0 + c / 64, 0x80 + c % 64]
    else if c < 0x1_0000 then [0xE0 + (c / 64) / 64, 0x80 + (c / 64) % 64, 0x80 + c % 64]
    else [0xF0 + ((c / 64) / 64) / 64, 0x80 + ((c / 64) / 64) % 64, 0x80 + (c / 64) % 64, 0x80 + c % 64]
  }

  ghost predicate Permitted(cs: seq<nat>) {
    forall i :: 0 <= i < |cs| ==> Scalar(cs[i]) && !ControlCharacter(cs[i])
  }

  ghost function Encoded(cs: seq<nat>): Bytes
    requires Permitted(cs)
  {
    if cs == [] then [] else Utf8(cs[0]) + Encoded(cs[1..])
  }

  // ---------------------------------------------------------------- one character

  lemma ShortRune(c: nat, t: Bytes)
    requires Scalar(c) && c < 0x800
    ensures RuneSize(Utf8(c) + t) == |Utf8(c)| && (Control(Utf8(c) + t) <==> ControlCharacter(c))
  {
    var s := Utf8(c) + t;
    assert s[0] == Utf8(c)[0] && (c >= 0x80 ==> s[1] == Utf8(c)[1]);
  }

  lemma LongRune(c: nat, t: Bytes)
    requires Scalar(c) && 0x800 <= c < 0x1_0000
    ensures RuneSize(Utf8(c) + t) == |Utf8(c)| && !Control(Utf8(c) + t)
  {
    var s := Utf8(c) + t;
    assert s[0] == Utf8(c)[0] && s[1] == Utf8(c)[1] && s[2] == Utf8(c)[2];
  }

  lemma LongestRune(c: nat, t: Bytes)
    requires Scalar(c) && 0x1_0000 <= c
    ensures RuneSize(Utf8(c) + t) == |Utf8(c)| && !Control(Utf8(c) + t)
  {
    var s := Utf8(c) + t;
    assert s[0] == Utf8(c)[0] && s[1] == Utf8(c)[1] && s[2] == Utf8(c)[2] && s[3] == Utf8(c)[3];
  }

  /** The reader finds the length of every character, and knows the control characters. */
  lemma RuneForth(c: nat, t: Bytes)
    requires Scalar(c)
    ensures RuneSize(Utf8(c) + t) == |Utf8(c)| && (Control(Utf8(c) + t) <==> ControlCharacter(c))
  {
    if c < 0x800 {
      ShortRune(c, t);
    } else if c < 0x1_0000 {
      LongRune(c, t);
    } else {
      LongestRune(c, t);
    }
  }

  lemma Digit(n: nat, d: nat)
    requires d < 64
    ensures (64 * n + d) / 64 == n && (64 * n + d) % 64 == d
  {
  }

  lemma TwoBytes(a: byte, b: byte) returns (c: nat)
    requires 0xC2 <= a <= 0xDF && 0x80 <= b <= 0xBF
    ensures Scalar(c) && Utf8(c) == [a, b]
  {
    var x: nat, y: nat := a - 0xC0, b - 0x80;
    c := 64 * x + y;
    Digit(x, y);
  }

  lemma ThreeBytes(a: byte, b: byte, d: byte) returns (c: nat)
    requires 0xE0 <= a <= 0xEF && 0x80 <= b <= 0xBF && 0x80 <= d <= 0xBF
    requires (a == 0xE0 ==> b >= 0xA0) && (a == 0xED ==> b <= 0x9F)
    ensures Scalar(c) && Utf8(c) == [a, b, d]
  {
    var x: nat, y: nat, z: nat := a - 0xE0, b - 0x80, d - 0x80;
    var m := 64 * x + y;
    c := 64 * m + z;
    Digit(x, y);
    Digit(m, z);
  }

  lemma FourBytes(a: byte, b: byte, d: byte, e: byte) returns (c: nat)
    requires 0xF0 <= a <= 0xF4 && 0x80 <= b <= 0xBF && 0x80 <= d <= 0xBF && 0x80 <= e <= 0xBF
    requires (a == 0xF0 ==> b >= 0x90) && (a == 0xF4 ==> b <= 0x8F)
    ensures Scalar(c) && Utf8(c) == [a, b, d, e]
  {
    var w: nat, x: nat, y: nat, z: nat := a - 0xF0, b - 0x80, d - 0x80, e - 0x80;
    var k := 64 * w + x;
    var m := 64 * k + y;
    c := 64 * m + z;
    Digit(w, x);
    Digit(k, y);
    Digit(m, z);
  }

  /** And what it takes for a character is one. */
  lemma RuneBack(s: Bytes) returns (c: nat)
    requires RuneSize(s) > 0
    ensures Scalar(c) && Utf8(c) == s[..RuneSize(s)]
  {
    var n := RuneSize(s);
    if n == 1 {
      c := s[0];
    } else if n == 2 {
      c := TwoBytes(s[0], s[1]);
    } else if n == 3 {
      c := ThreeBytes(s[0], s[1], s[2]);
    } else {
      c := FourBytes(s[0], s[1], s[2], s[3]);
    }
  }

  // ---------------------------------------------------------------- whole strings

  lemma {:induction false} EncodedIsValid(cs: seq<nat>)
    requires Permitted(cs)
    ensures ValidText(Encoded(cs))
  {
    if cs != [] {
      var c, rest := cs[0], Encoded(cs[1..]);
      EncodedIsValid(cs[1..]);
      RuneForth(c, rest);
      assert |Utf8(c)| > 0;
      assert (Utf8(c) + rest)[|Utf8(c)|..] == rest;
    }
  }

  lemma {:induction false} ValidIsEncoded(s: Bytes) returns (cs: seq<nat>)
    requires ValidText(s)
    ensures Permitted(cs) && Encoded(cs) == s
    decreases |s|
  {
    if s == [] {
      cs := [];
    } else {
      var n := RuneSize(s);
      var c := RuneBack(s);
      assert s == Utf8(c) + s[n..];
      RuneForth(c, s[n..]);
      var rest := ValidIsEncoded(s[n..]);
      cs := [c] + rest;
      assert cs[1..] == rest;
    }
  }

  /** A byte string is accepted as text if and only if it is the UTF-8 encoding of permitted characters. */
  lemma ValidTextIff(s: Bytes)
    ensures ValidText(s) <==> exists cs :: Permitted(cs) && Encoded(cs) == s
  {
    if ValidText(s) {
      var cs := ValidIsEncoded(s);
    }
    forall cs | Permitted(cs) && Encoded(cs) == s ensures ValidText(s) {
      EncodedIsValid(cs);
    }
  }
}
