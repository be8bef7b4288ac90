/**
 * UTF-8 (RFC 3629, section 3): the encoding URLSearchParams applies to
 * names and values before percent-encoding them, and the decoding its
 * parser applies afterwards. A Dafny `char` is a Unicode scalar value, so
 * every string has exactly one encoding.
 */
module Utf8 {
  import opened Wrappers

  type byte = b: int | 0 <= b < 0x100

  /** A code point that is a Unicode scalar value (not a surrogate, not above U+10FFFF). */
  predicate IsScalar(cp: int) {
    0 <= cp < 0xD800 || 0xE000 <= cp < 0x11_0000
  }

  /** The one to four bytes of a scalar value. */
  function EncodeChar(c: char): (r: seq<byte>)
    ensures 1 <= |r| <= 4
    ensures c as int < 0x80 <==> |r| == 1
    ensures |r| == 1 ==> r[0] == c as int
  {
    var cp := c as int;
    if cp < 0x80 then [cp]
    else if cp < 0x800 then [0xC0 + cp / 0x40, 0x80 + cp % 0x40]
    else if cp < 0x1_0000 then [0xE0 + cp / 0x1000, 0x80 + cp / 0x40 % 0x40, 0x80 + cp % 0x40]
    else [0xF0 + cp / 0x4_0000, 0x80 + cp / 0x1000 % 0x40, 0x80 + cp / 0x40 % 0x40, 0x80 + cp % 0x40]
  }

  function Encode(s: string): seq<byte> {
    if s == [] then [] else EncodeChar(s[0]) + Encode(s[1..])
  }

  /** A continuation byte, 10xxxxxx. */
  predicate IsContinuation(b: byte) { 0x80 <= b < 0xC0 }

  /**
   * The first scalar value of `bs` and the number of bytes it takes, or None
   * when `bs` does not start with a well-formed sequence (a stray
   * continuation byte, a truncated sequence, an overlong form, a surrogate,
   * a value above U+10FFFF).
   */
  function DecodeFirst(bs: seq<byte>): (r: Option<(char, nat)>)
    requires bs != []
    ensures r.Some? ==> 1 <= r.value.1 <= |bs| && r.value.1 <= 4
  {
    var b0: int := bs[0];
    if b0 < 0x80 then Some((b0 as char, 1))
    else if 0xC0 <= b0 < 0xE0 && |bs| >= 2 && IsContinuation(bs[1]) then
      var cp := (b0 - 0xC0) * 0x40 + (bs[1] as int - 0x80);
      if 0x80 <= cp then Some((cp as char, 2)) else None
    else if 0xE0 <= b0 < 0xF0 && |bs| >= 3 && IsContinuation(bs[1]) && IsContinuation(bs[2]) then
      var cp := (b0 - 0xE0) * 0x1000 + (bs[1] as int - 0x80) * 0x40 + (bs[2] as int - 0x80);
      if 0x800 <= cp && IsScalar(cp) then Some((cp as char, 3)) else None
    else if 0xF0 <= b0 < 0xF8 && |bs| >= 4 && IsContinuation(bs[1]) && IsContinuation(bs[2]) && IsContinuation(bs[3]) then
      var cp := (b0 - 0xF0) * 0x4_0000 + (bs[1] as int - 0x80) * 0x1000 + (bs[2] as int - 0x80) * 0x40 + (bs[3] as int - 0x80);
      if 0x1_0000 <= cp < 0x11_0000 then Some((cp as char, 4)) else None
    else None
  }

  /** The string `bs` encodes, or None when it is not well-formed UTF-8. */
  function Decode(bs: seq<byte>): Option<string>
    decreases |bs|
  {
    if bs == [] then Some([])
    else match DecodeFirst(bs)
      case None => None
      case Some((c, n)) =>
        match Decode(bs[n..])
        case None => None
        case Some(rest) => Some([c] + rest)
  }

  /** Splitting a number into its low six bits and the rest. */
  lemma SixBits(n: nat)
    ensures n == n / 0x40 * 0x40 + n % 0x40 && 0 <= n % 0x40 < 0x40
  {
  }

  /** Decoding reads back the first character of an encoding, whatever follows. */
  lemma DecodeFirstEncodeChar(c: char, rest: seq<byte>)
    ensures DecodeFirst(EncodeChar(c) + rest) == Some((c, |EncodeChar(c)|))
  {
    var cp := c as int;
    var bs := EncodeChar(c) + rest;
    SixBits(cp);
    SixBits(cp / 0x40);
    SixBits(cp / 0x40 / 0x40);
    assert cp / 0x1000 == cp / 0x40 / 0x40;
    assert cp / 0x4_0000 == cp / 0x40 / 0x40 / 0x40;
    if cp < 0x80 {
    } else if cp < 0x800 {
      TwoBytes(cp, bs);
    } else if cp < 0x1_0000 {
      ThreeBytes(cp, bs);
    } else {
      FourBytes(cp, bs);
    }
  }

  lemma TwoBytes(cp: int, bs: seq<byte>)
    requires 0x80 <= cp < 0x800 && |bs| >= 2
    requires bs[0] == 0xC0 + cp / 0x40 && bs[1] == 0x80 + cp % 0x40
    ensures DecodeFirst(bs) == Some((cp as char, 2))
  {
    var x := cp / 0x40;
    var y := cp % 0x40;
    SixBits(cp);
    assert (bs[0] as int - 0xC0) * 0x40 + (bs[1] as int - 0x80) == x * 0x40 + y == cp;
  }

  lemma ThreeBytes(cp: int, bs: seq<byte>)
    requires 0x800 <= cp < 0x1_0000 && IsScalar(cp) && |bs| >= 3
    requires bs[0] == 0xE0 + cp / 0x1000 && bs[1] == 0x80 + cp / 0x40 % 0x40 && bs[2] == 0x80 + cp % 0x40
    ensures DecodeFirst(bs) == Some((cp as char, 3))
  {
    var x := cp / 0x40;
    SixBits(cp);
    SixBits(x);
    assert cp / 0x1000 == x / 0x40;
    assert (bs[0] as int - 0xE0) * 0x1000 + (bs[1] as int - 0x80) * 0x40 + (bs[2] as int - 0x80)
        == (x / 0x40 * 0x40 + x % 0x40) * 0x40 + cp % 0x40 == cp;
  }

  lemma FourBytes(cp: int, bs: seq<byte>)
    requires 0x1_0000 <= cp < 0x11_0000 && |bs| >= 4
    requires bs[0] == 0xF0 + cp / 0x4_0000 && bs[1] == 0x80 + cp / 0x1000 % 0x40
    requires bs[2] == 0x80 + cp / 0x40 % 0x40 && bs[3] == 0x80 + cp % 0x40
    ensures DecodeFirst(bs) == Some((cp as char, 4))
  {
    var x := cp / 0x40;
    var y := x / 0x40;
    SixBits(cp);
    SixBits(x);
    SixBits(y);
    assert cp / 0x1000 == y;
    assert cp / 0x4_0000 == y / 0x40;
    assert (bs[0] as int - 0xF0) * 0x4_0000 + (bs[1] as int - 0x80) * 0x1000 + (bs[2] as int - 0x80) * 0x40 + (bs[3] as int - 0x80)
        == ((y / 0x40 * 0x40 + y % 0x40) * 0x40 + x % 0x40) * 0x40 + cp % 0x40 == cp;
  }

  /** Every string is read back from its encoding. */
  lemma {:induction false} DecodeEncode(s: string)
    ensures Decode(Encode(s)) == Some(s)
  {
    if s != [] {
      var head := EncodeChar(s[0]);
      var bs := Encode(s);
      DecodeFirstEncodeChar(s[0], Encode(s[1..]));
      assert bs[|head|..] == Encode(s[1..]);
      DecodeEncode(s[1..]);
      assert [s[0]] + s[1..] == s;
    }
  }

  /** Encoding distributes over concatenation. */
  lemma {:induction false} EncodeAppend(a: string, b: string)
    ensures Encode(a + b) == Encode(a) + Encode(b)
  {
    if a == [] {
      assert a + b == b;
    } else {
      assert (a + b)[0] == a[0];
      assert (a + b)[1..] == a[1..] + b;
      EncodeAppend(a[1..], b);
    }
  }

  /** An ASCII string encodes as its own code points, one byte each. */
  lemma {:induction false} EncodeAscii(s: string)
    requires forall i | 0 <= i < |s| :: s[i] as int < 0x80
    ensures |Encode(s)| == |s|
    ensures forall i | 0 <= i < |s| :: Encode(s)[i] == s[i] as int
  {
    if s != [] {
      EncodeAscii(s[1..]);
    }
  }
}
