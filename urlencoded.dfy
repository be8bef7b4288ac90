/**
 * The application/x-www-form-urlencoded format of the WHATWG URL Standard
 * (section 5): the serializer (section 5.2) that `URLSearchParams.toString()`
 * uses to build the request's query string, and the parser (section 5.1)
 * that reads such a string back, which serves here as the serializer's
 * inverse.
 */
module FormUrlencoded {
  import opened Wrappers
  import opened Utf8

  /** One name-value pair of the query, in the order given. */
  datatype Pair = Pair(name: string, value: string)

  // ---------------------------------------------------------------------
  // Serializing (section 5.2)
  // ---------------------------------------------------------------------

  /** The bytes left as they are: ASCII alphanumerics and `*`, `-`, `.`, `_`. */
  predicate Unreserved(b: byte) {
    || 0x30 <= b <= 0x39
    || 0x41 <= b <= 0x5A
    || 0x61 <= b <= 0x7A
    || b == 0x2A || b == 0x2D || b == 0x2E || b == 0x5F
  }

  /** An upper-case hexadecimal digit. */
  function HexDigit(n: int): (c: char)
    requires 0 <= n < 16
  {
    if n < 10 then ('0' as int + n) as char else ('A' as int + n - 10) as char
  }

  /** A character the serializer may produce: ASCII, and neither of the separators `&` and `=`. */
  predicate Safe(c: char) {
    c as int < 0x80 && c != '&' && c != '='
  }

  /** One byte: itself when unreserved, `+` for a space, `%` and two upper-case hex digits otherwise. */
  function EncodeByte(b: byte): (r: string)
    ensures 1 <= |r| <= 3
    ensures forall i | 0 <= i < |r| :: Safe(r[i])
  {
    if Unreserved(b) then [b as char]
    else if b == 0x20 then "+"
    else ['%', HexDigit(b / 16), HexDigit(b % 16)]
  }

  function PercentEncode(bs: seq<byte>): (r: string)
    ensures forall i | 0 <= i < |r| :: Safe(r[i])
  {
    if bs == [] then "" else
      var head := EncodeByte(bs[0]);
      var rest := PercentEncode(bs[1..]);
      assert forall i | |head| <= i < |head + rest| :: (head + rest)[i] == rest[i - |head|];
      head + rest
  }

  /** A name or a value: its UTF-8 bytes, percent-encoded. */
  function SerializeString(s: string): (r: string)
    ensures forall i | 0 <= i < |r| :: Safe(r[i])
  {
    PercentEncode(Encode(s))
  }

  function SerializePair(p: Pair): string {
    SerializeString(p.name) + "=" + SerializeString(p.value)
  }

  /** The pairs, each as `name=value`, separated by `&`. */
  function Serialize(pairs: seq<Pair>): string {
    if pairs == [] then ""
    else if |pairs| == 1 then SerializePair(pairs[0])
    else SerializePair(pairs[0]) + "&" + Serialize(pairs[1..])
  }

  // ---------------------------------------------------------------------
  // Parsing (section 5.1)
  // ---------------------------------------------------------------------

  /** Index of the first `c` in `s`, or |s| when there is none. */
  function IndexOf(s: string, c: char): (k: nat)
    ensures k <= |s|
    ensures k < |s| ==> s[k] == c
    ensures forall j | 0 <= j < k :: s[j] != c
  {
    if s == [] then 0
    else if s[0] == c then 0
    else 1 + IndexOf(s[1..], c)
  }

  /** Every `+` read as a space. */
  function ReplacePlus(s: string): (r: string)
    ensures |r| == |s|
  {
    if s == [] then "" else [if s[0] == '+' then ' ' else s[0]] + ReplacePlus(s[1..])
  }

  predicate IsHexByte(b: byte) {
    0x30 <= b <= 0x39 || 0x41 <= b <= 0x46 || 0x61 <= b <= 0x66
  }

  function HexValue(b: byte): (n: int)
    requires IsHexByte(b)
    ensures 0 <= n < 16
  {
    if b <= 0x39 then b - 0x30 else if b <= 0x46 then b - 0x37 else b - 0x57
  }

  /** Percent-decoding: `%` and two hex digits become that byte; every other byte, a lone `%` included, stays. */
  function PercentDecode(bs: seq<byte>): seq<byte> {
    if bs == [] then []
    else if bs[0] == 0x25 && |bs| >= 3 && IsHexByte(bs[1]) && IsHexByte(bs[2]) then
      [HexValue(bs[1]) * 16 + HexValue(bs[2])] + PercentDecode(bs[3..])
    else [bs[0]] + PercentDecode(bs[1..])
  }

  /** A name or a value read back: `+` as space, percent-decoded, and UTF-8 decoded (None if that fails). */
  function DecodeComponent(s: string): Option<string> {
    Decode(PercentDecode(Encode(ReplacePlus(s))))
  }

  /** One non-empty `&`-separated sequence: split at the first `=`; without one the value is empty. */
  function ParsePair(s: string): Option<Pair> {
    var k := IndexOf(s, '=');
    var name := s[..k];
    var value := if k < |s| then s[k + 1..] else "";
    match (DecodeComponent(name), DecodeComponent(value))
    case (Some(n), Some(v)) => Some(Pair(n, v))
    case _ => None
  }

  /** The pairs of a query; empty sequences between `&`s are skipped. */
  function Parse(input: string): Option<seq<Pair>>
    decreases |input|
  {
    if input == [] then Some([])
    else
      var k := IndexOf(input, '&');
      var head := input[..k];
      var tail := if k < |input| then Parse(input[k + 1..]) else Some([]);
      if head == [] then tail
      else match (ParsePair(head), tail)
        case (Some(p), Some(ps)) => Some([p] + ps)
        case _ => None
  }

  // ---------------------------------------------------------------------
  // The parser inverts the serializer
  // ---------------------------------------------------------------------

  lemma {:induction false} ReplacePlusAppend(a: string, b: string)
    ensures ReplacePlus(a + b) == ReplacePlus(a) + ReplacePlus(b)
  {
    if a == [] {
      assert a + b == b;
    } else {
      assert (a + b)[0] == a[0];
      assert (a + b)[1..] == a[1..] + b;
      ReplacePlusAppend(a[1..], b);
    }
  }

  /** The bytes of one encoded byte decode to that byte, whatever follows. */
  lemma EncodedByteDecodes(b: byte, rest: seq<byte>)
    ensures PercentDecode(Encode(ReplacePlus(EncodeByte(b))) + rest) == [b] + PercentDecode(rest)
  {
    var e := EncodeByte(b);
    if Unreserved(b) {
      assert ReplacePlus(e) == e;
      assert Encode(e) == [b];
    } else if b == 0x20 {
      assert ReplacePlus(e) == " ";
      assert Encode(" ") == [0x20];
    } else {
      var h1 := HexDigit(b / 16);
      var h2 := HexDigit(b % 16);
      assert ReplacePlus(e) == e by {
        assert e == ['%', h1, h2];
        assert ReplacePlus(e[2..]) == e[2..];
        assert ReplacePlus(e[1..]) == e[1..];
      }
      var bytes := Encode(e);
      assert bytes == [0x25, h1 as int, h2 as int] by {
        assert e[1..][1..] == [h2];
      }
      var input := bytes + rest;
      assert input[0] == 0x25 && input[1] == h1 as int && input[2] == h2 as int;
      assert input[3..] == rest;
      assert HexValue(h1 as int) * 16 + HexValue(h2 as int) == b;
    }
  }

  /** Percent-decoding reads back exactly the bytes that were percent-encoded. */
  lemma {:induction false} PercentRoundTrip(bs: seq<byte>)
    ensures PercentDecode(Encode(ReplacePlus(PercentEncode(bs)))) == bs
  {
    if bs != [] {
      var head := EncodeByte(bs[0]);
      var rest := PercentEncode(bs[1..]);
      ReplacePlusAppend(head, rest);
      EncodeAppend(ReplacePlus(head), ReplacePlus(rest));
      EncodedByteDecodes(bs[0], Encode(ReplacePlus(rest)));
      PercentRoundTrip(bs[1..]);
      assert [bs[0]] + bs[1..] == bs;
    }
  }

  /** A serialized name or value reads back as itself. */
  lemma ComponentRoundTrip(s: string)
    ensures DecodeComponent(SerializeString(s)) == Some(s)
  {
    PercentRoundTrip(Encode(s));
    DecodeEncode(s);
  }

  /** The first `c` in `a + [c] + b`, when `a` has none, is right after `a`. */
  lemma IndexAfter(a: string, c: char, b: string)
    requires forall i | 0 <= i < |a| :: a[i] != c
    ensures IndexOf(a + [c] + b, c) == |a|
  {
    assert (a + [c] + b)[|a|] == c;
  }

  /** A string without `c` has its first `c` at its end. */
  lemma IndexAbsent(a: string, c: char)
    requires forall i | 0 <= i < |a| :: a[i] != c
    ensures IndexOf(a, c) == |a|
  {
  }

  /** A serialized pair reads back as itself. */
  lemma PairRoundTrip(p: Pair)
    ensures ParsePair(SerializePair(p)) == Some(p)
  {
    var n := SerializeString(p.name);
    var v := SerializeString(p.value);
    var s := SerializePair(p);
    assert s == n + ['='] + v;
    IndexAfter(n, '=', v);
    assert s[..|n|] == n;
    assert s[|n| + 1..] == v;
    ComponentRoundTrip(p.name);
    ComponentRoundTrip(p.value);
  }

  /** A serialized pair is non-empty and holds no `&`. */
  lemma SerializedPairSafe(p: Pair)
    ensures SerializePair(p) != []
    ensures forall i | 0 <= i < |SerializePair(p)| :: SerializePair(p)[i] != '&'
  {
    var n := SerializeString(p.name);
    var v := SerializeString(p.value);
    var head := SerializePair(p);
    assert head == n + ['='] + v;
    forall i | 0 <= i < |head|
      ensures head[i] != '&'
    {
      if i < |n| {
        assert head[i] == n[i];
      } else if i > |n| {
        assert head[i] == v[i - |n| - 1];
      }
    }
  }

  /** A query that is one `&`-free sequence holds that sequence's pair. */
  lemma ParseOne(head: string, p: Pair)
    requires head != [] && forall i | 0 <= i < |head| :: head[i] != '&'
    requires ParsePair(head) == Some(p)
    ensures Parse(head) == Some([p])
  {
    IndexAbsent(head, '&');
    assert head[..|head|] == head;
    assert [p] + [] == [p];
  }

  /** A query that starts with an `&`-free sequence holds its pair, then the rest's. */
  lemma ParseCons(head: string, p: Pair, rest: string, ps: seq<Pair>)
    requires head != [] && forall i | 0 <= i < |head| :: head[i] != '&'
    requires ParsePair(head) == Some(p) && Parse(rest) == Some(ps)
    ensures Parse(head + "&" + rest) == Some([p] + ps)
  {
    var s := head + "&" + rest;
    IndexAfter(head, '&', rest);
    assert s[..|head|] == head;
    assert s[|head| + 1..] == rest;
  }

  /** A query of one serialized pair reads back as that pair. */
  lemma ParsePairAlone(p: Pair)
    ensures Parse(SerializePair(p)) == Some([p])
  {
    SerializedPairSafe(p);
    PairRoundTrip(p);
    ParseOne(SerializePair(p), p);
  }

  /** A serialized pair, `&` and a query read back as the pair, then the query's pairs. */
  lemma ParsePairThen(p: Pair, rest: string, ps: seq<Pair>)
    requires Parse(rest) == Some(ps)
    ensures Parse(SerializePair(p) + "&" + rest) == Some([p] + ps)
  {
    SerializedPairSafe(p);
    PairRoundTrip(p);
    ParseCons(SerializePair(p), p, rest, ps);
  }

  /** What the serializer writes, the parser reads back: the same pairs, in the same order. */
  lemma {:induction false} ParseSerialize(pairs: seq<Pair>)
    ensures Parse(Serialize(pairs)) == Some(pairs)
  {
    if |pairs| == 1 {
      ParsePairAlone(pairs[0]);
      assert pairs == [pairs[0]];
    } else if |pairs| > 1 {
      ParseSerialize(pairs[1..]);
      ParsePairThen(pairs[0], Serialize(pairs[1..]), pairs[1..]);
      assert [pairs[0]] + pairs[1..] == pairs;
    }
  }
}
