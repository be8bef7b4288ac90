/**
 * String helpers with the meaning JavaScript gives them: substring search
 * (`String.prototype.includes`), the decimal rendering of an integer in a
 * template literal, and `Array.prototype.join`.
 */
module Text {

  /** `pat` occurs in `s` starting at index `k`. */
  predicate OccursAt(s: string, pat: string, k: int) {
    0 <= k && k + |pat| <= |s| && s[k..k + |pat|] == pat
  }

  /** `s.includes(pat)`: some index of `s` starts an occurrence of `pat`. */
  predicate Includes(s: string, pat: string) {
    exists k | 0 <= k <= |s| - |pat| :: OccursAt(s, pat, k)
  }

  /**
   * An occurrence in `p + t` of a pattern whose first character appears in
   * `p` only at index 0 either starts at index 0 or lies wholly inside `t`.
   */
  lemma {:induction false} IncludesAfterHeader(p: string, t: string, pat: string)
    requires 1 <= |pat| <= |p|
    requires forall i | 1 <= i < |p| :: p[i] != pat[0]
    ensures Includes(p + t, pat) <==> OccursAt(p, pat, 0) || Includes(t, pat)
  {
    var s := p + t;
    if Includes(s, pat) {
      var k :| 0 <= k <= |s| - |pat| && OccursAt(s, pat, k);
      assert s[k] == pat[0] by { assert s[k..k + |pat|][0] == s[k]; }
      if k == 0 {
        assert s[..|pat|] == p[..|pat|];
      } else if k < |p| {
        assert false;
      } else {
        assert t[k - |p|..k - |p| + |pat|] == s[k..k + |pat|];
        assert OccursAt(t, pat, k - |p|);
      }
    }
    if OccursAt(p, pat, 0) {
      assert s[..|pat|] == p[..|pat|];
      assert OccursAt(s, pat, 0);
    }
    if Includes(t, pat) {
      var j :| 0 <= j <= |t| - |pat| && OccursAt(t, pat, j);
      assert s[j + |p|..j + |p| + |pat|] == t[j..j + |pat|];
      assert OccursAt(s, pat, j + |p|);
    }
  }

  predicate IsDigit(c: char) { '0' <= c <= '9' }

  function DigitChar(d: nat): (c: char)
    requires d < 10
    ensures IsDigit(c) && c as int - '0' as int == d
  {
    ('0' as int + d) as char
  }

  /** Decimal rendering of a natural number, most significant digit first, no leading zeros. */
  function NatToString(n: nat): (r: string)
    ensures 1 <= |r|
    ensures forall i | 0 <= i < |r| :: IsDigit(r[i])
  {
    if n < 10 then [DigitChar(n)] else NatToString(n / 10) + [DigitChar(n % 10)]
  }

  /** What `${n}` produces for an integral JavaScript number. */
  function IntToString(i: int): string {
    if i < 0 then "-" + NatToString(-i) else NatToString(i)
  }

  /** The number a string of decimal digits denotes: the reading back of NatToString. */
  function DecimalValue(s: string): nat
    requires forall i | 0 <= i < |s| :: IsDigit(s[i])
  {
    if s == [] then 0
    else DecimalValue(s[..|s| - 1]) * 10 + DigitValue(s[|s| - 1])
  }

  function DigitValue(c: char): nat
    requires IsDigit(c)
  {
    c as int - '0' as int
  }

  lemma {:induction false} DecimalRoundTrip(n: nat)
    ensures DecimalValue(NatToString(n)) == n
  {
    if n >= 10 {
      var r := NatToString(n);
      assert r[..|r| - 1] == NatToString(n / 10);
      DecimalRoundTrip(n / 10);
    }
  }

  /** Distinct numbers render differently. */
  lemma NatToStringInjective(a: nat, b: nat)
    requires NatToString(a) == NatToString(b)
    ensures a == b
  {
    DecimalRoundTrip(a);
    DecimalRoundTrip(b);
  }

  /** Numbers from 100 to 999 render as exactly three digits. */
  lemma {:induction false} ThreeDigits(n: nat)
    requires 100 <= n <= 999
    ensures |NatToString(n)| == 3
  {
    assert NatToString(n) == NatToString(n / 10) + [DigitChar(n % 10)];
    assert NatToString(n / 10) == NatToString(n / 100) + [DigitChar((n / 10) % 10)];
  }

  /** `parts.join(sep)`. */
  function Join(parts: seq<string>, sep: string): string {
    if parts == [] then ""
    else if |parts| == 1 then parts[0]
    else parts[0] + sep + Join(parts[1..], sep)
  }

  /** Three parts are joined with the separator between each two. */
  lemma JoinThree(a: string, b: string, c: string, sep: string)
    ensures Join([a, b, c], sep) == a + sep + b + sep + c
  {
    assert [a, b, c][1..] == [b, c];
    assert [b, c][1..] == [c];
    assert Join([b, c], sep) == b + sep + c;
    assert a + sep + (b + sep + c) == a + sep + b + sep + c;
  }
}
