/** Text the program produces or searches for: the `%d` and `%x` verbs of
    Go's fmt package, their inverses, and the unanchored search that decides
    whether a pattern made of plain characters occurs in console output. */
module Text {
  import opened Base

  predicate IsDigit(c: char) { '0' <= c <= '9' }

  function DigitChar(d: nat): (c: char)
    requires d < 10
    ensures IsDigit(c)
  {
    (('0' as int) + d) as char
  }

  function DigitValue(c: char): nat
    requires IsDigit(c)
  {
    (c as int) - ('0' as int)
  }

  predicate AllDigits(s: string) { forall i :: 0 <= i < |s| ==> IsDigit(s[i]) }

  /** `%d` of a non-negative integer: its decimal digits, without sign or
      leading zero. */
  function Decimal(n: nat): (s: string)
    ensures 1 <= |s| && AllDigits(s)
    ensures |s| == 1 <==> n < 10
    ensures s[0] == '0' <==> n == 0
    decreases n
  {
    if n < 10 then [DigitChar(n)] else Decimal(n / 10) + [DigitChar(n % 10)]
  }

  /** Reads a string of decimal digits back as a number. */
  function DecimalValue(s: string): nat
    requires AllDigits(s)
    decreases |s|
  {
    if s == [] then 0 else 10 * DecimalValue(s[..|s| - 1]) + DigitValue(s[|s| - 1])
  }

  lemma {:induction false} DecimalRoundTrip(n: nat)
    ensures DecimalValue(Decimal(n)) == n
    decreases n
  {
    if n >= 10 {
      var s := Decimal(n);
      assert s[..|s| - 1] == Decimal(n / 10);
      DecimalRoundTrip(n / 10);
    }
  }

  lemma DecimalInjective(a: nat, b: nat)
    requires Decimal(a) == Decimal(b)
    ensures a == b
  {
    DecimalRoundTrip(a);
    DecimalRoundTrip(b);
  }

  /** `%d` of any integer: a minus sign before the digits of a negative one. */
  function IntDecimal(i: int): (s: string)
    ensures 1 <= |s| && (s[0] == '-' <==> i < 0)
    ensures AllDigits(s[1..])
  {
    if i < 0 then "-" + Decimal(-i) else Decimal(i)
  }

  lemma IntDecimalInjective(a: int, b: int)
    requires IntDecimal(a) == IntDecimal(b)
    ensures a == b
  {
    if a < 0 {
      assert IntDecimal(a)[1..] == Decimal(-a);
      assert IntDecimal(b)[1..] == Decimal(-b);
      DecimalInjective(-a, -b);
    } else {
      DecimalInjective(a, b);
    }
  }

  predicate IsPrefix(p: string, s: string) { |p| <= |s| && s[..|p|] == p }

  /** If the digits of `a` begin the digits of `b`, then `b` is `a` itself or
      at least ten times `a`: a number whose digits merely start with those of
      `a` has at least one digit more. */
  lemma {:induction false} DecimalPrefixBound(a: nat, b: nat)
    requires IsPrefix(Decimal(a), Decimal(b))
    ensures b == a || (a >= 1 && b >= 10 * a)
    decreases b
  {
    var sa, sb := Decimal(a), Decimal(b);
    if a == 0 {
      assert sb[0] == sa[0] == '0';
    } else if |sa| == |sb| {
      assert sa == sb[..|sb|] == sb;
      DecimalInjective(a, b);
    } else {
      assert sb[..|sb| - 1] == Decimal(b / 10);
      assert Decimal(b / 10)[..|sa|] == sb[..|sa|];
      DecimalPrefixBound(a, b / 10);
    }
  }

  predicate IsHexDigit(c: char) { '0' <= c <= '9' || 'a' <= c <= 'f' }

  function HexDigit(d: nat): (c: char)
    requires d < 16
    ensures IsHexDigit(c)
  {
    if d < 10 then (('0' as int) + d) as char else (('a' as int) + d - 10) as char
  }

  function HexDigitValue(c: char): (d: nat)
    requires IsHexDigit(c)
    ensures d < 16 && HexDigit(d) == c
  {
    if c <= '9' then (c as int) - ('0' as int) else (c as int) - ('a' as int) + 10
  }

  predicate AllHexDigits(s: string) { forall i :: 0 <= i < |s| ==> IsHexDigit(s[i]) }

  /** `%x` of a byte slice: two lower-case hexadecimal digits per byte, most
      significant digit first, no separators. */
  function Hex(bs: seq<byte>): (s: string)
    ensures |s| == 2 * |bs| && AllHexDigits(s)
  {
    if bs == [] then ""
    else [HexDigit(bs[0] as int / 16), HexDigit(bs[0] as int % 16)] + Hex(bs[1..])
  }

  /** Reads pairs of hexadecimal digits back as bytes. */
  function Unhex(s: string): seq<byte>
    requires |s| % 2 == 0 && AllHexDigits(s)
  {
    if s == [] then []
    else [(16 * HexDigitValue(s[0]) + HexDigitValue(s[1])) as byte] + Unhex(s[2..])
  }

  lemma {:induction false} HexRoundTrip(bs: seq<byte>)
    ensures Unhex(Hex(bs)) == bs
  {
    if bs != [] {
      var s := Hex(bs);
      var hi, lo := bs[0] as int / 16, bs[0] as int % 16;
      assert s[0] == HexDigit(hi) && s[1] == HexDigit(lo);
      assert HexDigitValue(s[0]) == hi && HexDigitValue(s[1]) == lo by {
        HexDigitInverse(hi);
        HexDigitInverse(lo);
      }
      assert s[2..] == Hex(bs[1..]);
      HexRoundTrip(bs[1..]);
    }
  }

  lemma HexDigitInverse(d: nat)
    requires d < 16
    ensures HexDigitValue(HexDigit(d)) == d
  {
  }

  lemma HexInjective(a: seq<byte>, b: seq<byte>)
    requires Hex(a) == Hex(b)
    ensures a == b
  {
    HexRoundTrip(a);
    HexRoundTrip(b);
  }

  /** `pattern` stands in `text` starting at position `i`. */
  predicate OccursAt(text: string, pattern: string, i: int)
  {
    0 <= i && i + |pattern| <= |text| && text[i..i + |pattern|] == pattern
  }

  /** An unanchored search: `pattern` stands anywhere in `text`. */
  predicate Contains(text: string, pattern: string)
    ensures Contains(text, pattern) ==> |pattern| <= |text|
    ensures IsPrefix(pattern, text) ==> Contains(text, pattern)
  {
    assert IsPrefix(pattern, text) ==> OccursAt(text, pattern, 0);
    exists i | 0 <= i <= |text| :: OccursAt(text, pattern, i)
  }

  lemma ContainsWithin(before: string, middle: string, after: string)
    ensures Contains(before + middle + after, middle)
  {
    var text := before + middle + after;
    assert text[|before|..|before| + |middle|] == middle;
    assert OccursAt(text, middle, |before|);
  }
}
