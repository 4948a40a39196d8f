/** Character classes and number/text conversions the handlers rely on:
    the `\d` and `[A-Za-z]` regex classes, `Number.parseInt(…, 10)`, the
    decimal text of a number inside a template literal, ASCII case
    conversion and lower-case hexadecimal digests. */
module Text {

  predicate IsDigit(c: char) { '0' <= c <= '9' }

  predicate IsDigits(s: string) { forall i :: 0 <= i < |s| ==> IsDigit(s[i]) }

  /** The regex class `[A-Za-z]`. */
  predicate IsLetter(c: char) { 'A' <= c <= 'Z' || 'a' <= c <= 'z' }

  predicate IsLetters(s: string) { forall i :: 0 <= i < |s| ==> IsLetter(s[i]) }

  /** The regex class `[a-fA-F0-9]`. */
  predicate IsHexDigit(c: char) { IsDigit(c) || 'a' <= c <= 'f' || 'A' <= c <= 'F' }

  function DigitChar(d: nat): (c: char)
    requires d < 10
    ensures IsDigit(c)
  {
    ('0' as int + d) as char
  }

  function DigitValue(c: char): (d: nat)
    requires IsDigit(c)
    ensures d < 10 && DigitChar(d) == c
  {
    (c as int) - ('0' as int)
  }

  /** `Number.parseInt(s, 10)` on a non-empty run of decimal digits, read
      most significant digit first. */
  function ParseDigits(s: string): nat
    requires IsDigits(s)
  {
    if |s| == 0 then 0 else 10 * ParseDigits(s[..|s| - 1]) + DigitValue(s[|s| - 1])
  }

  /** The decimal text a template literal produces for a non-negative
      integer: no sign and no leading zero. */
  function NatToDecimal(n: nat): (s: string)
    ensures |s| > 0 && IsDigits(s)
    ensures s[0] == '0' <==> n == 0
    ensures n == 0 ==> s == "0"
  {
    if n < 10 then [DigitChar(n)] else NatToDecimal(n / 10) + [DigitChar(n % 10)]
  }

  /** The decimal text of any integer: a `-` sign before the magnitude when
      negative. */
  function IntToDecimal(i: int): (s: string)
    ensures |s| > 0
    ensures s[0] == '-' <==> i < 0
    ensures i >= 0 ==> IsDigits(s)
  {
    if i < 0 then "-" + NatToDecimal(-i) else NatToDecimal(i)
  }

  /** Parsing the decimal text of `n` gives `n` back. */
  lemma {:induction false} ParseNatToDecimal(n: nat)
    ensures ParseDigits(NatToDecimal(n)) == n
  {
    if n >= 10 {
      var p := NatToDecimal(n / 10);
      var s := p + [DigitChar(n % 10)];
      assert s[..|s| - 1] == p;
      ParseNatToDecimal(n / 10);
    }
  }

  /** Digits without a leading zero are the decimal text of their value. */
  lemma {:induction false} DecimalOfParse(d: string)
    requires IsDigits(d) && |d| > 0
    requires d[0] != '0' || |d| == 1
    ensures NatToDecimal(ParseDigits(d)) == d
  {
    var p := d[..|d| - 1];
    if |d| > 1 {
      assert p[0] == d[0];
      DecimalOfParse(p);
      var n := ParseDigits(d);
      assert n / 10 == ParseDigits(p) && n % 10 == DigitValue(d[|d| - 1]);
      assert d == p + [d[|d| - 1]];
    } else {
      assert ParseDigits(p) == 0;
    }
  }

  /** Distinct integers have distinct decimal texts. */
  lemma IntToDecimalInjective(i: int, j: int)
    requires IntToDecimal(i) == IntToDecimal(j)
    ensures i == j
  {
    if i < 0 {
      assert IntToDecimal(i)[1..] == NatToDecimal(-i);
      assert IntToDecimal(j)[1..] == NatToDecimal(-j);
      ParseNatToDecimal(-i);
      ParseNatToDecimal(-j);
    } else {
      ParseNatToDecimal(i);
      ParseNatToDecimal(j);
    }
  }

  /** `String.prototype.toUpperCase` on a character the regexes admit. */
  function ToUpper(c: char): (u: char)
    ensures IsLetter(c) ==> IsLetter(u) && !('a' <= u <= 'z')
    ensures !('a' <= c <= 'z') ==> u == c
  {
    if 'a' <= c <= 'z' then (c as int - 32) as char else c
  }

  /** ASCII lower-casing, as a hex string is read case-insensitively. */
  function ToLower(c: char): (l: char)
    ensures IsHexDigit(c) ==> IsHexDigit(l) && !('A' <= l <= 'F')
    ensures !('A' <= c <= 'Z') ==> l == c
  {
    if 'A' <= c <= 'Z' then (c as int + 32) as char else c
  }

  function LowerCase(s: string): (r: string)
    ensures |r| == |s|
    ensures forall i :: 0 <= i < |s| ==> r[i] == ToLower(s[i])
  {
    seq(|s|, i requires 0 <= i < |s| => ToLower(s[i]))
  }

  function HexChar(d: bv8): (c: char)
    requires d < 16
    ensures IsHexDigit(c) && c != '.'
  {
    if d < 10 then ('0' as int + d as int) as char else ('a' as int + d as int - 10) as char
  }

  /** `digest('hex')`: two lower-case hex digits per byte, high nibble
      first. */
  function HexEncode(bytes: seq<bv8>): (s: string)
    ensures |s| == 2 * |bytes|
    ensures forall i :: 0 <= i < |s| ==> IsHexDigit(s[i]) && s[i] != '.'
  {
    if |bytes| == 0 then []
    else [HexChar(bytes[0] >> 4), HexChar(bytes[0] & 15)] + HexEncode(bytes[1..])
  }
}
