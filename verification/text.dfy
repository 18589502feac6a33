/** ASCII text helpers shared by the assessment view and the analytics
    dashboard: letter case (String.prototype.toUpperCase / toLowerCase
    restricted to ASCII), the decimal rendering of integral numbers
    (Number.prototype.toString) with its parse-back, and padStart. */
module Text {

  predicate IsUpper(c: char) { 'A' <= c <= 'Z' }

  predicate IsLower(c: char) { 'a' <= c <= 'z' }

  predicate IsDigit(c: char) { '0' <= c <= '9' }

  predicate NoCapitals(s: string) { forall i :: 0 <= i < |s| ==> !IsUpper(s[i]) }

  predicate AllDigits(s: string) { forall i :: 0 <= i < |s| ==> IsDigit(s[i]) }

  /** toUpperCase on one ASCII character. */
  function UpperChar(c: char): (u: char)
    ensures !IsLower(u)
    ensures IsLower(c) ==> IsUpper(u) && u as int - 'A' as int == c as int - 'a' as int
    ensures !IsLower(c) ==> u == c
  {
    if IsLower(c) then (c as int - 32) as char else c
  }

  /** toLowerCase on one ASCII character. */
  function LowerChar(c: char): (l: char)
    ensures !IsUpper(l)
    ensures IsUpper(c) ==> IsLower(l) && l as int - 'a' as int == c as int - 'A' as int
    ensures !IsUpper(c) ==> l == c
  {
    if IsUpper(c) then (c as int + 32) as char else c
  }

  lemma LowerOfUpper(c: char)
    ensures LowerChar(UpperChar(c)) == LowerChar(c)
  {
  }

  /** toLowerCase on a string. */
  function LowerStr(s: string): (r: string)
    ensures |r| == |s|
    ensures forall i :: 0 <= i < |s| ==> r[i] == LowerChar(s[i])
  {
    seq(|s|, i requires 0 <= i < |s| => LowerChar(s[i]))
  }

  /** A string without upper-case letters is its own lower-case form. */
  lemma LowerStrFixed(s: string)
    requires NoCapitals(s)
    ensures LowerStr(s) == s
  {
  }

  function Digit(n: nat): (c: char)
    requires n < 10
    ensures IsDigit(c) && c as int - '0' as int == n
  {
    ('0' as int + n) as char
  }

  /** The decimal digits of n, most significant first, without leading zeros. */
  function NatToDecimal(n: nat): (r: string)
    ensures AllDigits(r)
    ensures 1 <= |r|
    ensures |r| == 1 <==> n < 10
    ensures n < 100 ==> |r| <= 2
    ensures |r| > 1 ==> r[0] != '0'
    decreases n
  {
    if n < 10 then [Digit(n)] else NatToDecimal(n / 10) + [Digit(n % 10)]
  }

  /** The number a string of decimal digits denotes. */
  function DecimalValue(s: string): nat
    requires AllDigits(s)
    decreases |s|
  {
    if s == [] then 0 else 10 * DecimalValue(s[..|s| - 1]) + (s[|s| - 1] as int - '0' as int)
  }

  lemma {:induction false} DecimalRoundTrip(n: nat)
    ensures DecimalValue(NatToDecimal(n)) == n
    decreases n
  {
    if n >= 10 {
      DecimalRoundTrip(n / 10);
      var r := NatToDecimal(n);
      assert r[..|r| - 1] == NatToDecimal(n / 10);
    }
  }

  /** Number.prototype.toString for an integral value. */
  function IntToString(i: int): (r: string)
    ensures 1 <= |r|
    ensures r[0] == '-' <==> i < 0
    ensures i >= 0 ==> AllDigits(r)
    ensures i < 0 ==> AllDigits(r[1..]) && 2 <= |r|
    ensures i >= 0 && |r| > 1 ==> r[0] != '0'
    ensures i < 0 ==> r[1] != '0'
  {
    if i < 0 then "-" + NatToDecimal(-i) else NatToDecimal(i)
  }

  /** Reads back an optionally signed decimal numeral. */
  function SignedValue(s: string): int
    requires 1 <= |s|
    requires (s[0] == '-' || s[0] == '+') ==> AllDigits(s[1..])
    requires !(s[0] == '-' || s[0] == '+') ==> AllDigits(s)
  {
    if s[0] == '-' then -(DecimalValue(s[1..]) as int)
    else if s[0] == '+' then DecimalValue(s[1..])
    else DecimalValue(s)
  }

  lemma IntToStringRoundTrip(i: int)
    ensures SignedValue(IntToString(i)) == i
  {
    if i < 0 {
      assert IntToString(i)[1..] == NatToDecimal(-i);
      DecimalRoundTrip(-i);
    } else {
      DecimalRoundTrip(i);
    }
  }

  /** String.prototype.padStart(width, fill) with a one-character fill. */
  function PadStart(s: string, width: nat, fill: char): (r: string)
    ensures |s| >= width ==> r == s
    ensures |s| < width ==> |r| == width && r[width - |s|..] == s
    ensures forall i :: 0 <= i < |r| - |s| ==> r[i] == fill
  {
    if |s| >= width then s else seq(width - |s|, _ => fill) + s
  }

}
