/**
 * The few string operations of JavaScript that the engine relies on: number
 * to decimal text, `parseInt`, ASCII `toLowerCase`, `includes` and `join`.
 */
module Text {
  import opened Types

  predicate IsDigit(c: char) { '0' <= c <= '9' }

  function DigitChar(d: int): (c: char)
    requires 0 <= d < 10
    ensures IsDigit(c)
  {
    ['0', '1', '2', '3', '4', '5', '6', '7', '8', '9'][d]
  }

  function DigitValue(c: char): (d: int)
    requires IsDigit(c)
    ensures 0 <= d < 10
  {
    c as int - '0' as int
  }

  /** Decimal digits of n, most significant first, with no leading zero. */
  function NatToString(n: nat): (s: string)
    ensures |s| > 0 && forall i :: 0 <= i < |s| ==> IsDigit(s[i])
    decreases n
  {
    if n < 10 then [DigitChar(n)] else NatToString(n / 10) + [DigitChar(n % 10)]
  }

  /** How a JavaScript integer-valued number is written by `String(n)`. */
  function IntToString(n: int): (s: string)
    ensures |s| > 0 && (s[0] == '-' <==> n < 0)
    ensures forall i :: (if n < 0 then 1 else 0) <= i < |s| ==> IsDigit(s[i])
  {
    if n < 0 then "-" + NatToString(-n) else NatToString(n)
  }

  /** The value of a string of decimal digits. */
  function DigitsValue(s: string): (v: nat)
    requires forall i :: 0 <= i < |s| ==> IsDigit(s[i])
  {
    if |s| == 0 then 0 else DigitsValue(s[..|s| - 1]) * 10 + DigitValue(s[|s| - 1])
  }

  /** The longest prefix of s made of decimal digits. */
  function DigitPrefix(s: string): (d: string)
    ensures |d| <= |s| && d == s[..|d|]
    ensures forall i :: 0 <= i < |d| ==> IsDigit(d[i])
    ensures |d| < |s| ==> !IsDigit(s[|d|])
  {
    if |s| == 0 || !IsDigit(s[0]) then [] else [s[0]] + DigitPrefix(s[1..])
  }

  /** ASCII white space, which `parseInt` skips before the number. */
  predicate IsSpace(c: char) {
    c == ' ' || c == '\t' || c == '\n' || c == '\r' || c == 11 as char || c == 12 as char
  }

  function TrimStart(s: string): (t: string)
    ensures |t| <= |s| && t == s[|s| - |t|..]
    ensures |t| > 0 ==> !IsSpace(t[0])
  {
    if |s| > 0 && IsSpace(s[0]) then TrimStart(s[1..]) else s
  }

  /** The value of the digits at the start of s; None when s does not start with a digit. */
  function LeadingNumber(s: string): (r: Option<int>)
    ensures r.Some? ==> r.value >= 0
  {
    var digits := DigitPrefix(s);
    if |digits| == 0 then None else Some(DigitsValue(digits))
  }

  function Negated(r: Option<int>): Option<int> {
    if r.Some? then Some(-r.value) else None
  }

  /**
   * `parseInt(s)` on integers: leading white space, an optional sign, then the
   * longest run of digits; None (NaN) when there is no digit. Parsing stops at
   * the first non-digit, so "3.7" gives 3 and "12abc" gives 12.
   */
  function ParseInt(s: string): (r: Option<int>)
    ensures |TrimStart(s)| == 0 ==> r.None?
    ensures |TrimStart(s)| > 0 && IsDigit(TrimStart(s)[0]) ==> r.Some? && r.value >= 0
    ensures r.Some? && r.value < 0 ==> TrimStart(s)[0] == '-'
  {
    SignedNumber(TrimStart(s))
  }

  /** An optional sign, then the leading number. */
  function SignedNumber(t: string): Option<int> {
    if |t| > 0 && t[0] == '-' then Negated(LeadingNumber(t[1..]))
    else if |t| > 0 && t[0] == '+' then LeadingNumber(t[1..])
    else LeadingNumber(t)
  }

  lemma {:induction false} DigitsOfNat(n: nat)
    ensures DigitsValue(NatToString(n)) == n
    decreases n
  {
    var s := NatToString(n);
    if n >= 10 {
      DigitsOfNat(n / 10);
      assert s[..|s| - 1] == NatToString(n / 10);
    }
  }

  lemma {:induction false} DigitPrefixOfDigits(s: string)
    requires forall i :: 0 <= i < |s| ==> IsDigit(s[i])
    ensures DigitPrefix(s) == s
  {
    if |s| > 0 {
      DigitPrefixOfDigits(s[1..]);
    }
  }

  /** The leading number of a non-empty digit string is its value. */
  lemma LeadingNumberOfDigits(digits: string, v: int)
    requires |digits| > 0 && forall i :: 0 <= i < |digits| ==> IsDigit(digits[i])
    requires v == DigitsValue(digits)
    ensures LeadingNumber(digits) == Some(v)
  {
    DigitPrefixOfDigits(digits);
  }

  /** parseInt of text that starts with a digit reads its leading number. */
  lemma ParseIntOfUnsigned(s: string)
    requires |s| > 0 && IsDigit(s[0])
    ensures ParseInt(s) == LeadingNumber(s)
  {
    assert TrimStart(s) == s;
    assert SignedNumber(s) == LeadingNumber(s);
  }

  /** parseInt of text that starts with a minus sign negates the number after it. */
  lemma ParseIntOfMinus(s: string)
    requires |s| > 0 && s[0] == '-'
    ensures ParseInt(s) == Negated(LeadingNumber(s[1..]))
  {
    assert TrimStart(s) == s;
    assert SignedNumber(s) == Negated(LeadingNumber(s[1..]));
  }

  /** Reading back what IntToString writes gives the number again. */
  lemma ParseIntOfIntToString(n: int)
    ensures ParseInt(IntToString(n)) == Some(n)
  {
    var m: nat := if n < 0 then -n else n;
    var digits := NatToString(m);
    DigitsOfNat(m);
    LeadingNumberOfDigits(digits, m);
    if n < 0 {
      var s := ['-'] + digits;
      assert s[1..] == digits;
      ParseIntOfMinus(s);
    } else {
      ParseIntOfUnsigned(digits);
    }
  }

  function LowerChar(c: char): char {
    if 'A' <= c <= 'Z' then (c as int - 'A' as int + 'a' as int) as char else c
  }

  /** `toLowerCase`, on the ASCII letters. */
  function Lower(s: string): (r: string)
    ensures |r| == |s| && forall i :: 0 <= i < |s| ==> r[i] == LowerChar(s[i])
  {
    if |s| == 0 then [] else [LowerChar(s[0])] + Lower(s[1..])
  }

  lemma LowerIdempotent(s: string)
    ensures Lower(Lower(s)) == Lower(s)
  {
  }

  /** `s.includes(w)`: w occurs in s at some position. */
  function Contains(s: string, w: string): (b: bool)
    ensures |w| == 0 ==> b
    ensures b ==> |w| <= |s|
  {
    if |w| <= |s| && s[..|w|] == w then true
    else if |s| == 0 then false
    else Contains(s[1..], w)
  }

  predicate OccursAt(s: string, w: string, i: int) {
    0 <= i && i + |w| <= |s| && s[i..i + |w|] == w
  }

  /** Contains agrees with the direct definition: an occurrence at some index. */
  lemma {:induction false} ContainsIff(s: string, w: string)
    ensures Contains(s, w) <==> exists i :: OccursAt(s, w, i)
  {
    if |w| <= |s| && s[..|w|] == w {
      assert OccursAt(s, w, 0);
    } else if |s| > 0 {
      ContainsIff(s[1..], w);
      if exists i :: OccursAt(s, w, i) {
        var i :| OccursAt(s, w, i);
        assert i != 0;
        assert s[1..][i - 1..i - 1 + |w|] == s[i..i + |w|];
        assert OccursAt(s[1..], w, i - 1);
      }
      if exists i :: OccursAt(s[1..], w, i) {
        var i :| OccursAt(s[1..], w, i);
        assert s[i + 1..i + 1 + |w|] == s[1..][i..i + |w|];
        assert OccursAt(s, w, i + 1);
      }
    } else {
      assert forall i :: !OccursAt(s, w, i);
    }
  }

  /** `parts.join(sep)`: the parts in order, with sep between neighbours; it starts with the first part. */
  function Join(parts: seq<string>, sep: string): (r: string)
    ensures |parts| > 0 ==> |r| >= |parts[0]| && r[..|parts[0]|] == parts[0]
  {
    if |parts| == 0 then ""
    else if |parts| == 1 then parts[0]
    else
      var init := parts[..|parts| - 1];
      assert init[0] == parts[0];
      Join(init, sep) + sep + parts[|parts| - 1]
  }
}
