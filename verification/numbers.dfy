/** Decimal text of integers: JavaScript's `Number.prototype.toString()` on integers (used
    for the `year` and vote-count multipart fields) and `parseInt(s)` without a radix
    (used for the year filter). Only base-10 integers are modelled. */
module Numbers {
  import opened Wrappers
  import opened Text

  function DigitChar(d: int): (c: char)
    requires 0 <= d < 10
    ensures IsDigit(c)
  {
    ('0' as int + d) as char
  }

  function DigitValue(c: char): (d: int)
    requires IsDigit(c)
    ensures 0 <= d < 10 && DigitChar(d) == c
  {
    c as int - '0' as int
  }

  predicate AllDigits(s: string) {
    forall i :: 0 <= i < |s| ==> IsDigit(s[i])
  }

  /** The decimal digits of `n`, without leading zeros. */
  function NatToString(n: nat): (r: string)
    ensures |r| > 0 && AllDigits(r)
    ensures |r| > 1 ==> r[0] != '0'
    decreases n
  {
    if n < 10 then [DigitChar(n)] else NatToString(n / 10) + [DigitChar(n % 10)]
  }

  /** `n.toString()` for an integer `n`: a minus sign before the digits of a negative. */
  function IntToString(n: int): (r: string)
    ensures |r| > 0
    ensures n < 0 <==> r[0] == '-'
    ensures n >= 0 ==> AllDigits(r)
    ensures n < 0 ==> AllDigits(r[1..])
  {
    if n < 0 then "-" + NatToString(-n) else NatToString(n)
  }

  /** The value of a run of decimal digits. */
  function DigitsValue(s: string): (v: nat)
    requires AllDigits(s)
  {
    if |s| == 0 then 0 else DigitsValue(s[..|s| - 1]) * 10 + DigitValue(s[|s| - 1])
  }

  /** The index of the first character at or after `i` that is not a decimal digit, or
      `|s|` when there is none. */
  function DigitsEnd(s: string, i: nat): (n: nat)
    requires i <= |s|
    ensures i <= n <= |s|
    ensures forall j :: i <= j < n ==> IsDigit(s[j])
    ensures n < |s| ==> !IsDigit(s[n])
    decreases |s| - i
  {
    if i < |s| && IsDigit(s[i]) then DigitsEnd(s, i + 1) else i
  }

  /** The longest prefix of `s` made of decimal digits. */
  function LeadingDigits(s: string): (r: string)
    ensures |r| <= |s| && r == s[..|r|] && AllDigits(r)
    ensures |r| < |s| ==> !IsDigit(s[|r|])
  {
    s[..DigitsEnd(s, 0)]
  }

  /** `parseInt(s)`: skip leading white space, take an optional sign and then the longest
      run of decimal digits; `None` is `NaN`, when there is no digit. */
  function ParseInt(s: string): (r: Option<int>)
    ensures r.None? <==> LeadingDigits(Unsigned(TrimStart(s))) == []
  {
    var t := TrimStart(s);
    var digits := LeadingDigits(Unsigned(t));
    if digits == [] then None
    else
      var v: int := DigitsValue(digits);
      if |t| > 0 && t[0] == '-' then Some(-v) else Some(v)
  }

  /** `t` without its leading sign, if any. */
  function Unsigned(t: string): (r: string)
    ensures |t| > 0 && (t[0] == '-' || t[0] == '+') ==> r == t[1..]
    ensures |t| == 0 || (t[0] != '-' && t[0] != '+') ==> r == t
  {
    if |t| > 0 && (t[0] == '-' || t[0] == '+') then t[1..] else t
  }

  lemma {:induction false} DigitsValueOfNatToString(n: nat)
    ensures DigitsValue(NatToString(n)) == n
    decreases n
  {
    if n >= 10 {
      DigitsValueOfNatToString(n / 10);
      var s := NatToString(n);
      assert s[..|s| - 1] == NatToString(n / 10);
    }
  }

  lemma LeadingDigitsOfDigits(s: string)
    requires AllDigits(s)
    ensures LeadingDigits(s) == s
  {
  }

  /** Reading back the decimal text of an integer gives the integer. */
  lemma ParseIntRoundTrip(n: int)
    ensures ParseInt(IntToString(n)) == Some(n)
  {
    var s := IntToString(n);
    var m: nat := if n < 0 then -n else n;
    var digits := NatToString(m);
    assert TrimStart(s) == s by { NoLeadingSpace(s); }
    assert Unsigned(s) == digits;
    assert LeadingDigits(digits) == digits by { LeadingDigitsOfDigits(digits); }
    assert DigitsValue(digits) == m by { DigitsValueOfNatToString(m); }
  }

  /** `trimStart` leaves a string that starts with something other than white space. */
  lemma NoLeadingSpace(s: string)
    requires |s| > 0 && !IsSpace(s[0])
    ensures TrimStart(s) == s
  {
    assert SkipSpaces(s, 0) == 0;
  }

  /** `parseInt` stops at the first character that is not a digit. */
  lemma ParseIntIgnoresTrailingText(n: nat, rest: string)
    requires |rest| > 0 && !IsDigit(rest[0])
    ensures ParseInt(NatToString(n) + rest) == Some(n)
  {
    ParseIntOfDigitsThen(NatToString(n), rest);
    DigitsValueOfNatToString(n);
  }

  lemma ParseIntOfDigitsThen(digits: string, rest: string)
    requires |digits| > 0 && AllDigits(digits)
    requires |rest| > 0 && !IsDigit(rest[0])
    ensures ParseInt(digits + rest) == Some(DigitsValue(digits))
  {
    StartsWithDigit(digits, rest);
    LeadingDigitsPrefix(digits, rest);
    ParseIntOfUnsignedDigits(digits + rest, digits);
  }

  lemma StartsWithDigit(digits: string, rest: string)
    requires |digits| > 0 && AllDigits(digits)
    ensures TrimStart(digits + rest) == digits + rest
    ensures Unsigned(digits + rest) == digits + rest
  {
    var s := digits + rest;
    assert s[0] == digits[0] && IsDigit(s[0]);
    NoLeadingSpace(s);
  }

  /** A string with neither leading white space nor a sign parses as its leading digits. */
  lemma ParseIntOfUnsignedDigits(s: string, digits: string)
    requires |digits| > 0 && AllDigits(digits)
    requires TrimStart(s) == s && Unsigned(s) == s && LeadingDigits(s) == digits
    ensures ParseInt(s) == Some(DigitsValue(digits))
  {
  }

  lemma LeadingDigitsPrefix(d: string, rest: string)
    requires AllDigits(d)
    requires |rest| > 0 && !IsDigit(rest[0])
    ensures LeadingDigits(d + rest) == d
  {
    var s := d + rest;
    var n := DigitsEnd(s, 0);
    assert forall j :: 0 <= j < |d| ==> s[j] == d[j];
    assert !IsDigit(s[|d|]);
    assert n == |d|;
    assert s[..|d|] == d;
  }
}
