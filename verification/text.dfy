/** ASCII string primitives the admin dashboard relies on: JavaScript's `\s` class,
    `toLowerCase`, `trim`, `includes` and character filters (`replace(/[^...]/g, '')`).
    Only the ASCII behaviour of these operations is modelled: `\s` is the six ASCII
    white-space characters and only 'A'..'Z' change case. */
module Text {

  /** JavaScript `\s` restricted to ASCII: space, tab, line feed, vertical tab,
      form feed and carriage return. */
  predicate IsSpace(c: char) {
    c == ' ' || c == '\t' || c == '\n' || c == '\U{000B}' || c == '\U{000C}' || c == '\r'
  }

  predicate IsUpper(c: char) { 'A' <= c <= 'Z' }

  predicate IsLowerLetter(c: char) { 'a' <= c <= 'z' }

  predicate IsDigit(c: char) { '0' <= c <= '9' }

  /** The class `[a-z0-9]`. */
  predicate IsLowerAlnum(c: char) { IsLowerLetter(c) || IsDigit(c) }

  /** JavaScript `\w`: `[A-Za-z0-9_]`. */
  predicate IsWordChar(c: char) { IsUpper(c) || IsLowerAlnum(c) || c == '_' }

  /** `toLowerCase` on one character, ASCII only. */
  function LowerChar(c: char): (r: char)
    ensures !IsUpper(r)
    ensures IsUpper(c) ==> IsLowerLetter(r)
    ensures !IsUpper(c) ==> r == c
  {
    if IsUpper(c) then (c as int + 32) as char else c
  }

  function ToLower(s: string): (r: string)
    ensures |r| == |s|
    ensures forall i :: 0 <= i < |s| ==> r[i] == LowerChar(s[i])
  {
    seq(|s|, i requires 0 <= i < |s| => LowerChar(s[i]))
  }

  lemma ToLowerHasNoUpper(s: string)
    ensures forall i :: 0 <= i < |ToLower(s)| ==> !IsUpper(ToLower(s)[i])
  {
  }

  /** Lower-casing leaves a string without upper-case letters unchanged; in particular
      it is idempotent. */
  lemma ToLowerIdentity(s: string)
    requires forall i :: 0 <= i < |s| ==> !IsUpper(s[i])
    ensures ToLower(s) == s
  {
  }

  lemma ToLowerConcat(a: string, b: string)
    ensures ToLower(a + b) == ToLower(a) + ToLower(b)
  {
  }

  /** The index of the first character at or after `i` that is not white space, or `|s|`
      when there is none. */
  function SkipSpaces(s: string, i: nat): (n: nat)
    requires i <= |s|
    ensures i <= n <= |s|
    ensures forall j :: i <= j < n ==> IsSpace(s[j])
    ensures n < |s| ==> !IsSpace(s[n])
    decreases |s| - i
  {
    if i < |s| && IsSpace(s[i]) then SkipSpaces(s, i + 1) else i
  }

  /** The end of `s[lo..j]` once its trailing white space is dropped. */
  function SkipSpacesBack(s: string, lo: nat, j: nat): (n: nat)
    requires lo <= j <= |s|
    ensures lo <= n <= j
    ensures forall k :: n <= k < j ==> IsSpace(s[k])
    ensures n > lo ==> !IsSpace(s[n - 1])
    decreases j
  {
    if j > lo && IsSpace(s[j - 1]) then SkipSpacesBack(s, lo, j - 1) else j
  }

  /** Drops leading white space (`trimStart`). */
  function TrimStart(s: string): (r: string)
    ensures |r| <= |s| && r == s[|s| - |r|..]
    ensures |r| > 0 ==> !IsSpace(r[0])
    ensures forall i :: 0 <= i < |s| - |r| ==> IsSpace(s[i])
  {
    s[SkipSpaces(s, 0)..]
  }

  /** JavaScript `trim`: the longest slice of `s` that neither starts nor ends with
      white space, obtained by removing only white space. */
  function Trim(s: string): (r: string)
    ensures |r| > 0 ==> !IsSpace(r[0]) && !IsSpace(r[|r| - 1])
    ensures exists k :: SliceAt(s, r, k) && IsBlank(s[..k]) && IsBlank(s[k + |r|..])
  {
    var a := SkipSpaces(s, 0);
    var b := SkipSpacesBack(s, a, |s|);
    assert SliceAt(s, s[a..b], a);
    assert IsBlank(s[..a]) by {
      forall i | 0 <= i < a ensures IsSpace(s[..a][i]) {
        assert s[..a][i] == s[i];
      }
    }
    assert IsBlank(s[b..]) by {
      forall i | 0 <= i < |s| - b ensures IsSpace(s[b..][i]) {
        assert s[b..][i] == s[b + i];
      }
    }
    s[a..b]
  }

  /** `r` occurs in `s` starting at index `k`. */
  predicate SliceAt(s: string, r: string, k: int) {
    0 <= k && k + |r| <= |s| && s[k..k + |r|] == r
  }

  /** A string is blank when it holds white space only; then `trim()` is falsy. */
  predicate IsBlank(s: string) {
    forall i :: 0 <= i < |s| ==> IsSpace(s[i])
  }

  lemma TrimStartEmptyIffBlank(s: string)
    ensures TrimStart(s) == [] <==> IsBlank(s)
  {
  }

  lemma TrimEmptyIffBlank(s: string)
    ensures Trim(s) == [] <==> IsBlank(s)
  {
    var a := SkipSpaces(s, 0);
    if a < |s| {
      assert !IsSpace(s[a]);
      assert SkipSpacesBack(s, a, |s|) > a;
    }
  }

  /** A string with no white space at either end is its own trim. */
  lemma TrimIdentity(s: string)
    requires |s| > 0 ==> !IsSpace(s[0]) && !IsSpace(s[|s| - 1])
    ensures Trim(s) == s
  {
    assert SkipSpaces(s, 0) == 0;
    assert SkipSpacesBack(s, 0, |s|) == |s|;
  }

  /** `s` starts with `t`. */
  predicate StartsWith(s: string, t: string) {
    |t| <= |s| && s[..|t|] == t
  }

  /** JavaScript `s.includes(t)`: `t` occurs in `s` as a contiguous substring. */
  predicate Contains(s: string, t: string)
    decreases |s|
  {
    StartsWith(s, t) || (|s| > 0 && Contains(s[1..], t))
  }

  /** `Contains` agrees with the positional definition of a substring occurrence. */
  lemma {:induction false} ContainsIffOccurs(s: string, t: string)
    ensures Contains(s, t) <==> exists k :: SliceAt(s, t, k)
    decreases |s|
  {
    if StartsWith(s, t) {
      assert SliceAt(s, t, 0);
    } else if |s| > 0 {
      ContainsIffOccurs(s[1..], t);
      if exists k :: SliceAt(s, t, k) {
        var k :| SliceAt(s, t, k);
        assert k != 0;
        assert SliceAt(s[1..], t, k - 1) by { assert s[1..][k - 1..k - 1 + |t|] == s[k..k + |t|]; }
      }
      if Contains(s[1..], t) {
        var k :| SliceAt(s[1..], t, k);
        assert SliceAt(s, t, k + 1) by { assert s[1..][k..k + |t|] == s[k + 1..k + 1 + |t|]; }
      }
    }
  }

  /** Every string contains the empty string. */
  lemma ContainsEmpty(s: string)
    ensures Contains(s, "")
  {
    assert StartsWith(s, "");
  }

  /** The characters of `s` that satisfy `keep`, in order (`replace(/[^...]/g, '')`). */
  function Keep(s: string, keep: char -> bool): (r: string)
    ensures |r| <= |s|
    ensures forall i :: 0 <= i < |r| ==> keep(r[i])
    ensures (forall i :: 0 <= i < |s| ==> keep(s[i])) ==> r == s
  {
    if |s| == 0 then []
    else if keep(s[0]) then [s[0]] + Keep(s[1..], keep)
    else Keep(s[1..], keep)
  }

  lemma KeepConcat(a: string, b: string, keep: char -> bool)
    ensures Keep(a + b, keep) == Keep(a, keep) + Keep(b, keep)
  {
    if |a| > 0 {
      assert (a + b)[1..] == a[1..] + b;
    } else {
      assert a + b == b;
    }
  }

  /** Keeping with a stronger predicate after a weaker one is keeping with the stronger. */
  lemma KeepKeep(s: string, weak: char -> bool, strong: char -> bool)
    requires forall c :: strong(c) ==> weak(c)
    ensures Keep(Keep(s, weak), strong) == Keep(s, strong)
  {
  }
}
