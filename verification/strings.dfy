/**
 * The JavaScript string operations the UI and the stream driver rely on:
 * `String.prototype.trim`, `toLowerCase` (ASCII letters only), `includes`,
 * `Array.prototype.join`, decimal rendering of integers in template strings,
 * `Number.prototype.toString(36)` and the global `parseInt` without a radix.
 */
module Strings {
  import opened Wrappers

  /** The characters `trim` and `parseInt` skip: WhiteSpace and LineTerminator of ECMAScript. */
  predicate IsWhitespace(c: char) {
    || c == ' ' || c == '\t' || c == '\n' || c == '\r' || c == '\U{B}' || c == '\U{C}'
    || c == '\U{A0}' || c == '\U{1680}' || ('\U{2000}' <= c <= '\U{200A}')
    || c == '\U{2028}' || c == '\U{2029}' || c == '\U{202F}' || c == '\U{205F}'
    || c == '\U{3000}' || c == '\U{FEFF}'
  }

  predicate AllWhitespace(s: string) {
    forall i | 0 <= i < |s| :: IsWhitespace(s[i])
  }

  /** Number of whitespace characters at the start of `s`. */
  function LeadingWhitespace(s: string): (n: nat)
    ensures n <= |s|
    ensures forall i | 0 <= i < n :: IsWhitespace(s[i])
    ensures n < |s| ==> !IsWhitespace(s[n])
  {
    if s == [] || !IsWhitespace(s[0]) then 0 else 1 + LeadingWhitespace(s[1..])
  }

  /** Index where the trailing run of whitespace of `s` begins. */
  function TrailingStart(s: string): (e: nat)
    ensures e <= |s|
    ensures forall i | e <= i < |s| :: IsWhitespace(s[i])
    ensures e > 0 ==> !IsWhitespace(s[e - 1])
  {
    if s == [] || !IsWhitespace(s[|s| - 1]) then |s| else TrailingStart(s[..|s| - 1])
  }

  /** `s.trim()`: the slice of `s` between its leading and trailing whitespace. */
  function Trim(s: string): (r: string)
    ensures |r| <= |s|
    ensures r == [] <==> AllWhitespace(s)
    ensures r != [] ==> !IsWhitespace(r[0]) && !IsWhitespace(r[|r| - 1])
    ensures r != [] ==> r == s[LeadingWhitespace(s)..TrailingStart(s)]
  {
    var a := LeadingWhitespace(s);
    if a == |s| then []
    else
      var e := TrailingStart(s);
      assert !IsWhitespace(s[a]);
      assert a < e;
      s[a..e]
  }

  /** Trimming twice changes nothing more than trimming once. */
  lemma TrimIdempotent(s: string)
    ensures Trim(Trim(s)) == Trim(s)
  {
    var t := Trim(s);
    if t != [] {
      assert LeadingWhitespace(t) == 0;
      assert TrailingStart(t) == |t|;
    }
  }

  /** ASCII case folding of one character (other characters are kept). */
  function LowerChar(c: char): (d: char)
    ensures 'A' <= c <= 'Z' ==> 'a' <= d <= 'z'
    ensures !('A' <= c <= 'Z') ==> d == c
  {
    if 'A' <= c <= 'Z' then (c as int - 'A' as int + 'a' as int) as char else c
  }

  /** `s.toLowerCase()` restricted to ASCII letters. */
  function ToLower(s: string): (r: string)
    ensures |r| == |s|
    ensures forall i | 0 <= i < |s| :: r[i] == LowerChar(s[i])
  {
    seq(|s|, i requires 0 <= i < |s| => LowerChar(s[i]))
  }

  lemma ToLowerIdempotent(s: string)
    ensures ToLower(ToLower(s)) == ToLower(s)
  {
  }

  /** `s.startsWith(t)`. */
  predicate StartsWith(s: string, t: string) {
    |t| <= |s| && s[..|t|] == t
  }

  /** `s.endsWith(t)`. */
  predicate EndsWith(s: string, t: string) {
    |t| <= |s| && s[|s| - |t|..] == t
  }

  /** `s.includes(t)`: `t` occurs as a contiguous block of `s`. */
  predicate Includes(s: string, t: string) {
    exists i | 0 <= i <= |s| - |t| :: StartsWith(s[i..], t)
  }

  /** A block of `b` is still a block of `b` with text added on both sides. */
  lemma IncludesInConcat(a: string, b: string, c: string, t: string)
    requires Includes(b, t)
    ensures Includes(a + b + c, t)
  {
    var i :| 0 <= i <= |b| - |t| && StartsWith(b[i..], t);
    var s := a + b + c;
    forall k | 0 <= k < |t|
      ensures s[|a| + i..][..|t|][k] == t[k]
    {
      assert b[i..][..|t|][k] == t[k];
    }
    assert s[|a| + i..][..|t|] == t;
  }

  /** A block of a block of `s` is a block of `s`. */
  lemma IncludesTransitive(s: string, b: string, t: string)
    requires Includes(s, b) && Includes(b, t)
    ensures Includes(s, t)
  {
    var i :| 0 <= i <= |s| - |b| && StartsWith(s[i..], b);
    var j :| 0 <= j <= |b| - |t| && StartsWith(b[j..], t);
    forall k | 0 <= k < |t|
      ensures s[i + j..][..|t|][k] == t[k]
    {
      assert s[i..][..|b|][j + k] == b[j + k];
      assert b[j..][..|t|][k] == t[k];
    }
    assert s[i + j..][..|t|] == t;
  }

  /** `q` can be obtained from `s` by deleting characters (greedy left-to-right match). */
  predicate IsSubsequence(q: string, s: string)
    decreases |s|
  {
    if q == [] then true
    else if s == [] then false
    else if q[0] == s[0] then IsSubsequence(q[1..], s[1..])
    else IsSubsequence(q, s[1..])
  }

  /** A prefix is a subsequence. */
  lemma {:induction false} PrefixIsSubsequence(q: string, s: string)
    requires StartsWith(s, q)
    ensures IsSubsequence(q, s)
    decreases |q|
  {
    if q != [] {
      assert q[0] == s[0];
      assert StartsWith(s[1..], q[1..]) by {
        assert s[1..][..|q| - 1] == s[..|q|][1..];
      }
      PrefixIsSubsequence(q[1..], s[1..]);
    }
  }

  /** Putting one character in front of `s` keeps a subsequence match. */
  lemma {:induction false} SubsequenceDropFront(q: string, s: string)
    requires s != []
    requires IsSubsequence(q, s[1..])
    ensures IsSubsequence(q, s)
    decreases |s|, 0
  {
    if q != [] && q[0] == s[0] {
      SubsequenceShrink(q, s[1..]);
    }
  }

  /** A subsequence of `s` stays one after dropping its first character. */
  lemma {:induction false} SubsequenceShrink(q: string, s: string)
    requires q != []
    requires IsSubsequence(q, s)
    ensures IsSubsequence(q[1..], s)
    decreases |s|, 1
  {
    if q[0] == s[0] {
      SubsequenceDropFront(q[1..], s);
    } else {
      SubsequenceShrink(q, s[1..]);
      SubsequenceDropFront(q[1..], s);
    }
  }

  /** Dropping characters of `s` in front of a subsequence match keeps the match. */
  lemma {:induction false} SubsequenceOfSuffix(q: string, s: string, i: nat)
    requires i <= |s|
    requires IsSubsequence(q, s[i..])
    ensures IsSubsequence(q, s)
    decreases i
  {
    if i > 0 {
      assert s[i - 1..][1..] == s[i..];
      SubsequenceDropFront(q, s[i - 1..]);
      SubsequenceOfSuffix(q, s, i - 1);
    }
  }

  /** Every substring is a subsequence: the `includes` test is subsumed by the fuzzy match. */
  lemma IncludesIsSubsequence(s: string, t: string)
    requires Includes(s, t)
    ensures IsSubsequence(t, s)
  {
    var i :| 0 <= i <= |s| - |t| && StartsWith(s[i..], t);
    PrefixIsSubsequence(t, s[i..]);
    SubsequenceOfSuffix(t, s, i);
  }

  /** `parts.join(sep)`. */
  function Join(parts: seq<string>, sep: string): (r: string)
    ensures parts == [] ==> r == []
    ensures |parts| == 1 ==> r == parts[0]
  {
    if parts == [] then []
    else if |parts| == 1 then parts[0]
    else parts[0] + sep + Join(parts[1..], sep)
  }

  /** Every joined part appears verbatim in the joined string. */
  lemma {:induction false} JoinIncludesParts(parts: seq<string>, sep: string, k: nat)
    requires k < |parts|
    ensures Includes(Join(parts, sep), parts[k])
    decreases |parts|
  {
    var j := Join(parts, sep);
    if |parts| == 1 {
      assert StartsWith(j[0..], parts[0]);
    } else if k == 0 {
      assert j[0..][..|parts[0]|] == parts[0];
      assert StartsWith(j[0..], parts[0]);
    } else {
      JoinIncludesParts(parts[1..], sep, k - 1);
      var rest := Join(parts[1..], sep);
      var i :| 0 <= i <= |rest| - |parts[k]| && StartsWith(rest[i..], parts[k]);
      var off := |parts[0]| + |sep|;
      assert j == parts[0] + sep + rest;
      assert j[off + i..] == rest[i..];
      assert StartsWith(j[off + i..], parts[k]);
    }
  }

  /** One decimal digit. */
  function DigitChar(d: nat): (c: char)
    requires d < 10
    ensures '0' <= c <= '9'
  {
    ('0' as int + d) as char
  }

  /** The decimal rendering of a natural number in a template string. */
  function NatToString(n: nat): (r: string)
    ensures r != []
    ensures forall i | 0 <= i < |r| :: '0' <= r[i] <= '9'
    decreases n
  {
    if n < 10 then [DigitChar(n)] else NatToString(n / 10) + [DigitChar(n % 10)]
  }

  /** The decimal rendering of any integer, with a leading '-' when negative. */
  function IntToString(n: int): (r: string)
    ensures r != []
    ensures n < 0 <==> r[0] == '-'
  {
    if n < 0 then "-" + NatToString(-n) else NatToString(n)
  }

  /** The value of one digit in `radix` (2..36), or None; letters are accepted in either case. */
  function DigitValue(c: char, radix: nat): (d: Option<nat>)
    ensures d.Some? ==> d.value < radix
  {
    var v :=
      if '0' <= c <= '9' then c as int - '0' as int
      else if 'a' <= c <= 'z' then c as int - 'a' as int + 10
      else if 'A' <= c <= 'Z' then c as int - 'A' as int + 10
      else 36;
    if v < radix then Some(v) else None
  }

  /** Length of the longest prefix of `s` made of digits of `radix`. */
  function DigitRun(s: string, radix: nat): (n: nat)
    ensures n <= |s|
    ensures forall i | 0 <= i < n :: DigitValue(s[i], radix).Some?
    ensures n < |s| ==> DigitValue(s[n], radix).None?
  {
    if s == [] || DigitValue(s[0], radix).None? then 0 else 1 + DigitRun(s[1..], radix)
  }

  lemma NatProduct(a: nat, b: nat)
    ensures a * b >= 0
  {
  }

  /** The value of a string of digits of `radix`, most significant first (only called on digits). */
  function DigitsValue(s: string, radix: nat): nat {
    if s == [] then 0
    else
      var high := DigitsValue(s[..|s| - 1], radix);
      NatProduct(high, radix);
      high * radix + DigitValue(s[|s| - 1], radix).GetOr(0)
  }

  /** Digits and value of `parseInt` once whitespace and sign are gone: `0x` selects base 16. */
  function ParseUnsigned(s: string): Option<nat> {
    if |s| >= 2 && s[0] == '0' && (s[1] == 'x' || s[1] == 'X') then ParseDigits(s[2..], 16)
    else ParseDigits(s, 10)
  }

  /** The value of the longest run of digits at the start of `s`, or None when there is none. */
  function ParseDigits(s: string, radix: nat): Option<nat> {
    var n := DigitRun(s, radix);
    if n == 0 then None else Some(DigitsValue(s[..n], radix))
  }

  /** The part of `t` after an optional leading sign. */
  function StripSign(t: string): (u: string)
    ensures |u| <= |t|
  {
    if t != [] && (t[0] == '-' || t[0] == '+') then t[1..] else t
  }

  /**
   * `parseInt(s)` with no radix: skip leading whitespace, an optional sign, an
   * optional `0x`, then the longest run of digits; None stands for NaN.
   */
  function ParseInt(s: string): Option<int> {
    ParseSigned(s[LeadingWhitespace(s)..])
  }

  /** `parseInt` once the leading whitespace is gone. */
  function ParseSigned(t: string): Option<int> {
    var u := ParseUnsigned(StripSign(t));
    if u.None? then None
    else if t[0] == '-' then Some(-(u.value as int))
    else Some(u.value)
  }

  lemma {:induction false} DecimalDigitsValue(n: nat)
    ensures DigitRun(NatToString(n), 10) == |NatToString(n)|
    ensures DigitsValue(NatToString(n), 10) == n
    decreases n
  {
    var s := NatToString(n);
    if n >= 10 {
      DecimalDigitsValue(n / 10);
      assert s[..|s| - 1] == NatToString(n / 10);
    }
    DigitRunAll(s, 10);
  }

  lemma {:induction false} DigitRunAll(s: string, radix: nat)
    requires forall i | 0 <= i < |s| :: DigitValue(s[i], radix).Some?
    ensures DigitRun(s, radix) == |s|
    decreases |s|
  {
    if s != [] {
      DigitRunAll(s[1..], radix);
    }
  }

  /** A string of decimal digits parses to its value. */
  lemma DecimalParse(d: string)
    requires d != []
    requires forall i | 0 <= i < |d| :: '0' <= d[i] <= '9'
    ensures ParseUnsigned(d) == Some(DigitsValue(d, 10))
  {
    assert |d| < 2 || (d[1] != 'x' && d[1] != 'X') by {
      if |d| >= 2 { assert '0' <= d[1] <= '9'; }
    }
    assert ParseUnsigned(d) == ParseDigits(d, 10);
    assert forall i | 0 <= i < |d| :: DigitValue(d[i], 10).Some?;
    DigitRunAll(d, 10);
    assert d[..|d|] == d;
  }


  /** `parseInt` reads no whitespace in front of a sign or a digit. */
  lemma NoLeadingWhitespace(s: string)
    requires s != [] && (s[0] == '-' || '0' <= s[0] <= '9')
    ensures s[LeadingWhitespace(s)..] == s
  {
    assert !IsWhitespace(s[0]);
  }

  /** `parseInt` of a '-' followed by digits reads the digits' value, negated. */
  lemma NegativeOfUnsigned(d: string, v: nat)
    requires ParseUnsigned(d) == Some(v)
    ensures ParseInt("-" + d) == Some(-(v as int))
  {
    var s := "-" + d;
    assert s[1..] == d;
    NoLeadingWhitespace(s);
    SignedNegative(s, v);
  }

  lemma SignedNegative(t: string, v: nat)
    requires t != [] && t[0] == '-' && ParseUnsigned(t[1..]) == Some(v)
    ensures ParseSigned(t) == Some(-(v as int))
  {
  }

  /** `parseInt` of decimal digits. */
  lemma ParseNonNegative(d: string)
    requires d != [] && forall i | 0 <= i < |d| :: '0' <= d[i] <= '9'
    ensures ParseInt(d) == Some(DigitsValue(d, 10) as int)
  {
    DecimalParse(d);
    NoLeadingWhitespace(d);
    UnsignedKeepsDigits(d);
  }

  lemma UnsignedKeepsDigits(t: string)
    requires t != [] && '0' <= t[0] <= '9'
    ensures StripSign(t) == t
  {
  }

  /** Rendering an integer in decimal and reading it back with `parseInt` gives the integer. */
  lemma IntToStringRoundTrip(n: int)
    ensures ParseInt(IntToString(n)) == Some(n)
  {
    var m: nat := if n < 0 then -n else n;
    DecimalDigitsValue(m);
    if n < 0 {
      DecimalParse(NatToString(m));
      NegativeOfUnsigned(NatToString(m), m);
    } else {
      ParseNonNegative(NatToString(m));
    }
  }

  /** The character of one base-36 digit, as `toString(36)` writes it. */
  function Base36Digit(d: nat): (c: char)
    requires d < 36
    ensures DigitValue(c, 36) == Some(d)
  {
    if d < 10 then ('0' as int + d) as char else ('a' as int + d - 10) as char
  }

  /** `n.toString(36)` for a non-negative integer. */
  function ToBase36(n: nat): (r: string)
    ensures r != []
    ensures forall i | 0 <= i < |r| :: DigitValue(r[i], 36).Some?
    decreases n
  {
    if n < 36 then [Base36Digit(n)] else ToBase36(n / 36) + [Base36Digit(n % 36)]
  }

  /** Reading a base-36 rendering back digit by digit gives the number. */
  lemma {:induction false} Base36RoundTrip(n: nat)
    ensures DigitsValue(ToBase36(n), 36) == n
    decreases n
  {
    var s := ToBase36(n);
    if n >= 36 {
      Base36RoundTrip(n / 36);
      assert s[..|s| - 1] == ToBase36(n / 36);
      assert s[|s| - 1] == Base36Digit(n % 36);
    } else {
      assert s[..0] == [];
    }
  }
}
