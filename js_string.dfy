/** The JavaScript string primitives the gateway, the web client and the session-prompt script rely
    on: whitespace and trimming, prefix tests, UTF-16 length, String(n) and Number.parseInt(s, 10).
    A string is a sequence of Unicode scalar values. */
module JsString {
  import opened Wrappers

  /** The WhiteSpace and LineTerminator code points of ECMAScript: what String.prototype.trim
      strips and what the regular-expression class \s matches. */
  predicate IsWhitespace(c: char) {
    var n := c as int;
    (0x09 <= n <= 0x0D) || n == 0x20 || n == 0xA0 || n == 0x1680 || (0x2000 <= n <= 0x200A)
    || n == 0x2028 || n == 0x2029 || n == 0x202F || n == 0x205F || n == 0x3000 || n == 0xFEFF
  }

  /** The code points at which `^` and `$` match in a multiline regular expression and that `.`
      refuses. */
  predicate IsLineTerminator(c: char) {
    c == '\n' || c == '\r' || c as int == 0x2028 || c as int == 0x2029
  }

  predicate IsBlank(s: string) {
    forall i :: 0 <= i < |s| ==> IsWhitespace(s[i])
  }

  /** `s.startsWith(p)`. */
  predicate StartsWith(s: string, p: string) {
    |p| <= |s| && s[..|p|] == p
  }

  /** The first position in [i, hi) whose character is not whitespace, or `hi`. */
  function SkipWs(s: string, i: nat, hi: nat): (a: nat)
    requires i <= hi <= |s|
    ensures i <= a <= hi && (a == hi || !IsWhitespace(s[a]))
    ensures forall k :: i <= k < a ==> IsWhitespace(s[k])
    decreases hi - i
  {
    if i < hi && IsWhitespace(s[i]) then SkipWs(s, i + 1, hi) else i
  }

  /** The position just after the last character in [lo, hi) that is not whitespace, or `lo`. */
  function BackWs(s: string, lo: nat, hi: nat): (b: nat)
    requires lo <= hi <= |s|
    ensures lo <= b <= hi && (b == lo || !IsWhitespace(s[b - 1]))
    ensures forall k :: b <= k < hi ==> IsWhitespace(s[k])
    decreases hi - lo
  {
    if lo < hi && IsWhitespace(s[hi - 1]) then BackWs(s, lo, hi - 1) else hi
  }

  /** Leading whitespace removed (the first step of parseInt). */
  function TrimStart(s: string): (r: string)
    ensures r == [] || !IsWhitespace(r[0])
  {
    s[SkipWs(s, 0, |s|)..]
  }

  /** `s.trim()`: `s` without its leading and trailing whitespace. */
  function Trim(s: string): (r: string)
    ensures |r| <= |s|
    ensures r == [] || (!IsWhitespace(r[0]) && !IsWhitespace(r[|r| - 1]))
    ensures r == [] <==> IsBlank(s)
  {
    var a := SkipWs(s, 0, |s|);
    var b := BackWs(s, a, |s|);
    assert a < |s| ==> a < b;
    s[a..b]
  }

  /** What trim removes is whitespace on both sides of a contiguous slice of `s`. */
  lemma TrimIsSlice(s: string)
    ensures var i := |s| - |TrimStart(s)|;
      i + |Trim(s)| <= |s| && Trim(s) == s[i..i + |Trim(s)|] && IsBlank(s[..i]) && IsBlank(s[i + |Trim(s)|..])
  {
    var a := SkipWs(s, 0, |s|);
    var b := BackWs(s, a, |s|);
    assert Trim(s) == s[a..b];
    assert |s| - |TrimStart(s)| == a;
    assert forall k :: 0 <= k < a ==> s[..a][k] == s[k];
    assert forall k :: 0 <= k < |s| - b ==> s[b..][k] == s[b + k];
  }

  /** The trimmed text is a stretch of the original, starting at the returned index. */
  lemma TrimIsInfix(s: string) returns (i: nat)
    ensures i + |Trim(s)| <= |s| && Trim(s) == s[i..i + |Trim(s)|]
  {
    i := SkipWs(s, 0, |s|);
    assert Trim(s) == s[i..BackWs(s, i, |s|)];
  }

  /** Skipping whitespace in a slice is skipping it in the whole, shifted. */
  lemma {:induction false} SkipWsOfSlice(s: string, lo: nat, i: nat, hi: nat)
    requires lo <= i <= hi <= |s|
    ensures SkipWs(s[lo..hi], i - lo, hi - lo) + lo == SkipWs(s, i, hi)
    decreases hi - i
  {
    if i < hi {
      assert s[lo..hi][i - lo] == s[i];
      SkipWsOfSlice(s, lo, i + 1, hi);
    }
  }

  /** Backing over whitespace in a slice is backing over it in the whole, shifted. */
  lemma {:induction false} BackWsOfSlice(s: string, lo: nat, a: nat, h: nat, hi: nat)
    requires lo <= a <= h <= hi <= |s|
    ensures BackWs(s[lo..hi], a - lo, h - lo) + lo == BackWs(s, a, h)
    decreases h - a
  {
    if a < h {
      assert s[lo..hi][h - 1 - lo] == s[h - 1];
      BackWsOfSlice(s, lo, a, h - 1, hi);
    }
  }

  /** Trimming a slice keeps the stretch between its first and last non-whitespace characters. */
  lemma TrimOfSlice(s: string, lo: nat, hi: nat)
    requires lo <= hi <= |s|
    ensures var a := SkipWs(s, lo, hi);
      Trim(s[lo..hi]) == s[a..BackWs(s, a, hi)]
  {
    var t := s[lo..hi];
    var a := SkipWs(s, lo, hi);
    var b := BackWs(s, a, hi);
    SkipWsOfSlice(s, lo, lo, hi);
    var a' := SkipWs(t, 0, |t|);
    assert a' + lo == a;
    BackWsOfSlice(s, lo, a, hi, hi);
    var b' := BackWs(t, a', |t|);
    assert b' + lo == b;
    assert Trim(t) == t[a'..b'];
    SliceOfSlice(s, lo, hi, a', b', a, b);
  }

  /** A slice of a slice is a slice of the whole. */
  lemma SliceOfSlice(s: string, lo: nat, hi: nat, x: nat, y: nat, a: nat, b: nat)
    requires lo <= hi <= |s| && x <= y <= hi - lo && a == lo + x && b == lo + y
    ensures s[lo..hi][x..y] == s[a..b]
  {
    var l, r := s[lo..hi][x..y], s[a..b];
    forall k | 0 <= k < |l|
      ensures l[k] == r[k]
    {
    }
  }

  /** A string that neither starts nor ends with whitespace is its own trim. */
  lemma TrimOfUnpadded(s: string)
    requires s == [] || (!IsWhitespace(s[0]) && !IsWhitespace(s[|s| - 1]))
    ensures Trim(s) == s
  {
  }

  /** The number of UTF-16 code units of `s`: what `.length` counts in JavaScript and what the
      length bounds of the request schemas compare against. */
  function Utf16Length(s: string): (n: nat)
    ensures |s| <= n <= 2 * |s|
    ensures n == 0 <==> s == []
  {
    if s == [] then 0 else Utf16Length(s[..|s| - 1]) + (if s[|s| - 1] as int > 0xFFFF then 2 else 1)
  }

  lemma {:induction false} Utf16LengthOfBmp(s: string)
    requires forall i :: 0 <= i < |s| ==> s[i] as int <= 0xFFFF
    ensures Utf16Length(s) == |s|
  {
    if s != [] {
      Utf16LengthOfBmp(s[..|s| - 1]);
    }
  }

  predicate IsDigit(c: char) {
    '0' <= c <= '9'
  }

  function DigitValue(c: char): (d: nat)
    requires IsDigit(c)
    ensures d <= 9
  {
    c as int - '0' as int
  }

  function DigitChar(d: nat): (c: char)
    requires d <= 9
    ensures IsDigit(c) && DigitValue(c) == d
  {
    ('0' as int + d) as char
  }

  /** The length of the longest prefix of `s` made of ASCII decimal digits. */
  function DigitPrefixLength(s: string): (k: nat)
    ensures k <= |s|
    ensures forall i :: 0 <= i < k ==> IsDigit(s[i])
    ensures k < |s| ==> !IsDigit(s[k])
  {
    if s != [] && IsDigit(s[0]) then 1 + DigitPrefixLength(s[1..]) else 0
  }

  /** The value of a string of decimal digits, most significant first. */
  function DigitsValue(ds: string): nat
    requires forall i :: 0 <= i < |ds| ==> IsDigit(ds[i])
  {
    if ds == [] then 0 else 10 * DigitsValue(ds[..|ds| - 1]) + DigitValue(ds[|ds| - 1])
  }

  /** `String(n)` for a non-negative integer below 10^21, where JavaScript uses plain decimal. */
  function DecimalString(n: nat): (s: string)
    ensures s != []
    ensures forall i :: 0 <= i < |s| ==> IsDigit(s[i])
    decreases n
  {
    if n < 10 then [DigitChar(n)] else DecimalString(n / 10) + [DigitChar(n % 10)]
  }

  lemma {:induction false} DecimalStringValue(n: nat)
    ensures DigitsValue(DecimalString(n)) == n
    decreases n
  {
    var s := DecimalString(n);
    if n >= 10 {
      DecimalStringValue(n / 10);
      assert s[..|s| - 1] == DecimalString(n / 10);
    }
  }

  /** `Number.parseInt(s, 10)`: leading whitespace is skipped, one optional sign is read, then the
      longest run of decimal digits; no digit gives NaN (None). `-0` is the integer 0. */
  function ParseInt(s: string): (r: Option<int>)
    ensures r.None? <==> DigitPrefixLength(SignStripped(TrimStart(s))) == 0
  {
    var t := TrimStart(s);
    var body := SignStripped(t);
    var k := DigitPrefixLength(body);
    if k == 0 then None
    else
      var magnitude: int := DigitsValue(body[..k]);
      Some(if t[0] == '-' then -magnitude else magnitude)
  }

  /** `t` without its leading '+' or '-', if it has one. */
  function SignStripped(t: string): (b: string)
    ensures b == t || (t != [] && (t[0] == '+' || t[0] == '-') && b == t[1..])
  {
    if t != [] && (t[0] == '+' || t[0] == '-') then t[1..] else t
  }

  /** `String(n)` for an integer of magnitude below 10^21. */
  function IntString(n: int): (s: string)
    ensures n >= 0 ==> s == DecimalString(n)
    ensures n < 0 ==> s == "-" + DecimalString(-n)
  {
    if n >= 0 then DecimalString(n) else "-" + DecimalString(-n)
  }

  /** parseInt reads back every integer that String writes. */
  lemma ParseIntOfIntString(n: int)
    ensures ParseInt(IntString(n)) == Some(n)
  {
    if n >= 0 {
      ParseIntOfDecimalString(n);
    } else {
      ParseIntOfNegative(n);
    }
  }

  lemma ParseIntOfNegative(n: int)
    requires n < 0
    ensures ParseInt("-" + DecimalString(-n)) == Some(n)
  {
    var d := DecimalString(-n);
    DecimalStringValue(-n);
    ParseIntOfNegatedDigits(d, -n);
  }

  lemma ParseIntOfDecimalString(n: nat)
    ensures ParseInt(DecimalString(n)) == Some(n)
  {
    ParseIntOfDigits(DecimalString(n));
    DecimalStringValue(n);
  }

  /** parseInt of a string of digits is their value. */
  lemma ParseIntOfDigits(d: string)
    requires d != [] && forall i :: 0 <= i < |d| ==> IsDigit(d[i])
    ensures ParseInt(d) == Some(DigitsValue(d))
  {
    var c := d[0];
    assert IsDigit(c);
    TrimStartOfUnpadded(d);
    assert SignStripped(d) == d;
    DigitPrefixOfDigits(d);
    assert d[..|d|] == d;
  }

  /** parseInt of '-' and a string of digits is minus their value. */
  lemma ParseIntOfNegatedDigits(d: string, v: nat)
    requires d != [] && forall i :: 0 <= i < |d| ==> IsDigit(d[i])
    requires DigitsValue(d) == v
    ensures ParseInt("-" + d) == Some(-(v as int))
  {
    var s := "-" + d;
    assert s[0] == '-';
    TrimStartOfUnpadded(s);
    assert s[1..] == d;
    ParseIntOfMinus(s, d, v);
  }

  /** Text that starts with '-' and goes on with digits: parseInt reads minus their value. */
  lemma ParseIntOfMinus(s: string, d: string, v: nat)
    requires s != [] && s[0] == '-' && TrimStart(s) == s && s[1..] == d
    requires d != [] && forall i :: 0 <= i < |d| ==> IsDigit(d[i])
    requires DigitsValue(d) == v
    ensures ParseInt(s) == Some(-(v as int))
  {
    assert SignStripped(s) == d;
    DigitPrefixOfDigits(d);
    assert d[..|d|] == d;
  }

  /** Text that does not start with whitespace is its own TrimStart. */
  lemma TrimStartOfUnpadded(s: string)
    requires s == [] || !IsWhitespace(s[0])
    ensures TrimStart(s) == s
  {
  }

  lemma {:induction false} DigitPrefixOfDigits(s: string)
    requires forall i :: 0 <= i < |s| ==> IsDigit(s[i])
    ensures DigitPrefixLength(s) == |s|
  {
    if s != [] {
      DigitPrefixOfDigits(s[1..]);
    }
  }

  /** The digits of a prefix survive arbitrary trailing text: parseInt("15ms") is 15. */
  lemma ParseIntIgnoresSuffix(n: nat, suffix: string)
    requires suffix == [] || !IsDigit(suffix[0])
    ensures ParseInt(DecimalString(n) + suffix) == Some(n)
  {
    var d := DecimalString(n);
    var s := d + suffix;
    assert TrimStart(s) == s;
    assert SignStripped(s) == s;
    DigitPrefixAppend(d, suffix);
    assert s[..|d|] == d;
    DecimalStringValue(n);
  }

  lemma {:induction false} DigitPrefixAppend(d: string, suffix: string)
    requires forall i :: 0 <= i < |d| ==> IsDigit(d[i])
    requires suffix == [] || !IsDigit(suffix[0])
    ensures DigitPrefixLength(d + suffix) == |d|
  {
    if d != [] {
      assert (d + suffix)[1..] == d[1..] + suffix;
      DigitPrefixAppend(d[1..], suffix);
    } else {
      assert d + suffix == suffix;
    }
  }
}
