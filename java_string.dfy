/** The java.lang.String operations the document service relies on: trim(), isEmpty(),
    isBlank() and the length of getBytes(UTF_8). A string is a sequence of Unicode scalar
    values. */
module JavaString {

  /** String.trim() removes every leading and trailing code point at or below U+0020. */
  predicate IsTrimmed(c: char) {
    c as int <= 0x20
  }

  /** Character.isWhitespace: the space, line and paragraph separators other than the no-break
      spaces U+00A0, U+2007 and U+202F, together with U+0009..U+000D and U+001C..U+001F. This is
      the test behind String.isBlank(). */
  predicate IsWhitespace(c: char) {
    var n := c as int;
    (0x09 <= n <= 0x0D) || (0x1C <= n <= 0x20) || n == 0x1680 || (0x2000 <= n <= 0x2006)
    || (0x2008 <= n <= 0x200A) || n == 0x2028 || n == 0x2029 || n == 0x205F || n == 0x3000
  }

  /** String.isBlank(). */
  predicate IsBlank(s: string) {
    forall i :: 0 <= i < |s| ==> IsWhitespace(s[i])
  }

  function TrimStart(s: string): (r: string)
    ensures |r| <= |s| && r == s[|s| - |r|..]
    ensures forall i :: 0 <= i < |s| - |r| ==> IsTrimmed(s[i])
    ensures r == [] || !IsTrimmed(r[0])
  {
    if s != [] && IsTrimmed(s[0]) then TrimStart(s[1..]) else s
  }

  function TrimEnd(s: string): (r: string)
    ensures |r| <= |s| && r == s[..|r|]
    ensures forall i :: |r| <= i < |s| ==> IsTrimmed(s[i])
    ensures r == [] || !IsTrimmed(r[|r| - 1])
  {
    if s != [] && IsTrimmed(s[|s| - 1]) then TrimEnd(s[..|s| - 1]) else s
  }

  /** String.trim(). */
  function Trim(s: string): (r: string)
    ensures |r| <= |s|
    ensures r == [] || (!IsTrimmed(r[0]) && !IsTrimmed(r[|r| - 1]))
    ensures r == [] <==> forall i :: 0 <= i < |s| ==> IsTrimmed(s[i])
  {
    var t := TrimStart(s);
    assert forall i :: |s| - |t| <= i < |s| ==> s[i] == t[i - (|s| - |t|)];
    TrimEnd(t)
  }

  /** Trimming twice is trimming once. */
  lemma TrimIdempotent(s: string)
    ensures Trim(Trim(s)) == Trim(s)
  {
    var r := Trim(s);
    assert r == [] || !IsTrimmed(r[0]);
    assert TrimStart(r) == r;
  }
  /** The number of UTF-8 bytes of one code point: one below U+0080, two below U+0800, three
      below U+10000 and four above. */
  function Utf8Width(c: char): (w: nat)
    ensures 1 <= w <= 4
    ensures w == 1 <==> (c as int) < 0x80
  {
    if (c as int) < 0x80 then 1 else if (c as int) < 0x800 then 2 else if (c as int) < 0x10000 then 3 else 4
  }

  /** The length of s.getBytes(StandardCharsets.UTF_8). */
  function Utf8Length(s: string): (n: nat)
    ensures |s| <= n <= 4 * |s|
  {
    if s == [] then 0 else Utf8Width(s[0]) + Utf8Length(s[1..])
  }

  lemma {:induction false} Utf8LengthAppend(a: string, b: string)
    ensures Utf8Length(a + b) == Utf8Length(a) + Utf8Length(b)
    decreases |a|
  {
    if a == [] {
      assert a + b == b;
    } else {
      assert (a + b)[1..] == a[1..] + b;
      Utf8LengthAppend(a[1..], b);
    }
  }

  lemma PrefixShortensUtf8(s: string, n: nat)
    requires n <= |s|
    ensures Utf8Length(s[..n]) <= Utf8Length(s)
  {
    assert s == s[..n] + s[n..];
    Utf8LengthAppend(s[..n], s[n..]);
  }

  lemma SuffixShortensUtf8(s: string, n: nat)
    requires n <= |s|
    ensures Utf8Length(s[n..]) <= Utf8Length(s)
  {
    assert s == s[..n] + s[n..];
    Utf8LengthAppend(s[..n], s[n..]);
  }

  /** Trimming never lengthens the UTF-8 encoding. */
  lemma TrimShortensUtf8(s: string)
    ensures Utf8Length(Trim(s)) <= Utf8Length(s)
  {
    var t := TrimStart(s);
    SuffixShortensUtf8(s, |s| - |t|);
    PrefixShortensUtf8(t, |TrimEnd(t)|);
  }
}
