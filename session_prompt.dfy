/** The next-session prompt generator (scripts/generate-next-session-prompt.mjs): it takes the list
    sections of PROJECT_STATE.md and the latest dated entry of DECISIONS.md and fills them into a
    fixed prompt. Each regular expression of the script is written out as the scan a backtracking
    matcher performs on it. */
module SessionPrompt {
  import opened Wrappers
  import JsString

  // ------------------------------------------------------------------------- scanning helpers

  predicate Whitespace(s: string, i: nat, j: nat)
    requires i <= j <= |s|
  {
    forall k :: i <= k < j ==> JsString.IsWhitespace(s[k])
  }

  /** The length of the run of `\s` characters starting at `i`. */
  function WsRun(s: string, i: nat): (n: nat)
    requires i <= |s|
    ensures i + n <= |s| && Whitespace(s, i, i + n)
    ensures i + n == |s| || !JsString.IsWhitespace(s[i + n])
    decreases |s| - i
  {
    if i < |s| && JsString.IsWhitespace(s[i]) then 1 + WsRun(s, i + 1) else 0
  }

  /** The `n` characters from `i` are whitespace exactly when WsRun counts at least `n`. */
  lemma WhitespacePrefix(s: string, i: nat, n: nat)
    requires i <= |s|
    ensures n <= WsRun(s, i) <==> i + n <= |s| && Whitespace(s, i, i + n)
  {
    var w := WsRun(s, i);
    if w < n && i + n <= |s| {
      assert !JsString.IsWhitespace(s[i + w]);
    }
  }

  /** A run of `n` whitespace characters that whitespace does not continue is what WsRun counts. */
  lemma {:induction false} WsRunIs(s: string, i: nat, n: nat)
    requires i + n <= |s| && Whitespace(s, i, i + n)
    requires i + n == |s| || !JsString.IsWhitespace(s[i + n])
    ensures WsRun(s, i) == n
    decreases n
  {
    if n > 0 {
      WsRunIs(s, i + 1, n - 1);
    }
  }

  // ------------------------------------------------------------- escaping the heading (line 17)

  /** The characters `heading.replace(/[.*+?^${}()|[\]\\]/g, "\\$&")` puts a backslash before. */
  predicate IsRegexSyntax(c: char) {
    c == '.' || c == '*' || c == '+' || c == '?' || c == '^' || c == '$' || c == '{' || c == '}'
    || c == '(' || c == ')' || c == '|' || c == '[' || c == ']' || c == '\\'
  }

  function EscapeRegex(heading: string): string {
    if heading == [] then []
    else (if IsRegexSyntax(heading[0]) then ['\\', heading[0]] else [heading[0]]) + EscapeRegex(heading[1..])
  }

  /** The text a pattern matches when it consists of ordinary characters and backslash-escaped
      syntax characters only; None when it holds an unescaped syntax character or another escape. */
  function LiteralText(pattern: string): Option<string> {
    if pattern == [] then Some([])
    else if pattern[0] == '\\' then
      if |pattern| >= 2 && IsRegexSyntax(pattern[1]) then
        match LiteralText(pattern[2..])
        case Some(t) => Some([pattern[1]] + t)
        case None => None
      else None
    else if IsRegexSyntax(pattern[0]) then None
    else
      match LiteralText(pattern[1..])
      case Some(t) => Some([pattern[0]] + t)
      case None => None
  }

  /** The escaped heading is a pattern that matches the heading's own text and nothing else. */
  lemma {:induction false} EscapedHeadingIsLiteral(heading: string)
    ensures LiteralText(EscapeRegex(heading)) == Some(heading)
  {
    if heading != [] {
      var rest := EscapeRegex(heading[1..]);
      EscapedHeadingIsLiteral(heading[1..]);
      var e := EscapeRegex(heading);
      if IsRegexSyntax(heading[0]) {
        assert e == ['\\', heading[0]] + rest && e[2..] == rest;
      } else {
        assert e == [heading[0]] + rest && e[1..] == rest;
      }
      assert heading == [heading[0]] + heading[1..];
    }
  }

  // ------------------------------------------------------- the heading line `^##\s+<h>\s*$` (m)

  /** `^` of a multiline pattern holds at `p`. */
  predicate LineStart(s: string, p: nat)
    requires p <= |s|
  {
    p == 0 || JsString.IsLineTerminator(s[p - 1])
  }

  /** `$` of a multiline pattern holds `m` characters after `q`. */
  predicate LineEndAfter(s: string, q: nat, m: nat)
    requires q + m <= |s|
  {
    q + m == |s| || JsString.IsLineTerminator(s[q + m])
  }

  /** The heading pattern matches `s` from `p`, its `\s+` taking `k` characters and its `\s*` `m`
      (`n <= WsRun(s, i)` says that the `n` characters from `i` are whitespace: WhitespacePrefix). */
  predicate HeadingMatch(s: string, heading: string, p: nat, k: nat, m: nat) {
    var q := p + 2 + k + |heading|;
    q + m <= |s| && 1 <= k && k <= WsRun(s, p + 2)
    && LineStart(s, p) && s[p] == '#' && s[p + 1] == '#'
    && s[p + 2 + k..q] == heading && m <= WsRun(s, q) && LineEndAfter(s, q, m)
  }

  /** `\s*$` after `q`: the longest `m` up to `limit` after which a line ends. */
  function Trail(s: string, q: nat, limit: nat): (r: Option<nat>)
    requires q + limit <= |s|
    ensures r.Some? ==> r.value <= limit && LineEndAfter(s, q, r.value)
    ensures forall m :: 0 <= m <= limit && (r.None? || r.value < m) ==> !LineEndAfter(s, q, m)
    decreases limit
  {
    if LineEndAfter(s, q, limit) then Some(limit)
    else if limit == 0 then None
    else Trail(s, q, limit - 1)
  }

  /** With `\s+` taking `k` characters: the heading, then the longest `\s*` a line end follows. */
  function TailAfter(s: string, heading: string, p: nat, k: nat): (r: Option<nat>)
    requires 1 <= k && p + 2 <= |s| && k <= WsRun(s, p + 2) && LineStart(s, p) && s[p] == '#' && s[p + 1] == '#'
    ensures r.Some? ==> HeadingMatch(s, heading, p, k, r.value)
    ensures r.None? ==> forall m :: !HeadingMatch(s, heading, p, k, m)
  {
    var q := p + 2 + k + |heading|;
    if q <= |s| && s[p + 2 + k..q] == heading then Trail(s, q, WsRun(s, q)) else None
  }

  /** The part after `##` at `p`, with `\s+` taking at most `k` characters: the longest run for
      which the heading and a line end follow, and for it the longest tail. */
  function HeadingBody(s: string, heading: string, p: nat, k: nat): (r: Option<(nat, nat)>)
    requires 1 <= k && p + 2 <= |s| && k <= WsRun(s, p + 2) && LineStart(s, p) && s[p] == '#' && s[p + 1] == '#'
    ensures r.Some? ==> r.value.0 <= k && HeadingMatch(s, heading, p, r.value.0, r.value.1)
    ensures forall j, m :: 1 <= j <= k && (r.None? || r.value.0 < j) ==> !HeadingMatch(s, heading, p, j, m)
    decreases k
  {
    match TailAfter(s, heading, p, k)
    case Some(m) => Some((k, m))
    case None => if k == 1 then None else HeadingBody(s, heading, p, k - 1)
  }

  /** The match of the heading pattern at `p`, as the lengths of its `\s+` and its `\s*`. */
  function HeadingAt(s: string, heading: string, p: nat): (r: Option<(nat, nat)>)
    requires p <= |s|
    ensures r.Some? ==> HeadingMatch(s, heading, p, r.value.0, r.value.1)
    ensures r.None? ==> forall k, m :: !HeadingMatch(s, heading, p, k, m)
  {
    if p + 2 <= |s| && LineStart(s, p) && s[p] == '#' && s[p + 1] == '#' && WsRun(s, p + 2) >= 1 then
      HeadingBody(s, heading, p, WsRun(s, p + 2))
    else None
  }

  /** `exec` from `p`: the leftmost position where the heading pattern matches, and the length of
      the match there. */
  function FindHeading(s: string, heading: string, p: nat): (r: Option<(nat, nat)>)
    requires p <= |s|
    ensures r.Some? ==> p <= r.value.0 && r.value.0 + r.value.1 <= |s|
    decreases |s| - p
  {
    var here := HeadingAt(s, heading, p);
    if here.Some? then Some((p, 2 + here.value.0 + |heading| + here.value.1))
    else if p == |s| then None
    else FindHeading(s, heading, p + 1)
  }

  /** No match of the heading pattern starts at a position in [lo, hi). */
  ghost predicate NoHeadingIn(s: string, heading: string, lo: nat, hi: nat) {
    forall j: nat, k: nat, m: nat :: lo <= j < hi ==> !HeadingMatch(s, heading, j, k, m)
  }

  /** What FindHeading finds is a match, and no match starts before it. */
  lemma {:induction false} FindHeadingIsLeftmost(s: string, heading: string, p: nat)
    requires p <= |s|
    ensures var r := FindHeading(s, heading, p);
      r.Some? ==> var h := HeadingAt(s, heading, r.value.0); h.Some? && r.value.1 == 2 + h.value.0 + |heading| + h.value.1
    ensures var r := FindHeading(s, heading, p);
      NoHeadingIn(s, heading, p, if r.None? then |s| + 1 else r.value.0)
    decreases |s| - p
  {
    var here := HeadingAt(s, heading, p);
    if here.Some? {
      assert FindHeading(s, heading, p) == Some((p, 2 + here.value.0 + |heading| + here.value.1));
    } else if p < |s| {
      FindHeadingIsLeftmost(s, heading, p + 1);
      var r := FindHeading(s, heading, p + 1);
      assert FindHeading(s, heading, p) == r;
      NoHeadingExtends(s, heading, p, if r.None? then |s| + 1 else r.value.0);
    } else {
      assert FindHeading(s, heading, p) == None;
    }
  }

  /** A position where the pattern does not match extends a stretch without matches. */
  lemma NoHeadingExtends(s: string, heading: string, p: nat, hi: nat)
    requires p <= |s| && HeadingAt(s, heading, p).None? && NoHeadingIn(s, heading, p + 1, hi)
    ensures NoHeadingIn(s, heading, p, hi)
  {
    forall j: nat, k: nat, m: nat | p <= j < hi
      ensures !HeadingMatch(s, heading, j, k, m)
    {
      if j == p {
        assert !HeadingMatch(s, heading, p, k, m);
      }
    }
  }

  // ------------------------------------------------------------------ extractSection (16-29)

  /** `\r?\n##\s+` matches at `i`: the line break before the next level-two heading. */
  predicate Boundary(s: string, i: nat) {
    (i + 4 < |s| && s[i] == '\r' && s[i + 1] == '\n' && s[i + 2] == '#' && s[i + 3] == '#' && JsString.IsWhitespace(s[i + 4]))
    || (i + 3 < |s| && s[i] == '\n' && s[i + 1] == '#' && s[i + 2] == '#' && JsString.IsWhitespace(s[i + 3]))
  }

  /** No level-two heading line starts anywhere in `r`. */
  predicate NoBoundary(r: string) {
    forall i :: 0 <= i < |r| ==> !Boundary(r, i)
  }

  /** Where the section starting at `i` ends: the first boundary from `i` on, or the end of `s`
      (`search` on the rest of the text, -1 standing for the end). */
  function NextBoundary(s: string, i: nat): (e: nat)
    requires i <= |s|
    ensures i <= e <= |s|
    ensures e == |s| || Boundary(s, e)
    ensures forall j :: i <= j < e ==> !Boundary(s, j)
    decreases |s| - i
  {
    if i == |s| || Boundary(s, i) then i else NextBoundary(s, i + 1)
  }

  /** A slice of a stretch without boundaries has none either: boundaries look only forward. */
  lemma SliceWithoutBoundary(s: string, lo: nat, hi: nat, a: nat, b: nat)
    requires lo <= a <= b <= hi <= |s|
    requires forall j :: lo <= j < hi ==> !Boundary(s, j)
    ensures NoBoundary(s[a..b])
  {
    forall i | 0 <= i < b - a ensures !Boundary(s[a..b], i) {
      assert !Boundary(s, a + i);
    }
  }

  /** The trimmed text from `start` to the next level-two heading line. */
  function SectionFrom(markdown: string, start: nat): string
    requires start <= |markdown|
  {
    JsString.Trim(markdown[start..NextBoundary(markdown, start)])
  }

  /** The trimmed text is the stretch between the first and the last non-whitespace character. */
  lemma SectionFromIsSlice(markdown: string, start: nat)
    requires start <= |markdown|
    ensures var end := NextBoundary(markdown, start);
      var a := JsString.SkipWs(markdown, start, end);
      SectionFrom(markdown, start) == markdown[a..JsString.BackWs(markdown, a, end)]
  {
    var end := NextBoundary(markdown, start);
    JsString.TrimOfSlice(markdown, start, end);
  }

  /** That text holds no level-two heading line. */
  lemma SectionFromHasNoHeading(markdown: string, start: nat)
    requires start <= |markdown|
    ensures NoBoundary(SectionFrom(markdown, start))
  {
    var end := NextBoundary(markdown, start);
    var a := JsString.SkipWs(markdown, start, end);
    var b := JsString.BackWs(markdown, a, end);
    SectionFromIsSlice(markdown, start);
    assert SectionFrom(markdown, start) == markdown[a..b];
    SliceWithoutBoundary(markdown, start, end, a, b);
  }

  /** extractSection: the trimmed text between the first `## <heading>` line and the next `##`
      heading line; "" when no line is that heading. The section has no surrounding whitespace,
      and it stops before the next level-two heading line, so `###` lines stay in it. */
  function ExtractSection(markdown: string, heading: string): (r: string)
    ensures r == [] || (!JsString.IsWhitespace(r[0]) && !JsString.IsWhitespace(r[|r| - 1]))
    ensures NoBoundary(r)
  {
    var found := FindHeading(markdown, heading, 0);
    if found.None? then ""
    else
      var start := found.value.0 + found.value.1;
      SectionFromHasNoHeading(markdown, start);
      SectionFrom(markdown, start)
  }

  /** Without a `## <heading>` line the section is "". */
  lemma NoHeadingNoSection(markdown: string, heading: string)
    requires forall p, k, m :: !HeadingMatch(markdown, heading, p, k, m)
    ensures ExtractSection(markdown, heading) == []
  {
    FindHeadingIsLeftmost(markdown, heading, 0);
  }

  // ----------------------------------------------------------------- cleanListBlock (31-38)

  /** The first '\n' at or after `i`, or the end of `s`. */
  function NextNewline(s: string, i: nat): (j: nat)
    requires i <= |s|
    ensures i <= j <= |s| && (j == |s| || s[j] == '\n')
    ensures forall k :: i <= k < j ==> s[k] != '\n'
    decreases |s| - i
  {
    if i == |s| || s[i] == '\n' then i else NextNewline(s, i + 1)
  }

  /** `s.split(/\r?\n/)`: the pieces between line breaks, a '\r' just before a '\n' belonging
      to the break. */
  function SplitLines(s: string): (r: seq<string>)
    ensures |r| >= 1
    ensures forall i :: 0 <= i < |r| ==> '\n' !in r[i]
    decreases |s|
  {
    var j := NextNewline(s, 0);
    if j == |s| then [s]
    else
      var piece := Chomp(s[..j]);
      assert forall k :: 0 <= k < |piece| ==> piece[k] == s[k];
      [piece] + SplitLines(s[j + 1..])
  }

  /** A line without the '\r' of a "\r\n" break. */
  function Chomp(line: string): (r: string)
    ensures |r| <= |line| && r == line[..|r|]
  {
    if line != [] && line[|line| - 1] == '\r' then line[..|line| - 1] else line
  }

  /** `lines.join("\n")`. */
  function JoinLines(lines: seq<string>): string {
    if lines == [] then []
    else if |lines| == 1 then lines[0]
    else lines[0] + "\n" + JoinLines(lines[1..])
  }

  /** A line that splitting gives back unchanged: no '\n' in it and no '\r' at its end. */
  predicate PlainLine(line: string) {
    '\n' !in line && (line == [] || line[|line| - 1] != '\r')
  }

  predicate AllPlain(lines: seq<string>) {
    forall i :: 0 <= i < |lines| ==> PlainLine(lines[i])
  }

  /** Splitting joined plain lines gives the lines back. */
  lemma {:induction false} SplitJoin(lines: seq<string>)
    requires |lines| >= 1
    requires AllPlain(lines)
    ensures SplitLines(JoinLines(lines)) == lines
  {
    var line := lines[0];
    SplitOfPlain(line);
    if |lines| > 1 {
      var rest := JoinLines(lines[1..]);
      assert JoinLines(lines) == line + "\n" + rest;
      SplitAppend(line, rest);
      SplitJoin(lines[1..]);
      assert lines == [line] + lines[1..];
    }
  }

  /** A plain line splits into itself. */
  lemma SplitOfPlain(line: string)
    requires PlainLine(line)
    ensures SplitLines(line) == [line]
  {
    assert NextNewline(line, 0) == |line| by {
      assert forall k :: 0 <= k < |line| ==> line[k] != '\n';
    }
  }

  /** The length of the run of ASCII digits (`\d`) starting at `i`. */
  function DigitRun(s: string, i: nat): (n: nat)
    requires i <= |s|
    ensures i + n <= |s| && forall k :: i <= k < i + n ==> JsString.IsDigit(s[k])
    ensures i + n == |s| || !JsString.IsDigit(s[i + n])
    decreases |s| - i
  {
    if i < |s| && JsString.IsDigit(s[i]) then 1 + DigitRun(s, i + 1) else 0
  }

  /** A trimmed line that cleanListBlock keeps: it starts with "-" or with one of "1." to "9.". */
  predicate Kept(line: string) {
    (|line| >= 1 && line[0] == '-') || (|line| >= 2 && '1' <= line[0] <= '9' && line[1] == '.')
  }

  /** What `.` followed by `\]` matches in a regex without the u flag: one UTF-16 code unit
      that is not a line terminator. A character above U+FFFF is two code units, so a box holding
      one does not match. */
  predicate BoxMark(c: char) {
    (c as int) < 0x10000 && !JsString.IsLineTerminator(c)
  }

  /** The first replacement of a line: `^- \[.\]\s*` becomes "- ", so a bullet's checkbox and the
      whitespace after it are dropped. */
  function DropBulletBox(line: string): (r: string)
    ensures r == line || (2 <= |r| <= |line| && r[..2] == "- " && r[2..] == line[|line| - (|r| - 2)..])
  {
    if |line| >= 5 && line[0] == '-' && line[1] == ' ' && line[2] == '[' && BoxMark(line[3]) && line[4] == ']'
    then "- " + line[5 + WsRun(line, 5)..]
    else line
  }

  /** The second replacement: `^\d+\.\s*\[.\]\s*` is removed, so a number, its checkbox and the
      whitespace around them are dropped. */
  function DropNumberedBox(line: string): (r: string)
    ensures |r| <= |line| && r == line[|line| - |r|..]
  {
    line[NumberedBoxEnd(line)..]
  }

  /** Where the match of `^\d+\.\s*\[.\]\s*` ends in `line`, or 0 when there is none. */
  function NumberedBoxEnd(line: string): (e: nat)
    ensures e <= |line|
  {
    var d := DigitRun(line, 0);
    if 1 <= d < |line| && line[d] == '.' then BoxEnd(line, d + 1 + WsRun(line, d + 1)) else 0
  }

  /** Where `\[.\]\s*` matched at `b` ends, or 0 when it does not match there. */
  function BoxEnd(line: string, b: nat): (e: nat)
    requires b <= |line|
    ensures e <= |line|
  {
    if b + 3 <= |line| && line[b] == '[' && BoxMark(line[b + 1]) && line[b + 2] == ']'
    then b + 3 + WsRun(line, b + 3)
    else 0
  }

  /** The two replacements, in the script's order. */
  function CleanLine(line: string): string {
    DropNumberedBox(DropBulletBox(line))
  }

  /** What a line of the block contributes: its cleaned form when, trimmed, it is kept. */
  function Item(line: string): Option<string> {
    var t := JsString.Trim(line);
    if Kept(t) then Some(CleanLine(t)) else None
  }

  /** The cleaned form of every kept line, in order. */
  function CleanedItems(lines: seq<string>): (r: seq<string>)
    ensures |r| <= |lines|
  {
    if lines == [] then []
    else (match Item(lines[0]) case Some(x) => [x] case None => []) + CleanedItems(lines[1..])
  }

  /** Every item is the cleaned form of a kept line of the block. */
  lemma {:induction false} ItemsComeFromKeptLines(lines: seq<string>)
    ensures forall x :: x in CleanedItems(lines) ==> exists l :: l in lines && Item(l) == Some(x)
  {
    if lines != [] {
      var rest := CleanedItems(lines[1..]);
      ItemsComeFromKeptLines(lines[1..]);
      forall x | x in CleanedItems(lines) ensures exists l :: l in lines && Item(l) == Some(x) {
        if x !in rest {
          assert Item(lines[0]) == Some(x);
        } else {
          var l :| l in lines[1..] && Item(l) == Some(x);
          assert l in lines;
        }
      }
    }
  }

  /** Every kept line of the block is among the items. */
  lemma {:induction false} KeptLinesAreItems(lines: seq<string>)
    ensures forall l :: l in lines && Item(l).Some? ==> Item(l).value in CleanedItems(lines)
  {
    if lines != [] {
      var rest := CleanedItems(lines[1..]);
      KeptLinesAreItems(lines[1..]);
      forall l | l in lines && Item(l).Some? ensures Item(l).value in CleanedItems(lines) {
        if l == lines[0] {
          assert CleanedItems(lines) == [Item(l).value] + rest;
        } else {
          assert l in lines[1..];
        }
      }
    }
  }

  /** cleanListBlock: the kept lines of the block, trimmed and cleaned, one per line. */
  function CleanListBlock(block: string): string {
    JoinLines(CleanedItems(SplitLines(block)))
  }

  /** A suffix of a plain line is plain. */
  lemma SuffixIsPlain(x: string, n: nat)
    requires PlainLine(x) && n <= |x|
    ensures PlainLine(x[n..])
  {
    assert forall k :: 0 <= k < |x| - n ==> x[n..][k] == x[n + k];
  }

  /** Cleaning a plain line leaves it plain. */
  lemma CleanedIsPlain(t: string)
    requires PlainLine(t)
    ensures PlainLine(CleanLine(t))
  {
    BulletDropIsPlain(t);
    SuffixIsPlain(DropBulletBox(t), NumberedBoxEnd(DropBulletBox(t)));
  }

  /** The first replacement keeps a line plain. */
  lemma BulletDropIsPlain(t: string)
    requires PlainLine(t)
    ensures PlainLine(DropBulletBox(t))
  {
    if |t| >= 5 && t[0] == '-' && t[1] == ' ' && t[2] == '[' && BoxMark(t[3]) && t[4] == ']' {
      var m := 5 + WsRun(t, 5);
      SuffixIsPlain(t, m);
      DashIsPlain(t[m..]);
    }
  }

  /** "- " before a plain line keeps it plain. */
  lemma DashIsPlain(x: string)
    requires PlainLine(x)
    ensures PlainLine("- " + x)
  {
    var y := "- " + x;
    assert forall k :: 0 <= k < |y| ==> y[k] == (if k < 2 then "- "[k] else x[k - 2]);
    assert y[|y| - 1] == if x == [] then ' ' else x[|x| - 1];
  }

  /** A slice of a string without '\n' that does not end in whitespace is a plain line. */
  lemma SliceIsPlain(s: string, i: nat, t: string)
    requires '\n' !in s && i + |t| <= |s| && t == s[i..i + |t|]
    requires t == [] || !JsString.IsWhitespace(t[|t| - 1])
    ensures PlainLine(t)
  {
    assert forall k :: 0 <= k < |t| ==> t[k] == s[i + k];
  }

  /** Trimming a line without '\n' gives a plain line. */
  lemma TrimmedIsPlain(line: string)
    requires '\n' !in line
    ensures PlainLine(JsString.Trim(line))
  {
    var i := JsString.TrimIsInfix(line);
    SliceIsPlain(line, i, JsString.Trim(line));
  }

  /** A kept line of the block cleans to a plain line. */
  lemma ItemIsPlain(line: string)
    requires '\n' !in line && Item(line).Some?
    ensures PlainLine(Item(line).value)
  {
    TrimmedIsPlain(line);
    CleanedIsPlain(JsString.Trim(line));
  }

  /** Every item of a block is a plain line. */
  lemma CleanItemsArePlain(block: string)
    ensures AllPlain(CleanedItems(SplitLines(block)))
  {
    var lines := SplitLines(block);
    var items := CleanedItems(lines);
    ItemsComeFromKeptLines(lines);
    forall i | 0 <= i < |items| ensures PlainLine(items[i]) {
      assert items[i] in items;
      var l :| l in lines && Item(l) == Some(items[i]);
      ItemIsPlain(l);
    }
  }

  /** When the cleaned block is not empty, its lines are exactly the items. */
  lemma CleanBlockLines(block: string)
    requires CleanListBlock(block) != []
    ensures SplitLines(CleanListBlock(block)) == CleanedItems(SplitLines(block))
  {
    var items := CleanedItems(SplitLines(block));
    assert JoinLines(items) != [];
    assert items != [];
    CleanItemsArePlain(block);
    SplitJoin(items);
  }

  lemma {:induction false} DigitRunIs(s: string, i: nat, n: nat)
    requires i + n <= |s| && forall k :: i <= k < i + n ==> JsString.IsDigit(s[k])
    requires i + n == |s| || !JsString.IsDigit(s[i + n])
    ensures DigitRun(s, i) == n
    decreases n
  {
    if n > 0 {
      DigitRunIs(s, i + 1, n - 1);
    }
  }

  /** "- [x] text" is cleaned to "- text", whatever the mark and the whitespace after the box. */
  lemma BulletBoxDropped(mark: char, gap: string, text: string)
    requires BoxMark(mark)
    requires forall k :: 0 <= k < |gap| ==> JsString.IsWhitespace(gap[k])
    requires text == [] || !JsString.IsWhitespace(text[0])
    ensures CleanLine("- [" + [mark] + "]" + gap + text) == "- " + text
  {
    var line := "- [" + [mark] + "]" + gap + text;
    var n := |gap|;
    assert line[0] == '-' && line[1] == ' ' && line[2] == '[' && line[3] == mark && line[4] == ']';
    assert forall k :: 5 <= k < 5 + n ==> line[k] == gap[k - 5];
    assert 5 + n == |line| || line[5 + n] == text[0];
    WsRunIs(line, 5, n);
    assert line[5 + n..] == text;
    var x := "- " + text;
    assert DropBulletBox(line) == x;
    assert x[0] == '-';
    assert DigitRun(x, 0) == 0;
  }

  /** Where a line has a number, '.', whitespace, a box and whitespace up to `e`, the second
      replacement leaves what follows `e`. */
  lemma NumberedBoxAt(line: string, d: nat, b: nat, e: nat)
    requires 1 <= d && d + 1 <= b && b + 3 <= e <= |line|
    requires DigitRun(line, 0) == d && line[d] == '.' && WsRun(line, d + 1) == b - d - 1
    requires BoxEnd(line, b) == e
    ensures NumberedBoxEnd(line) == e
  {
  }


  /** The same, stated on the characters of the line. */
  lemma NumberedBoxOnChars(line: string, d: nat, b: nat, e: nat)
    requires 1 <= d && d + 1 <= b && b + 3 <= e <= |line|
    requires forall k :: 0 <= k < d ==> JsString.IsDigit(line[k])
    requires line[d] == '.'
    requires Whitespace(line, d + 1, b)
    requires line[b] == '[' && BoxMark(line[b + 1]) && line[b + 2] == ']'
    requires Whitespace(line, b + 3, e)
    requires e == |line| || !JsString.IsWhitespace(line[e])
    ensures CleanLine(line) == line[e..]
  {
    assert DropBulletBox(line) == line by {
      assert JsString.IsDigit(line[0]);
    }
    DigitRunIs(line, 0, d);
    WsRunIs(line, d + 1, b - d - 1);
    WsRunIs(line, b + 3, e - b - 3);
    assert BoxEnd(line, b) == e;
    NumberedBoxAt(line, d, b, e);
  }

  /** "3. [ ] text" is cleaned to "text": the number goes with the box. */
  lemma NumberedBoxDropped(digits: string, gap: string, mark: char, gap2: string, text: string)
    requires |digits| >= 1 && forall k :: 0 <= k < |digits| ==> JsString.IsDigit(digits[k])
    requires forall k :: 0 <= k < |gap| ==> JsString.IsWhitespace(gap[k])
    requires BoxMark(mark)
    requires forall k :: 0 <= k < |gap2| ==> JsString.IsWhitespace(gap2[k])
    requires text == [] || !JsString.IsWhitespace(text[0])
    ensures CleanLine(digits + "." + gap + "[" + [mark] + "]" + gap2 + text) == text
  {
    var line := digits + "." + gap + "[" + [mark] + "]" + gap2 + text;
    var d := |digits|;
    var b := d + 1 + |gap|;
    var e := b + 3 + |gap2|;
    assert forall k :: 0 <= k < d ==> line[k] == digits[k];
    assert line[d] == '.';
    assert forall k :: d + 1 <= k < b ==> line[k] == gap[k - d - 1];
    assert line[b] == '[' && line[b + 1] == mark && line[b + 2] == ']';
    assert forall k :: b + 3 <= k < e ==> line[k] == gap2[k - b - 3];
    assert e == |line| || line[e] == text[0];
    assert line[e..] == text;
    NumberedBoxOnChars(line, d, b, e);
  }

  /** A bullet whose box holds a character above U+FFFF is not a box to either replacement: the
      line is kept as it is. */
  lemma AstralBulletKept(mark: char, text: string)
    requires (mark as int) >= 0x10000
    ensures CleanLine("- [" + [mark] + "]" + text) == "- [" + [mark] + "]" + text
  {
    var line := "- [" + [mark] + "]" + text;
    assert line[0] == '-' && line[3] == mark;
    assert DigitRun(line, 0) == 0;
  }

  /** A numbered item whose box holds a character above U+FFFF is kept as it is, number and all. */
  lemma AstralNumberedKept(digits: string, gap: string, mark: char, text: string)
    requires |digits| >= 1 && forall k :: 0 <= k < |digits| ==> JsString.IsDigit(digits[k])
    requires forall k :: 0 <= k < |gap| ==> JsString.IsWhitespace(gap[k])
    requires (mark as int) >= 0x10000
    ensures CleanLine(digits + "." + gap + "[" + [mark] + "]" + text) == digits + "." + gap + "[" + [mark] + "]" + text
  {
    var line := digits + "." + gap + "[" + [mark] + "]" + text;
    var d := |digits|;
    var b := d + 1 + |gap|;
    assert forall k :: 0 <= k < d ==> line[k] == digits[k];
    assert line[d] == '.';
    assert forall k :: d + 1 <= k < b ==> line[k] == gap[k - d - 1];
    assert line[b] == '[' && line[b + 1] == mark;
    assert DropBulletBox(line) == line by {
      assert JsString.IsDigit(line[0]);
    }
    DigitRunIs(line, 0, d);
    WsRunIs(line, d + 1, b - d - 1);
    assert NumberedBoxEnd(line) == 0;
  }

  // ----------------------------------------------------------------- latest decision date (45-48)

  /** `\d{4}-\d{2}-\d{2}`. */
  predicate DateShape(d: string) {
    |d| == 10 && d[4] == '-' && d[7] == '-'
    && JsString.IsDigit(d[0]) && JsString.IsDigit(d[1]) && JsString.IsDigit(d[2]) && JsString.IsDigit(d[3])
    && JsString.IsDigit(d[5]) && JsString.IsDigit(d[6]) && JsString.IsDigit(d[8]) && JsString.IsDigit(d[9])
  }

  /** A text matched by `##\s+(\d{4}-\d{2}-\d{2})`: "##", at least one whitespace character, a date. */
  predicate DatedHeading(t: string) {
    |t| >= 13 && t[0] == '#' && t[1] == '#' && Whitespace(t, 2, |t| - 10) && DateShape(t[|t| - 10..])
  }

  /** The length of the match of the date pattern starting at `p`, if there is one. A date
      begins with a digit, so `\s+` can only take the whole whitespace run: the match is unique. */
  function DateHeadingAt(s: string, p: nat): (r: Option<nat>)
    requires p <= |s|
    ensures r.Some? ==> p + r.value <= |s| && DatedHeading(s[p..p + r.value])
  {
    if p + 2 <= |s| && s[p] == '#' && s[p + 1] == '#' then
      var w := WsRun(s, p + 2);
      var q := p + 2 + w;
      if 1 <= w && q + 10 <= |s| && DateShape(s[q..q + 10]) then
        var t := s[p..q + 10];
        assert forall k :: 0 <= k < |t| ==> t[k] == s[p + k];
        assert t[|t| - 10..] == s[q..q + 10];
        Some(12 + w)
      else None
    else None
  }

  /** Every way of reading "##", whitespace and a date at `p` is the match DateHeadingAt finds. */
  lemma DateHeadingAtFindsEveryMatch(s: string, p: nat, w: nat)
    requires 1 <= w && p + 12 + w <= |s|
    requires s[p] == '#' && s[p + 1] == '#' && Whitespace(s, p + 2, p + 2 + w)
    requires DateShape(s[p + 2 + w..p + 12 + w])
    ensures DateHeadingAt(s, p) == Some(12 + w)
  {
    assert s[p + 2 + w] == s[p + 2 + w..p + 12 + w][0];
    WsRunIs(s, p + 2, w);
  }

  /** `s.match(re)` with the g flag, from `i` on: every match, each search resuming where the
      previous match ended. */
  function DateHeadings(s: string, i: nat): (r: seq<string>)
    requires i <= |s|
    ensures forall k :: 0 <= k < |r| ==> DatedHeading(r[k])
    decreases |s| - i
  {
    match DateHeadingAt(s, i)
    case Some(n) => [s[i..i + n]] + DateHeadings(s, i + n)
    case None => if i < |s| then DateHeadings(s, i + 1) else []
  }

  /** The g-flag search finds nothing exactly when the pattern matches nowhere. */
  lemma {:induction false} NoDateHeadings(s: string, i: nat)
    requires i <= |s|
    ensures DateHeadings(s, i) == [] <==> forall j :: i <= j <= |s| ==> DateHeadingAt(s, j).None?
    decreases |s| - i
  {
    if DateHeadingAt(s, i).None? && i < |s| {
      NoDateHeadings(s, i + 1);
    }
  }

  /** Whether `pattern` occurs in `s` at `i`. */
  predicate OccursAt(s: string, pattern: string, i: nat) {
    i + |pattern| <= |s| && s[i..i + |pattern|] == pattern
  }

  /** `s.indexOf(pattern, i)`: the first occurrence at or after `i`. */
  function IndexOf(s: string, pattern: string, i: nat): (r: Option<nat>)
    requires i <= |s|
    ensures r.Some? ==> i <= r.value && OccursAt(s, pattern, r.value)
    ensures forall j :: i <= j && (r.None? || j < r.value) ==> !OccursAt(s, pattern, j)
    decreases |s| - i
  {
    if OccursAt(s, pattern, i) then Some(i)
    else if i == |s| then None
    else IndexOf(s, pattern, i + 1)
  }

  /** `s.replace(pattern, replacement)` with a string pattern: only the first occurrence. */
  function ReplaceFirst(s: string, pattern: string, replacement: string): string {
    match IndexOf(s, pattern, 0)
    case Some(i) => s[..i] + replacement + s[i + |pattern|..]
    case None => s
  }

  /** A string pattern that is not there leaves the text unchanged; one that is there is
      replaced where it first occurs. */
  lemma ReplaceFirstAt(s: string, pattern: string, replacement: string, i: nat)
    requires OccursAt(s, pattern, i) && forall j: nat :: j < i ==> !OccursAt(s, pattern, j)
    ensures ReplaceFirst(s, pattern, replacement) == s[..i] + replacement + s[i + |pattern|..]
  {
    assert IndexOf(s, pattern, 0) == Some(i);
  }

  /** The script as written: the last match with its first "## " removed, or "unknown". */
  function LatestDecisionDateAsWritten(decisions: string): string {
    var found := DateHeadings(decisions, 0);
    if found == [] then "unknown" else ReplaceFirst(found[|found| - 1], "## ", "")
  }

  /** The date of the last dated heading of the decision log, or "unknown" when it has none. */
  function LatestDecisionDate(decisions: string): (r: string)
    ensures r == "unknown" || DateShape(r)
  {
    var found := DateHeadings(decisions, 0);
    if found == [] then "unknown"
    else
      var last := found[|found| - 1];
      last[|last| - 10..]
  }

  /** The date is "unknown" exactly when the log has no dated heading at all; otherwise it is
      the date of a heading the pattern matches. */
  lemma LatestDecisionDateFound(decisions: string)
    ensures LatestDecisionDate(decisions) == "unknown" <==> forall j :: 0 <= j <= |decisions| ==> DateHeadingAt(decisions, j).None?
    ensures LatestDecisionDate(decisions) != "unknown" ==> DateShape(LatestDecisionDate(decisions))
  {
    NoDateHeadings(decisions, 0);
  }

  /** In a dated heading, "## " can only occur at the start, and only when one space follows "##". */
  lemma DatedHeadingMarker(t: string)
    requires DatedHeading(t)
    ensures OccursAt(t, "## ", 0) <==> t[2] == ' '
    ensures forall j :: 1 <= j ==> !OccursAt(t, "## ", j)
  {
    forall j | 1 <= j ensures !OccursAt(t, "## ", j) {
      if j + 3 <= |t| {
        assert t[j + 1] != '#' by {
          if j + 1 < |t| - 10 {
            assert JsString.IsWhitespace(t[j + 1]);
          } else {
            assert t[j + 1] == t[|t| - 10..][j + 1 - (|t| - 10)];
          }
        }
        assert t[j..j + 3][1] == t[j + 1];
      }
    }
    if t[2] == ' ' {
      assert t[..3] == "## ";
    }
  }


  /** Removing the first "## " from a dated heading removes its marker exactly when one space
      follows "##", and otherwise changes nothing. */
  lemma MarkerRemoval(t: string)
    requires DatedHeading(t)
    ensures ReplaceFirst(t, "## ", "") == if t[2] == ' ' then t[3..] else t
  {
    DatedHeadingMarker(t);
    if t[2] == ' ' {
      ReplaceFirstAt(t, "## ", "", 0);
    } else {
      assert IndexOf(t, "## ", 0).None?;
    }
  }

  /** The script's date agrees with the date of the last heading exactly when that heading has
      a single space between "##" and the date; otherwise "##" or extra whitespace is kept. */
  lemma AsWrittenAgreesIffSingleSpace(decisions: string)
    requires DateHeadings(decisions, 0) != []
    ensures var found := DateHeadings(decisions, 0); var last := found[|found| - 1];
      LatestDecisionDateAsWritten(decisions) == LatestDecisionDate(decisions) <==> |last| == 13 && last[2] == ' '
  {
    var found := DateHeadings(decisions, 0);
    var last := found[|found| - 1];
    MarkerRemoval(last);
    if last[2] == ' ' && |last| != 13 {
      assert |last[3..]| != |last[|last| - 10..]|;
    }
  }

  /** A log made of a single dated heading: the g-flag search finds just that heading. */
  lemma SingleDateHeading(s: string)
    requires DateHeadingAt(s, 0) == Some(|s|)
    ensures DateHeadings(s, 0) == [s]
  {
    assert DateHeadings(s, |s|) == [];
    assert s[0..|s|] == s;
  }

  /** Whitespace keeps being whitespace between other text. */
  lemma WhitespaceInside(a: string, b: string, c: string)
    requires Whitespace(b, 0, |b|)
    ensures Whitespace(a + b + c, |a|, |a| + |b|)
  {
    forall k | |a| <= k < |a| + |b| ensures JsString.IsWhitespace((a + b + c)[k]) {
      assert (a + b + c)[k] == b[k - |a|];
    }
  }

  /** A log that is one dated heading is the one match of the g-flag search. */
  lemma DatedLogMatches(s: string, w: nat)
    requires 1 <= w && |s| == 12 + w
    requires s[0] == '#' && s[1] == '#' && Whitespace(s, 2, 2 + w) && DateShape(s[2 + w..])
    ensures DateHeadings(s, 0) == [s]
  {
    assert s[2 + w..] == s[2 + w..12 + w];
    DateHeadingAtFindsEveryMatch(s, 0, w);
    SingleDateHeading(s);
  }

  /** "##", whitespace and a date, alone, is the one match of the g-flag search. */
  lemma OneDatedHeadingMatches(gap: string, date: string)
    requires 1 <= |gap| && forall k :: 0 <= k < |gap| ==> JsString.IsWhitespace(gap[k])
    requires DateShape(date)
    ensures DateHeadings("##" + gap + date, 0) == ["##" + gap + date]
  {
    var s := "##" + gap + date;
    WhitespaceInside("##", gap, date);
    assert s[2 + |gap|..] == date;
    DatedLogMatches(s, |gap|);
  }

  /** A log holding one dated heading: the date is found, and the script as written reports it
      with the marker removed only when a space follows "##". */
  lemma OneDatedHeading(gap: string, date: string)
    requires 1 <= |gap| && forall k :: 0 <= k < |gap| ==> JsString.IsWhitespace(gap[k])
    requires DateShape(date)
    ensures LatestDecisionDate("##" + gap + date) == date
    ensures LatestDecisionDateAsWritten("##" + gap + date) == if gap[0] == ' ' then gap[1..] + date else "##" + gap + date
  {
    var s := "##" + gap + date;
    OneDatedHeadingMatches(gap, date);
    assert s[|s| - 10..] == date;
    assert s[2] == gap[0];
    assert s[3..] == gap[1..] + date;
    assert DatedHeading(DateHeadings(s, 0)[0]);
    SoleHeadingDates(s);
  }

  /** When the whole log is the one match, both readings take their date from it. */
  lemma SoleHeadingDates(s: string)
    requires DatedHeading(s) && DateHeadings(s, 0) == [s]
    ensures LatestDecisionDate(s) == s[|s| - 10..]
    ensures LatestDecisionDateAsWritten(s) == if s[2] == ' ' then s[3..] else s
  {
    MarkerRemoval(s);
  }

  /** "##", a tab and a date: the script reports the whole heading, "##" and tab included. */
  lemma TabSeparatedDateKeepsMarker()
    ensures LatestDecisionDateAsWritten("##" + "\t" + "2025-01-31") == "##" + "\t" + "2025-01-31"
    ensures LatestDecisionDate("##" + "\t" + "2025-01-31") == "2025-01-31"
  {
    OneDatedHeading("\t", "2025-01-31");
  }

  /** "##", two spaces and a date: the script reports the date after a leading space. */
  lemma DoubleSpacedDateKeepsSpace()
    ensures LatestDecisionDateAsWritten("##" + "  " + "2025-01-31") == " " + "2025-01-31"
    ensures LatestDecisionDate("##" + "  " + "2025-01-31") == "2025-01-31"
  {
    OneDatedHeading("  ", "2025-01-31");
    assert "  "[1..] == " ";
  }

  // ----------------------------------------------------------------- buildPrompt (40-72)

  const NextActionsHeading := "Next 3 Actions"
  const OpenTasksHeading := "Open Tasks (Prioritized)"
  const KnownIssuesHeading := "Known Issues / Edge Cases"

  /** The placeholder line for a list the project state does not have. */
  function NotFound(what: string): string {
    "- (No " + what + " found in " + "PROJECT_STATE.md" + ")"
  }

  const NoNextActions := NotFound("explicit next actions")
  const NoOpenTasks := NotFound("open tasks section")
  const NoKnownIssues := NotFound("known issues section")

  /** `block || placeholder`: the empty string is falsy. */
  function OrPlaceholder(block: string, placeholder: string): string {
    if block != [] then block else placeholder
  }

  /** The cleaned list of one section of the project state, or its placeholder. */
  function Slot(projectState: string, heading: string, placeholder: string): string {
    OrPlaceholder(CleanListBlock(ExtractSection(projectState, heading)), placeholder)
  }

  /** The template's opening lines, up to the list of canonical files. */
  function Opening(root: string): seq<string> {
    [ "Use PROJECT_STATE.md as canonical state and DECISIONS.md for rationale. Continue from Next 3 Actions.",
      "",
      "Project root: " + root,
      "",
      "Operational context:",
      "- Canonical files: PROJECT_STATE.md, DECISIONS.md" ]
  }

  /** The line that reports the latest decision date. */
  function DateLine(date: string): string {
    "- Latest decision log date: " + date
  }

  /** The template's closing lines, from the blank line after the last list; the template
      ends with a line break, hence the final empty line. */
  const Requirements: seq<string> := [
    "",
    "Execution requirements:",
    "- Make small, focused diffs.",
    "- Validate with relevant tests after changes.",
    "- Do not revert unrelated local changes.",
    "- Keep updates concise and continue until the requested task is completed end-to-end.",
    "" ]

  /** The template from the date line on, as its lines: each list slot is one piece that may
      span several lines. */
  function Body(date: string, nextActions: string, openTasks: string, knownIssues: string): seq<string> {
    [ DateLine(date),
      "",
      NextActionsHeading + ":", nextActions,
      "",
      OpenTasksHeading + ":", openTasks,
      "",
      KnownIssuesHeading + ":", knownIssues ]
    + Requirements
  }

  /** The template filled in with a date and the three lists of the project state, its pieces
      joined by "\n". `root` is the working directory the script runs in. */
  function FillTemplate(root: string, projectState: string, date: string): string {
    JoinLines(Opening(root) + Body(date,
      Slot(projectState, NextActionsHeading, NoNextActions),
      Slot(projectState, OpenTasksHeading, NoOpenTasks),
      Slot(projectState, KnownIssuesHeading, NoKnownIssues)))
  }

  /** buildPrompt as written: the date line carries the script's own reading of the log. */
  function BuildPrompt(root: string, projectState: string, decisions: string): string {
    FillTemplate(root, projectState, LatestDecisionDateAsWritten(decisions))
  }

  /** buildPrompt with the corrected date: the date of the last dated heading, or "unknown". */
  function BuildPromptCorrected(root: string, projectState: string, decisions: string): string {
    FillTemplate(root, projectState, LatestDecisionDate(decisions))
  }

  /** Whether `s` does not end with '\r', so that a '\n' after it splits cleanly. */
  predicate NoCarriageEnd(s: string) {
    s == [] || s[|s| - 1] != '\r'
  }

  /** A '\n' appended after `a` is found only once `a` has no '\n' left. */
  lemma {:induction false} NextNewlineBeforeBreak(a: string, b: string, i: nat)
    requires i <= |a|
    ensures NextNewline(a + "\n" + b, i) == NextNewline(a, i)
    decreases |a| - i
  {
    var s := a + "\n" + b;
    if i < |a| {
      assert s[i] == a[i];
      NextNewlineBeforeBreak(a, b, i + 1);
    } else {
      assert s[i] == '\n';
    }
  }

  /** Splitting at a '\n' that follows a text not ending in '\r' splits each side separately. */
  lemma {:induction false} SplitAppend(a: string, b: string)
    requires NoCarriageEnd(a)
    ensures SplitLines(a + "\n" + b) == SplitLines(a) + SplitLines(b)
    decreases |a|, 1
  {
    var s := a + "\n" + b;
    NextNewlineBeforeBreak(a, b, 0);
    if NextNewline(a, 0) < |a| {
      SplitAppendAfterBreak(a, b);
    } else {
      assert NextNewline(s, 0) == |a|;
      assert s[..|a|] == a;
      assert s[|a| + 1..] == b;
    }
  }

  /** The case of SplitAppend where `a` has a line break of its own. */
  lemma {:induction false} SplitAppendAfterBreak(a: string, b: string)
    requires NoCarriageEnd(a) && NextNewline(a, 0) < |a|
    ensures SplitLines(a + "\n" + b) == SplitLines(a) + SplitLines(b)
    decreases |a|, 0
  {
    var s := a + "\n" + b;
    var j := NextNewline(a, 0);
    var rest := a[j + 1..];
    var piece := Chomp(a[..j]);
    calc {
      SplitLines(s);
    == { NextNewlineBeforeBreak(a, b, 0);
         assert s[..j] == a[..j];
         assert s[j + 1..] == rest + "\n" + b; }
      [piece] + SplitLines(rest + "\n" + b);
    == { SplitAppend(rest, b); }
      [piece] + (SplitLines(rest) + SplitLines(b));
    ==
      ([piece] + SplitLines(rest)) + SplitLines(b);
    ==
      SplitLines(a) + SplitLines(b);
    }
  }

  /** The lines of every piece, in order. */
  function LinesOf(pieces: seq<string>): seq<string> {
    if pieces == [] then [] else SplitLines(pieces[0]) + LinesOf(pieces[1..])
  }

  predicate CleanEnds(pieces: seq<string>) {
    forall i :: 0 <= i < |pieces| ==> NoCarriageEnd(pieces[i])
  }

  lemma CleanEndsAppend(p: seq<string>, q: seq<string>)
    requires CleanEnds(p) && CleanEnds(q)
    ensures CleanEnds(p + q)
  {
    assert forall i :: 0 <= i < |p + q| ==> (p + q)[i] == if i < |p| then p[i] else q[i - |p|];
  }

  /** Splitting joined pieces, none ending in '\r', gives the lines of each piece in turn. */
  lemma {:induction false} SplitJoinedPieces(pieces: seq<string>)
    requires |pieces| >= 1
    requires CleanEnds(pieces)
    ensures SplitLines(JoinLines(pieces)) == LinesOf(pieces)
  {
    if |pieces| == 1 {
      assert LinesOf(pieces[1..]) == [];
    } else {
      SplitJoinedPieces(pieces[1..]);
      SplitAppend(pieces[0], JoinLines(pieces[1..]));
    }
  }

  /** Joined plain lines do not end in '\r'. */
  lemma {:induction false} PlainJoinEndsClean(lines: seq<string>)
    requires AllPlain(lines)
    ensures NoCarriageEnd(JoinLines(lines))
  {
    if |lines| > 1 {
      PlainJoinEndsClean(lines[1..]);
      var rest := JoinLines(lines[1..]);
      assert JoinLines(lines) == lines[0] + "\n" + rest;
    } else if |lines| == 1 {
      assert PlainLine(lines[0]);
    }
  }

  /** What a slot lists, one entry per line: the section's items, or the placeholder when the
      cleaned section is empty. */
  function SlotLines(projectState: string, heading: string, placeholder: string): seq<string> {
    var section := ExtractSection(projectState, heading);
    if CleanListBlock(section) == [] then [placeholder] else CleanedItems(SplitLines(section))
  }

  /** A cleaned block, or the placeholder in its place, never ends in '\r' and splits into
      the items of the block, or the placeholder alone. */
  lemma BlockOrPlaceholderSplits(section: string, placeholder: string)
    requires PlainLine(placeholder)
    ensures NoCarriageEnd(OrPlaceholder(CleanListBlock(section), placeholder))
    ensures SplitLines(OrPlaceholder(CleanListBlock(section), placeholder))
      == if CleanListBlock(section) == [] then [placeholder] else CleanedItems(SplitLines(section))
  {
    if CleanListBlock(section) == [] {
      SplitJoin([placeholder]);
    } else {
      CleanBlockLines(section);
      CleanItemsArePlain(section);
      PlainJoinEndsClean(CleanedItems(SplitLines(section)));
    }
  }

  /** A slot never ends in '\r' and splits into the lines it lists. */
  lemma SlotSplits(projectState: string, heading: string, placeholder: string)
    requires PlainLine(placeholder)
    ensures NoCarriageEnd(Slot(projectState, heading, placeholder))
    ensures SplitLines(Slot(projectState, heading, placeholder)) == SlotLines(projectState, heading, placeholder)
  {
    BlockOrPlaceholderSplits(ExtractSection(projectState, heading), placeholder);
  }

  /** Joining two non-empty runs of pieces puts one line break between them. */
  lemma {:induction false} JoinAppend(p: seq<string>, q: seq<string>)
    requires p != [] && q != []
    ensures JoinLines(p + q) == JoinLines(p) + "\n" + JoinLines(q)
  {
    if |p| > 1 {
      JoinAppend(p[1..], q);
      assert (p + q)[1..] == p[1..] + q;
    } else {
      assert (p + q)[1..] == q;
    }
  }

  /** Joined pieces end as their last piece does, when that one is not empty. */
  lemma {:induction false} JoinEndsLikeLast(p: seq<string>)
    requires p != [] && p[|p| - 1] != []
    ensures var s := JoinLines(p); s != [] && s[|s| - 1] == p[|p| - 1][|p[|p| - 1]| - 1]
  {
    if |p| > 1 {
      JoinEndsLikeLast(p[1..]);
    }
  }

  /** Appending to a plain line a plain text gives a plain line. */
  lemma PlainConcat(a: string, b: string)
    requires PlainLine(a) && PlainLine(b)
    ensures PlainLine(a + b)
  {
    assert forall k :: 0 <= k < |a + b| ==> (a + b)[k] == if k < |a| then a[k] else b[k - |a|];
  }

  /** The date line is a single line. */
  lemma DateLineIsPlain(decisions: string)
    ensures PlainLine(DateLine(LatestDecisionDate(decisions)))
  {
    var date := LatestDecisionDate(decisions);
    assert PlainLine(date);
    assert PlainLine("- Latest decision log date: ");
    PlainConcat("- Latest decision log date: ", date);
  }

  lemma PlaceholdersArePlain()
    ensures PlainLine(NoNextActions) && PlainLine(NoOpenTasks) && PlainLine(NoKnownIssues)
  {
  }

  lemma HeadingsArePlain()
    ensures PlainLine(NextActionsHeading + ":") && PlainLine(OpenTasksHeading + ":") && PlainLine(KnownIssuesHeading + ":")
  {
  }

  lemma {:induction false} LinesOfAppend(p: seq<string>, q: seq<string>)
    ensures LinesOf(p + q) == LinesOf(p) + LinesOf(q)
  {
    if p != [] {
      assert (p + q)[1..] == p[1..] + q;
      LinesOfAppend(p[1..], q);
    } else {
      assert p + q == q;
    }
  }

  /** The lines of a heading followed by a list. */
  lemma LinesOfList(heading: string, block: string)
    requires PlainLine(heading)
    ensures LinesOf([heading, block]) == [heading] + SplitLines(block)
  {
    calc {
      LinesOf([heading, block]);
    == { assert [heading, block][1..] == [block]; }
      SplitLines(heading) + LinesOf([block]);
    == { SplitJoin([heading]); assert JoinLines([heading]) == heading; }
      [heading] + LinesOf([block]);
    == { assert [block][1..] == []; }
      [heading] + (SplitLines(block) + LinesOf([]));
    == { assert LinesOf([]) == []; }
      [heading] + SplitLines(block);
    }
  }

  /** The lines of a blank line, a heading and a list. */
  lemma LinesOfSpacedList(heading: string, block: string)
    requires PlainLine(heading)
    ensures LinesOf(["", heading, block]) == ["", heading] + SplitLines(block)
  {
    calc {
      LinesOf(["", heading, block]);
    == { assert ["", heading, block][1..] == [heading, block]; }
      SplitLines("") + LinesOf([heading, block]);
    == { SplitJoin([""]); assert JoinLines([""]) == ""; LinesOfList(heading, block); }
      [""] + ([heading] + SplitLines(block));
    }
  }

  /** The lines of a piece followed by a blank line. */
  lemma LinesOfThenBlank(d: string)
    ensures LinesOf([d, ""]) == SplitLines(d) + [""]
  {
    assert [d, ""][1..] == [""];
    assert [""][1..] == [];
    SplitOfPlain("");
  }

  /** The lines of the date line and the three lists with their headings. */
  lemma ListsLines(d: string, h1: string, s1: string, h2: string, s2: string, h3: string, s3: string)
    requires PlainLine(h1) && PlainLine(h2) && PlainLine(h3)
    ensures LinesOf([d, "", h1, s1, "", h2, s2, "", h3, s3])
      == SplitLines(d) + [""] + ([h1] + SplitLines(s1)) + (["", h2] + SplitLines(s2)) + (["", h3] + SplitLines(s3))
  {
    var g0, g1, g2, g3 := [d, ""], [h1, s1], ["", h2, s2], ["", h3, s3];
    calc {
      LinesOf([d, "", h1, s1, "", h2, s2, "", h3, s3]);
    == { assert [d, "", h1, s1, "", h2, s2, "", h3, s3] == g0 + g1 + g2 + g3; }
      LinesOf(g0 + g1 + g2 + g3);
    == { LinesOfAppend(g0 + g1 + g2, g3); LinesOfAppend(g0 + g1, g2); LinesOfAppend(g0, g1); }
      LinesOf(g0) + LinesOf(g1) + LinesOf(g2) + LinesOf(g3);
    == { LinesOfThenBlank(d); LinesOfList(h1, s1); LinesOfSpacedList(h2, s2); LinesOfSpacedList(h3, s3); }
      SplitLines(d) + [""] + ([h1] + SplitLines(s1)) + (["", h2] + SplitLines(s2)) + (["", h3] + SplitLines(s3));
    }
  }

  /** The lines of the template from the date line on, for slots that do not end in '\r'. */
  lemma BodyLines(date: string, s1: string, s2: string, s3: string)
    requires NoCarriageEnd(DateLine(date))
    requires NoCarriageEnd(s1) && NoCarriageEnd(s2) && NoCarriageEnd(s3)
    ensures SplitLines(JoinLines(Body(date, s1, s2, s3)))
      == Listing(SplitLines(DateLine(date)), SplitLines(s1), SplitLines(s2), SplitLines(s3)) + LinesOf(Requirements)
  {
    var lists := [DateLine(date), "", NextActionsHeading + ":", s1, "", OpenTasksHeading + ":", s2, "", KnownIssuesHeading + ":", s3];
    HeadingsArePlain();
    assert CleanEnds(lists);
    assert CleanEnds(Requirements);
    CleanEndsAppend(lists, Requirements);
    calc {
      SplitLines(JoinLines(Body(date, s1, s2, s3)));
    == { assert Body(date, s1, s2, s3) == lists + Requirements; SplitJoinedPieces(lists + Requirements); }
      LinesOf(lists + Requirements);
    == { LinesOfAppend(lists, Requirements); }
      LinesOf(lists) + LinesOf(Requirements);
    == { ListsLines(DateLine(date), NextActionsHeading + ":", s1, OpenTasksHeading + ":", s2, KnownIssuesHeading + ":", s3); }
      Listing(SplitLines(DateLine(date)), SplitLines(s1), SplitLines(s2), SplitLines(s3)) + LinesOf(Requirements);
    }
  }


  /** The prompt's lines from the date line to the last list: the lines of the date line, a
      blank line, then each heading followed by the lines of its list. */
  function Listing(dateLines: seq<string>, nextActions: seq<string>, openTasks: seq<string>, knownIssues: seq<string>): seq<string> {
    dateLines + [""]
    + ([NextActionsHeading + ":"] + nextActions)
    + (["", OpenTasksHeading + ":"] + openTasks)
    + (["", KnownIssuesHeading + ":"] + knownIssues)
  }

  lemma OpeningEndsClean(root: string)
    ensures NoCarriageEnd(JoinLines(Opening(root)))
  {
    JoinEndsLikeLast(Opening(root));
  }

  /** The lines of the filled-in template: the opening lines, then the lines of the rest. */
  lemma FilledLines(root: string, date: string, s1: string, s2: string, s3: string)
    requires NoCarriageEnd(DateLine(date))
    requires NoCarriageEnd(s1) && NoCarriageEnd(s2) && NoCarriageEnd(s3)
    ensures SplitLines(JoinLines(Opening(root) + Body(date, s1, s2, s3)))
      == SplitLines(JoinLines(Opening(root)))
      + (Listing(SplitLines(DateLine(date)), SplitLines(s1), SplitLines(s2), SplitLines(s3)) + LinesOf(Requirements))
  {
    var o := Opening(root);
    var b := Body(date, s1, s2, s3);
    OpeningEndsClean(root);
    calc {
      SplitLines(JoinLines(o + b));
    == { JoinAppend(o, b); }
      SplitLines(JoinLines(o) + "\n" + JoinLines(b));
    == { SplitAppend(JoinLines(o), JoinLines(b)); }
      SplitLines(JoinLines(o)) + SplitLines(JoinLines(b));
    == { BodyLines(date, s1, s2, s3); }
      SplitLines(JoinLines(o)) + (Listing(SplitLines(DateLine(date)), SplitLines(s1), SplitLines(s2), SplitLines(s3)) + LinesOf(Requirements));
    }
  }

  /** The three slots of the prompt split into the lines they list. */
  lemma SlotsSplit(projectState: string)
    ensures NoCarriageEnd(Slot(projectState, NextActionsHeading, NoNextActions))
    ensures NoCarriageEnd(Slot(projectState, OpenTasksHeading, NoOpenTasks))
    ensures NoCarriageEnd(Slot(projectState, KnownIssuesHeading, NoKnownIssues))
    ensures SplitLines(Slot(projectState, NextActionsHeading, NoNextActions)) == SlotLines(projectState, NextActionsHeading, NoNextActions)
    ensures SplitLines(Slot(projectState, OpenTasksHeading, NoOpenTasks)) == SlotLines(projectState, OpenTasksHeading, NoOpenTasks)
    ensures SplitLines(Slot(projectState, KnownIssuesHeading, NoKnownIssues)) == SlotLines(projectState, KnownIssuesHeading, NoKnownIssues)
  {
    PlaceholdersArePlain();
    SlotSplits(projectState, NextActionsHeading, NoNextActions);
    SlotSplits(projectState, OpenTasksHeading, NoOpenTasks);
    SlotSplits(projectState, KnownIssuesHeading, NoKnownIssues);
  }

  /** The lines of the filled-in template: the opening lines, the lines of the date line, a
      blank line, each heading followed by the items of that section of the project state (or
      its placeholder), then the execution requirements. */
  lemma FilledTemplateLines(root: string, projectState: string, date: string)
    requires NoCarriageEnd(DateLine(date))
    ensures SplitLines(FillTemplate(root, projectState, date))
      == SplitLines(JoinLines(Opening(root)))
      + (Listing(SplitLines(DateLine(date)),
          SlotLines(projectState, NextActionsHeading, NoNextActions),
          SlotLines(projectState, OpenTasksHeading, NoOpenTasks),
          SlotLines(projectState, KnownIssuesHeading, NoKnownIssues)) + LinesOf(Requirements))
  {
    SlotsSplit(projectState);
    FilledLines(root, date,
      Slot(projectState, NextActionsHeading, NoNextActions),
      Slot(projectState, OpenTasksHeading, NoOpenTasks),
      Slot(projectState, KnownIssuesHeading, NoKnownIssues));
  }

  /** The script's date line never ends in '\r': it ends with "unknown" or with a date. */
  lemma AsWrittenDateLineEndsClean(decisions: string)
    ensures NoCarriageEnd(DateLine(LatestDecisionDateAsWritten(decisions)))
  {
    var found := DateHeadings(decisions, 0);
    if found == [] {
      DateLineEndsLike("unknown");
    } else {
      var last := found[|found| - 1];
      MarkerRemovalEndsInDigit(last);
      DateLineEndsLike(ReplaceFirst(last, "## ", ""));
    }
  }

  /** The date line ends as its date does. */
  lemma DateLineEndsLike(date: string)
    requires date != []
    ensures DateLine(date)[|DateLine(date)| - 1] == date[|date| - 1]
  {
  }

  /** A dated heading, with or without its marker removed, ends with the date's last digit. */
  lemma MarkerRemovalEndsInDigit(t: string)
    requires DatedHeading(t)
    ensures var r := ReplaceFirst(t, "## ", ""); r != [] && JsString.IsDigit(r[|r| - 1])
  {
    DatedHeadingEndsInDigit(t);
    MarkerRemoval(t);
    if t[2] == ' ' {
      LastOfSuffix(t, 3);
    }
  }

  lemma DatedHeadingEndsInDigit(t: string)
    requires DatedHeading(t)
    ensures JsString.IsDigit(t[|t| - 1])
  {
    var d := t[|t| - 10..];
    assert JsString.IsDigit(d[9]);
    assert d[9] == t[|t| - 1];
  }

  lemma LastOfSuffix(t: string, i: nat)
    requires i < |t|
    ensures t[i..] != [] && t[i..][|t[i..]| - 1] == t[|t| - 1]
  {
  }

  /** The lines of the prompt the script writes: after the opening lines, the lines of its date
      line, then under each heading the items of that section of the project state (or its
      placeholder), then the execution requirements. */
  lemma PromptLines(root: string, projectState: string, decisions: string)
    ensures SplitLines(BuildPrompt(root, projectState, decisions))
      == SplitLines(JoinLines(Opening(root)))
      + (Listing(SplitLines(DateLine(LatestDecisionDateAsWritten(decisions))),
          SlotLines(projectState, NextActionsHeading, NoNextActions),
          SlotLines(projectState, OpenTasksHeading, NoOpenTasks),
          SlotLines(projectState, KnownIssuesHeading, NoKnownIssues)) + LinesOf(Requirements))
  {
    AsWrittenDateLineEndsClean(decisions);
    FilledTemplateLines(root, projectState, LatestDecisionDateAsWritten(decisions));
  }

  /** The lines of the corrected prompt: the same, with the date on a single line. */
  lemma CorrectedPromptLines(root: string, projectState: string, decisions: string)
    ensures SplitLines(BuildPromptCorrected(root, projectState, decisions))
      == SplitLines(JoinLines(Opening(root)))
      + (Listing([DateLine(LatestDecisionDate(decisions))],
          SlotLines(projectState, NextActionsHeading, NoNextActions),
          SlotLines(projectState, OpenTasksHeading, NoOpenTasks),
          SlotLines(projectState, KnownIssuesHeading, NoKnownIssues)) + LinesOf(Requirements))
  {
    DateLineIsPlain(decisions);
    SplitOfPlain(DateLine(LatestDecisionDate(decisions)));
    FilledTemplateLines(root, projectState, LatestDecisionDate(decisions));
  }

  /** A text that splits into one line is that line. */
  lemma SingleSplit(x: string, y: string)
    ensures SplitLines(x) == [y] ==> x == y
  {
    var j := NextNewline(x, 0);
    if j < |x| {
      assert SplitLines(x) == [Chomp(x[..j])] + SplitLines(x[j + 1..]);
    }
  }

  lemma DateLineInjective(a: string, b: string)
    ensures DateLine(a) == DateLine(b) ==> a == b
  {
    assert DateLine(a)[|"- Latest decision log date: "|..] == a;
    assert DateLine(b)[|"- Latest decision log date: "|..] == b;
  }

  /** The script's prompt holds the corrected date line as one line exactly when the log has no
      dated heading or its last one has a single space between "##" and the date. */
  lemma PromptDateLine(decisions: string)
    ensures var found := DateHeadings(decisions, 0);
      SplitLines(DateLine(LatestDecisionDateAsWritten(decisions))) == [DateLine(LatestDecisionDate(decisions))]
      <==> found == [] || (|found[|found| - 1]| == 13 && found[|found| - 1][2] == ' ')
  {
    var found := DateHeadings(decisions, 0);
    var written := LatestDecisionDateAsWritten(decisions);
    var date := LatestDecisionDate(decisions);
    DateLineIsPlain(decisions);
    if found != [] {
      AsWrittenAgreesIffSingleSpace(decisions);
    }
    if written == date {
      SplitOfPlain(DateLine(date));
    } else {
      SingleSplit(DateLine(written), DateLine(date));
      DateLineInjective(written, date);
    }
  }

  /** "##", a line break and a date: `\s+` takes the break, so the script's date line is broken
      in two, the first line ending in "##". */
  lemma NewlineSeparatedDateSplitsLine()
    ensures LatestDecisionDateAsWritten("##" + "\n" + "2025-01-31") == "##" + "\n" + "2025-01-31"
    ensures SplitLines(DateLine(LatestDecisionDateAsWritten("##" + "\n" + "2025-01-31")))
      == [DateLine("##"), "2025-01-31"]
  {
    NewlineSeparatedDateKept();
    NewlineDateLineSplits();
  }

  lemma NewlineSeparatedDateKept()
    ensures LatestDecisionDateAsWritten("##" + "\n" + "2025-01-31") == "##" + "\n" + "2025-01-31"
  {
    OneDatedHeading("\n", "2025-01-31");
  }

  lemma NewlineDateLineSplits()
    ensures SplitLines(DateLine("##" + "\n" + "2025-01-31")) == [DateLine("##"), "2025-01-31"]
  {
    assert PlainLine("##") && PlainLine("2025-01-31");
    DateLineBreaks("##", "2025-01-31");
  }

  /** A date holding a line break breaks the date line in two there. */
  lemma DateLineBreaks(a: string, b: string)
    requires PlainLine(a) && PlainLine(b)
    ensures SplitLines(DateLine(a + "\n" + b)) == [DateLine(a), b]
  {
    assert DateLine(a + "\n" + b) == DateLine(a) + "\n" + b;
    assert PlainLine("- Latest decision log date: ");
    PlainConcat("- Latest decision log date: ", a);
    SplitAppend(DateLine(a), b);
    SplitOfPlain(DateLine(a));
    SplitOfPlain(b);
  }
}
