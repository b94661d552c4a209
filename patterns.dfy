/**
 * The line patterns of pymdcord (t_HEADER, t_LIST, t_BLOCKQUOTE,
 * t_CODEBLOCK_START, t_CODEBLOCK_END), each used by the parser through
 * `re.fullmatch` on one line.
 *
 * Every pattern appears twice: as a recognizer that scans the line the way
 * the regular expression engine settles on its match, and as a ghost
 * predicate that states the regular expression itself (the line is a
 * concatenation of pieces, each of the shape the expression asks for).  A
 * lemma per pattern proves the two agree, in both directions.
 */
module Patterns {
  import opened Wrappers

  /** Whitespace as `\s` and `str.strip` see it on a text split at line feeds. */
  predicate IsSpace(c: char) { c == ' ' || c == '\t' || c == '\n' }

  /** `\d`, restricted to ASCII digits. */
  predicate IsDigit(c: char) { '0' <= c <= '9' }

  ghost predicate AllSpace(s: string) { forall j :: 0 <= j < |s| ==> IsSpace(s[j]) }
  ghost predicate NoSpace(s: string) { forall j :: 0 <= j < |s| ==> !IsSpace(s[j]) }
  ghost predicate NoNewline(s: string) { forall j :: 0 <= j < |s| ==> s[j] != '\n' }
  ghost predicate AllDigits(s: string) { forall j :: 0 <= j < |s| ==> IsDigit(s[j]) }

  /** `n` copies of `c`. */
  function Repeat(c: char, n: nat): (s: string)
    ensures |s| == n
    ensures forall j :: 0 <= j < n ==> s[j] == c
  {
    if n == 0 then [] else Repeat(c, n - 1) + [c]
  }

  // ---------------------------------------------------------------------
  // Greedy runs, as positions in the line

  /** Where a greedy `\s*` that starts at `i` stops. */
  function SkipSpaces(s: string, i: nat): (k: nat)
    requires i <= |s|
    ensures i <= k <= |s|
    ensures forall j :: i <= j < k ==> IsSpace(s[j])
    ensures k < |s| ==> !IsSpace(s[k])
    decreases |s| - i
  {
    if i < |s| && IsSpace(s[i]) then SkipSpaces(s, i + 1) else i
  }

  /** Where a greedy run of `c` that starts at `i` stops. */
  function SkipRun(s: string, i: nat, c: char): (k: nat)
    requires i <= |s|
    ensures i <= k <= |s|
    ensures forall j :: i <= j < k ==> s[j] == c
    ensures k < |s| ==> s[k] != c
    decreases |s| - i
  {
    if i < |s| && s[i] == c then SkipRun(s, i + 1, c) else i
  }

  /** Where a greedy `\d*` that starts at `i` stops. */
  function SkipDigits(s: string, i: nat): (k: nat)
    requires i <= |s|
    ensures i <= k <= |s|
    ensures forall j :: i <= j < k ==> IsDigit(s[j])
    ensures k < |s| ==> !IsDigit(s[k])
    decreases |s| - i
  {
    if i < |s| && IsDigit(s[i]) then SkipDigits(s, i + 1) else i
  }

  /** A text cut in three pieces, read position by position. */
  lemma Pieces(line: string, a: string, b: string, c: string)
    requires line == a + b + c
    ensures |line| == |a| + |b| + |c| && line[|a| + |b|..] == c
    ensures forall j :: 0 <= j < |a| ==> line[j] == a[j]
    ensures forall j :: |a| <= j < |a| + |b| ==> line[j] == b[j - |a|]
  {
  }

  lemma Pieces4(line: string, a: string, b: string, d: string, c: string)
    requires line == a + b + d + c
    ensures |line| == |a| + |b| + |d| + |c| && line[|a| + |b| + |d|..] == c
    ensures forall j :: 0 <= j < |a| ==> line[j] == a[j]
    ensures forall j :: |a| <= j < |a| + |b| ==> line[j] == b[j - |a|]
    ensures forall j :: |a| + |b| <= j < |a| + |b| + |d| ==> line[j] == d[j - |a| - |b|]
  {
  }

  /** The stopping point of a greedy run is the only position with those properties. */
  lemma SkipSpacesAt(s: string, i: nat, k: nat)
    requires i <= k <= |s|
    requires forall j :: i <= j < k ==> IsSpace(s[j])
    requires k < |s| ==> !IsSpace(s[k])
    ensures SkipSpaces(s, i) == k
  {
  }

  lemma SkipRunAt(s: string, i: nat, c: char, k: nat)
    requires i <= k <= |s|
    requires forall j :: i <= j < k ==> s[j] == c
    requires k < |s| ==> s[k] != c
    ensures SkipRun(s, i, c) == k
  {
  }

  lemma SkipDigitsAt(s: string, i: nat, k: nat)
    requires i <= k <= |s|
    requires forall j :: i <= j < k ==> IsDigit(s[j])
    requires k < |s| ==> !IsDigit(s[k])
    ensures SkipDigits(s, i) == k
  {
  }

  // ---------------------------------------------------------------------
  // The content group `\s*[^\s]+.*\n?` shared by header, list and blockquote

  /** The content group as its regular expression states it. */
  ghost predicate ContentForm(c: string) {
    exists w: string, n: string, d: string, e: string ::
      c == w + n + d + e && AllSpace(w) && n != [] && NoSpace(n) && NoNewline(d) && (e == [] || e == "\n")
  }

  /** Recognizer for the content group on `line[i:]`: past the whitespace
      something remains, and from there on a line feed can only be the last
      character of the line. */
  predicate ContentFrom(line: string, i: nat)
    requires i <= |line|
  {
    var k := SkipSpaces(line, i);
    k < |line| && forall j :: k <= j < |line| - 1 ==> line[j] != '\n'
  }

  lemma ContentFromIff(line: string, i: nat)
    requires i <= |line|
    ensures ContentFrom(line, i) <==> ContentForm(line[i..])
  {
    if ContentFrom(line, i) {
      ContentFromForm(line, i);
    }
    if ContentForm(line[i..]) {
      ContentFormFrom(line, i);
    }
  }

  lemma ContentFromForm(line: string, i: nat)
    requires i <= |line| && ContentFrom(line, i)
    ensures ContentForm(line[i..])
  {
    var k := SkipSpaces(line, i);
    var last := if line[|line| - 1] == '\n' then |line| - 1 else |line|;
    assert forall j :: k + 1 <= j < last ==> line[j] != '\n';
    ContentCut(line, i, k, last);
  }

  /** The rest of a line from `i` cut into the four pieces of the content
      group: whitespace up to `k`, the character at `k`, the line up to
      `last`, and what follows `last`. */
  lemma ContentCut(line: string, i: nat, k: nat, last: nat)
    requires i <= k < |line| && k + 1 <= last <= |line|
    requires !IsSpace(line[k]) && forall j :: i <= j < k ==> IsSpace(line[j])
    requires forall j :: k + 1 <= j < last ==> line[j] != '\n'
    requires last == |line| || (last == |line| - 1 && line[last] == '\n')
    ensures ContentForm(line[i..])
  {
    SliceNoNewline(line, k + 1, last);
    SliceAllSpace(line, i, k);
    var w, n, d, e := line[i..k], line[k..k + 1], line[k + 1..last], line[last..];
    SplitAt(line, i, k);
    SplitAt(line, k, k + 1);
    SplitAt(line, k + 1, last);
    Regroup4(w, n, d, e);
    assert n[0] == line[k];
    assert e == [] || e == "\n";
    ContentFormIntro(line[i..], w, n, d, e);
  }

  lemma Regroup4(w: string, n: string, d: string, e: string)
    ensures w + n + d + e == w + (n + (d + e))
  {
  }

  lemma SliceNoNewline(line: string, a: nat, b: nat)
    requires a <= b <= |line| && forall j :: a <= j < b ==> line[j] != '\n'
    ensures NoNewline(line[a..b])
  {
    assert forall j :: 0 <= j < b - a ==> line[a..b][j] == line[a + j];
  }

  lemma SliceAllSpace(line: string, a: nat, b: nat)
    requires a <= b <= |line| && forall j :: a <= j < b ==> IsSpace(line[j])
    ensures AllSpace(line[a..b])
  {
    assert forall j :: 0 <= j < b - a ==> line[a..b][j] == line[a + j];
  }

  /** A suffix is the slice up to a later position followed by the suffix from there. */
  lemma SplitAt(s: string, a: nat, b: nat)
    requires a <= b <= |s|
    ensures s[a..] == s[a..b] + s[b..]
  {
  }

  lemma ContentFormIntro(c: string, w: string, n: string, d: string, e: string)
    requires c == w + n + d + e && AllSpace(w) && n != [] && NoSpace(n) && NoNewline(d) && (e == [] || e == "\n")
    ensures ContentForm(c)
  {
  }

  lemma ContentFormFrom(line: string, i: nat)
    requires i <= |line| && ContentForm(line[i..])
    ensures ContentFrom(line, i)
  {
    var w: string, n: string, d: string, e: string :|
      line[i..] == w + n + d + e && AllSpace(w) && n != [] && NoSpace(n) && NoNewline(d) && (e == [] || e == "\n");
    ContentPiecesFrom(line, i, w, n, d, e);
  }

  lemma ContentPiecesFrom(line: string, i: nat, w: string, n: string, d: string, e: string)
    requires i <= |line| && line[i..] == w + n + d + e
    requires AllSpace(w) && n != [] && NoSpace(n) && NoNewline(d) && (e == [] || e == "\n")
    ensures ContentFrom(line, i)
  {
    var c := line[i..];
    assert forall j :: 0 <= j < |c| ==> line[i + j] == c[j];
    var k := i + |w|;
    assert c[|w|] == n[0];
    SkipSpacesAt(line, i, k);
    forall j | k <= j < |line| - 1 ensures line[j] != '\n' {
      assert line[j] == c[j - i];
      if j - i < |w| + |n| {
        assert c[j - i] == n[j - i - |w|];
      } else {
        assert c[j - i] == d[j - i - |w| - |n|];
      }
    }
  }

  /** Where a character other than whitespace stands, the content group only
      asks that no line feed comes before the last character. */
  lemma ContentAfterMark(line: string, x: nat)
    requires x < |line| && !IsSpace(line[x])
    ensures ContentFrom(line, x) <==> forall j :: x <= j < |line| - 1 ==> line[j] != '\n'
  {
    assert SkipSpaces(line, x) == x;
  }

  // ---------------------------------------------------------------------
  // t_HEADER = ^\s*#{1,6}\s(?P<content>\s*[^\s]+.*\n?)$

  /** The header pattern as its regular expression states it, `c` being its content group. */
  ghost predicate HeaderForm(line: string, c: string) {
    exists w: string, h: nat, s: char ::
      line == w + Repeat('#', h) + [s] + c && AllSpace(w) && 1 <= h <= 6 && IsSpace(s) && ContentForm(c)
  }

  /** `HEADER.fullmatch(line)`: its "content" group, or None when the line is
      no header.  Neither `\s*` nor `#{1,6}` can give anything back, since
      what follows each of them must be of another kind. */
  function HeaderMatch(line: string): (r: Option<string>)
    ensures r.Some? ==> |r.value| < |line| && r.value == line[|line| - |r.value|..]
  {
    var k := SkipSpaces(line, 0);
    var m := SkipRun(line, k, '#');
    if 1 <= m - k <= 6 && m < |line| && IsSpace(line[m]) && ContentFrom(line, m + 1)
    then Some(line[m + 1..])
    else None
  }

  lemma HeaderMatchSound(line: string)
    requires HeaderMatch(line).Some?
    ensures HeaderForm(line, HeaderMatch(line).value)
  {
    var k := SkipSpaces(line, 0);
    var m := SkipRun(line, k, '#');
    ContentFromForm(line, m + 1);
    HeaderFormAt(line, k, m);
  }

  /** Whitespace up to `k`, one to six `#` up to `m`, whitespace at `m`, and a content group after it. */
  lemma HeaderFormAt(line: string, k: nat, m: nat)
    requires k < m < |line| && m - k <= 6 && IsSpace(line[m]) && ContentForm(line[m + 1..])
    requires forall j :: 0 <= j < k ==> IsSpace(line[j])
    requires forall j :: k <= j < m ==> line[j] == '#'
    ensures HeaderForm(line, line[m + 1..])
  {
    var w, hs, s, c := line[..k], line[k..m], line[m], line[m + 1..];
    RunIsRepeat(line, k, m, '#');
    assert AllSpace(w);
    SplitAround(line, k, m);
    HeaderFormIntro(line, w, m - k, s, c);
  }

  /** A run of `c` between `k` and `m` reads as `m - k` copies of `c`. */
  lemma RunIsRepeat(line: string, k: nat, m: nat, c: char)
    requires k <= m <= |line|
    requires forall j :: k <= j < m ==> line[j] == c
    ensures line[k..m] == Repeat(c, m - k)
  {
  }

  lemma SplitAround(line: string, k: nat, m: nat)
    requires k <= m < |line|
    ensures line == line[..k] + line[k..m] + [line[m]] + line[m + 1..]
  {
    assert line[..m] == line[..k] + line[k..m];
    assert line[m..] == [line[m]] + line[m + 1..];
    assert line == line[..m] + line[m..];
  }

  lemma HeaderFormIntro(line: string, w: string, h: nat, s: char, c: string)
    requires line == w + Repeat('#', h) + [s] + c && AllSpace(w) && 1 <= h <= 6 && IsSpace(s) && ContentForm(c)
    ensures HeaderForm(line, c)
  {
  }

  lemma HeaderMatchComplete(line: string, w: string, h: nat, s: char, c: string)
    requires line == w + Repeat('#', h) + [s] + c
    requires AllSpace(w) && 1 <= h <= 6 && IsSpace(s) && ContentForm(c)
    ensures HeaderMatch(line) == Some(c)
  {
    Pieces4(line, w, Repeat('#', h), [s], c);
    HeaderAt(line, |w|, |w| + h, c);
  }

  lemma HeaderAt(line: string, k: nat, m: nat, c: string)
    requires k < m < |line| && m - k <= 6 && IsSpace(line[m]) && c == line[m + 1..] && ContentForm(c)
    requires forall j :: 0 <= j < k ==> IsSpace(line[j])
    requires forall j :: k <= j < m ==> line[j] == '#'
    ensures HeaderMatch(line) == Some(c)
  {
    SkipSpacesAt(line, 0, k);
    SkipRunAt(line, k, '#', m);
    ContentFormFrom(line, m + 1);
  }

  lemma HeaderMatchIff(line: string, c: string)
    ensures HeaderMatch(line) == Some(c) <==> HeaderForm(line, c)
  {
    if HeaderMatch(line) == Some(c) {
      HeaderMatchSound(line);
    }
    if HeaderForm(line, c) {
      var w: string, h: nat, s: char :|
        line == w + Repeat('#', h) + [s] + c && AllSpace(w) && 1 <= h <= 6 && IsSpace(s) && ContentForm(c);
      HeaderMatchComplete(line, w, h, s, c);
    }
  }

  // ---------------------------------------------------------------------
  // t_LIST = ^\s*([*\-+]\s|\d+\.\s)(?P<content>\s*[^\s]+.*\n?)$

  predicate IsBullet(c: char) { c == '*' || c == '-' || c == '+' }

  /** The marker alternation `[*\-+]\s|\d+\.\s` as its regular expression states it. */
  ghost predicate ListMarker(m: string) {
    (|m| == 2 && IsBullet(m[0]) && IsSpace(m[1]))
    || (|m| >= 3 && AllDigits(m[..|m| - 2]) && m[|m| - 2] == '.' && IsSpace(m[|m| - 1]))
  }

  /** The list-item pattern as its regular expression states it, `c` being its content group. */
  ghost predicate ListForm(line: string, c: string) {
    exists w: string, m: string :: line == w + m + c && AllSpace(w) && ListMarker(m) && ContentForm(c)
  }

  /** Where the list marker that starts at `k` ends, or `k` when none starts there. */
  function MarkerEnd(line: string, k: nat): (e: nat)
    requires k <= |line|
    ensures k <= e <= |line|
    ensures e > k ==> ListMarker(line[k..e])
  {
    if k + 2 <= |line| && IsBullet(line[k]) && IsSpace(line[k + 1]) then k + 2
    else
      var d := SkipDigits(line, k);
      if d > k && d + 2 <= |line| && line[d] == '.' && IsSpace(line[d + 1]) then
        assert line[k..d + 2][..d - k] == line[k..d];
        d + 2
      else k
  }

  /** `LIST.fullmatch(line)`: its "content" group, or None when the line is no list item. */
  function ListMatch(line: string): (r: Option<string>)
    ensures r.Some? ==> |r.value| < |line| && r.value == line[|line| - |r.value|..]
  {
    var k := SkipSpaces(line, 0);
    var e := MarkerEnd(line, k);
    if e > k && ContentFrom(line, e) then Some(line[e..]) else None
  }

  lemma ListMatchSound(line: string)
    requires ListMatch(line).Some?
    ensures ListForm(line, ListMatch(line).value)
  {
    var k := SkipSpaces(line, 0);
    var e := MarkerEnd(line, k);
    var w, m, c := line[..k], line[k..e], line[e..];
    assert ListMatch(line).value == c;
    assert line == w + m + c;
    assert AllSpace(w) by {
      forall j | 0 <= j < k ensures IsSpace(w[j]) { assert w[j] == line[j]; }
    }
    ContentFromForm(line, e);
    ListFormIntro(line, w, m, c);
  }

  lemma ListFormIntro(line: string, w: string, m: string, c: string)
    requires line == w + m + c && AllSpace(w) && ListMarker(m) && ContentForm(c)
    ensures ListForm(line, c)
  {
  }

  /** A marker that stands at `k` is the one the recognizer reads there. */
  lemma MarkerEndOf(line: string, k: nat, m: string)
    requires k + |m| <= |line| && line[k..k + |m|] == m && ListMarker(m)
    ensures MarkerEnd(line, k) == k + |m|
  {
    assert forall j :: 0 <= j < |m| ==> line[k + j] == m[j];
    if !(|m| == 2 && IsBullet(m[0]) && IsSpace(m[1])) {
      var ds := m[..|m| - 2];
      assert IsDigit(ds[0]) && m[0] == ds[0];
      assert forall j :: k <= j < k + |m| - 2 ==> line[j] == ds[j - k];
      SkipDigitsAt(line, k, k + |m| - 2);
    }
  }

  lemma ListMatchComplete(line: string, w: string, m: string, c: string)
    requires line == w + m + c
    requires AllSpace(w) && ListMarker(m) && ContentForm(c)
    ensures ListMatch(line) == Some(c)
  {
    var k, e := |w|, |w| + |m|;
    assert forall j :: 0 <= j < k ==> line[j] == w[j];
    assert line[k..e] == m;
    assert line[e..] == c;
    assert !IsSpace(m[0]) by {
      if |m| >= 3 { assert m[0] == m[..|m| - 2][0]; }
    }
    assert line[k] == m[0];
    SkipSpacesAt(line, 0, k);
    MarkerEndOf(line, k, m);
    ContentFormFrom(line, e);
  }

  lemma ListMatchIff(line: string, c: string)
    ensures ListMatch(line) == Some(c) <==> ListForm(line, c)
  {
    if ListMatch(line) == Some(c) {
      ListMatchSound(line);
    }
    if ListForm(line, c) {
      var w: string, m: string :| line == w + m + c && AllSpace(w) && ListMarker(m) && ContentForm(c);
      ListMatchComplete(line, w, m, c);
    }
  }

  // ---------------------------------------------------------------------
  // t_BLOCKQUOTE = ^\s*(?P<lv>>+)(?P<content>\s*[^\s]+.*\n?)$

  /** The blockquote pattern as its regular expression states it, with `lv`
      the length of its "lv" group and `c` its content group. */
  ghost predicate BlockquoteForm(line: string, lv: nat, c: string) {
    exists w: string :: line == w + Repeat('>', lv) + c && AllSpace(w) && lv >= 1 && ContentForm(c)
  }

  /** A reading of the line as a blockquote: past the leading whitespace,
      `lv` of its run of marks, then a content group `c` taking the rest. */
  predicate QuoteReading(line: string, lv: nat, c: string) {
    var k := SkipSpaces(line, 0);
    1 <= lv <= SkipRun(line, k, '>') - k && c == line[k + lv..] && ContentFrom(line, k + lv)
  }

  /** `BLOCKQUOTE.fullmatch(line)`: the length of its "lv" group and its
      "content" group, or None.  The greedy `>+` gives back one `>` to the
      content group when the content would otherwise be blank. */
  function BlockquoteMatch(line: string): Option<(nat, string)> {
    var k := SkipSpaces(line, 0);
    var g := SkipRun(line, k, '>');
    if g > k && ContentFrom(line, g) then Some((g - k, line[g..]))
    else if g > k + 1 && ContentFrom(line, g - 1) then Some((g - 1 - k, line[g - 1..]))
    else None
  }

  /** What the blockquote pattern matches is a reading of the line as a blockquote. */
  lemma BlockquoteMatchReads(line: string)
    requires BlockquoteMatch(line).Some?
    ensures QuoteReading(line, BlockquoteMatch(line).value.0, BlockquoteMatch(line).value.1)
  {
  }

  /** Every reading of a line as a blockquote puts its `>` run right after the
      leading whitespace, within the line's run of `>`. */
  lemma BlockquoteFormShape(line: string, lv: nat, c: string)
    requires BlockquoteForm(line, lv, c)
    ensures QuoteReading(line, lv, c)
  {
    var w: string :| line == w + Repeat('>', lv) + c && AllSpace(w) && lv >= 1 && ContentForm(c);
    Pieces(line, w, Repeat('>', lv), c);
    QuoteAt(line, |w|, lv, c);
  }

  lemma QuoteAt(line: string, k: nat, lv: nat, c: string)
    requires 1 <= lv && k + lv <= |line| && c == line[k + lv..] && ContentForm(c)
    requires forall j :: 0 <= j < k ==> IsSpace(line[j])
    requires forall j :: k <= j < k + lv ==> line[j] == '>'
    ensures QuoteReading(line, lv, c)
  {
    SkipSpacesAt(line, 0, k);
    ContentFormFrom(line, k + lv);
  }

  lemma BlockquoteMatchSound(line: string)
    requires BlockquoteMatch(line).Some?
    ensures BlockquoteForm(line, BlockquoteMatch(line).value.0, BlockquoteMatch(line).value.1)
  {
    BlockquoteMatchReads(line);
    QuoteFormAt(line, BlockquoteMatch(line).value.0, BlockquoteMatch(line).value.1);
  }

  lemma QuoteFormAt(line: string, lv: nat, c: string)
    requires QuoteReading(line, lv, c)
    ensures BlockquoteForm(line, lv, c)
  {
    var k := SkipSpaces(line, 0);
    var w, marks := line[..k], line[k..k + lv];
    assert marks == Repeat('>', lv) by {
      forall j | 0 <= j < lv ensures marks[j] == '>' { assert marks[j] == line[k + j]; }
    }
    assert line == w + marks + c;
    assert AllSpace(w) by {
      forall j | 0 <= j < k ensures IsSpace(w[j]) { assert w[j] == line[j]; }
    }
    ContentFromForm(line, k + lv);
    BlockquoteFormIntro(line, w, lv, c);
  }

  lemma BlockquoteFormIntro(line: string, w: string, lv: nat, c: string)
    requires line == w + Repeat('>', lv) + c && AllSpace(w) && lv >= 1 && ContentForm(c)
    ensures BlockquoteForm(line, lv, c)
  {
  }

  /** Any reading of the line as a blockquote is matched, with at least as long an "lv" group. */
  lemma BlockquoteMatchComplete(line: string, lv: nat, c: string)
    requires BlockquoteForm(line, lv, c)
    ensures BlockquoteMatch(line).Some? && lv <= BlockquoteMatch(line).value.0
  {
    BlockquoteFormShape(line, lv, c);
    ReadingMatched(line, lv, c);
  }

  lemma ReadingMatched(line: string, lv: nat, c: string)
    requires QuoteReading(line, lv, c)
    ensures BlockquoteMatch(line).Some? && lv <= BlockquoteMatch(line).value.0
  {
    var k := SkipSpaces(line, 0);
    var g := SkipRun(line, k, '>');
    if k + lv < g {
      ContentAfterMark(line, k + lv);
      ContentAfterMark(line, g - 1);
      assert ContentFrom(line, g - 1);
    }
  }

  lemma BlockquoteMatchIsLongest(line: string, lv: nat, c: string)
    ensures BlockquoteMatch(line) == Some((lv, c)) <==>
      BlockquoteForm(line, lv, c) && forall lv2: nat, c2: string :: BlockquoteForm(line, lv2, c2) ==> lv2 <= lv
  {
    if BlockquoteMatch(line) == Some((lv, c)) {
      MatchIsLongest(line);
    }
    if BlockquoteForm(line, lv, c) && forall lv2: nat, c2: string :: BlockquoteForm(line, lv2, c2) ==> lv2 <= lv {
      LongestIsMatch(line, lv, c);
    }
  }

  lemma MatchIsLongest(line: string)
    requires BlockquoteMatch(line).Some?
    ensures BlockquoteForm(line, BlockquoteMatch(line).value.0, BlockquoteMatch(line).value.1)
    ensures forall lv2: nat, c2: string :: BlockquoteForm(line, lv2, c2) ==> lv2 <= BlockquoteMatch(line).value.0
  {
    BlockquoteMatchSound(line);
    forall lv2: nat, c2: string | BlockquoteForm(line, lv2, c2)
      ensures lv2 <= BlockquoteMatch(line).value.0
    {
      BlockquoteMatchComplete(line, lv2, c2);
    }
  }

  lemma LongestIsMatch(line: string, lv: nat, c: string)
    requires BlockquoteForm(line, lv, c)
    requires forall lv2: nat, c2: string :: BlockquoteForm(line, lv2, c2) ==> lv2 <= lv
    ensures BlockquoteMatch(line) == Some((lv, c))
  {
    BlockquoteMatchComplete(line, lv, c);
    BlockquoteMatchSound(line);
    NoLongerMatch(line, lv, c);
  }

  lemma NoLongerMatch(line: string, lv: nat, c: string)
    requires BlockquoteForm(line, lv, c)
    requires BlockquoteMatch(line).Some? && BlockquoteMatch(line).value.0 == lv
    ensures BlockquoteMatch(line) == Some((lv, c))
  {
    BlockquoteFormShape(line, lv, c);
    BlockquoteMatchReads(line);
    SameReading(line, lv, c, BlockquoteMatch(line).value.1);
  }

  /** Two readings of a line with the same "lv" group have the same content group. */
  lemma SameReading(line: string, lv: nat, c: string, c2: string)
    requires QuoteReading(line, lv, c) && QuoteReading(line, lv, c2)
    ensures c == c2
  {
  }

  // ---------------------------------------------------------------------
  // t_CODEBLOCK_START = ^`{3}(?P<lang>[^`\n]*)\n$    t_CODEBLOCK_END = ^\s*`{3}\n?$

  predicate IsLangChar(c: char) { c != '`' && c != '\n' }

  /** `CODEBLOCK_START.fullmatch(line)`: its "lang" group, or None. */
  function CodeFenceStart(line: string): (r: Option<string>)
    ensures r.Some? ==> |r.value| + 4 == |line| && line == "```" + r.value + "\n"
    ensures r.Some? ==> forall j :: 0 <= j < |r.value| ==> IsLangChar(r.value[j])
  {
    if |line| >= 4 && line[..3] == "```" && line[|line| - 1] == '\n'
       && forall j :: 3 <= j < |line| - 1 ==> IsLangChar(line[j])
    then Some(line[3..|line| - 1])
    else None
  }

  lemma CodeFenceStartIff(line: string, lang: string)
    ensures CodeFenceStart(line) == Some(lang) <==>
      line == "```" + lang + "\n" && forall j :: 0 <= j < |lang| ==> IsLangChar(lang[j])
  {
    if line == "```" + lang + "\n" && forall j :: 0 <= j < |lang| ==> IsLangChar(lang[j]) {
      assert line[..3] == "```";
      assert line[3..|line| - 1] == lang;
      forall j | 3 <= j < |line| - 1 ensures IsLangChar(line[j]) {
        assert line[j] == lang[j - 3];
      }
    }
    if CodeFenceStart(line) == Some(lang) {
      assert line == line[..3] + line[3..|line| - 1] + [line[|line| - 1]];
      forall j | 0 <= j < |lang| ensures IsLangChar(lang[j]) {
        assert lang[j] == line[j + 3];
      }
    }
  }

  /** The closing fence as its regular expression states it. */
  ghost predicate FenceEndForm(line: string) {
    exists w: string :: AllSpace(w) && (line == w + "```" || line == w + "```\n")
  }

  /** Whether `CODEBLOCK_END.fullmatch(line)` succeeds. */
  predicate IsCodeFenceEnd(line: string) {
    var k := SkipSpaces(line, 0);
    line[k..] == "```" || line[k..] == "```\n"
  }

  lemma IsCodeFenceEndIff(line: string)
    ensures IsCodeFenceEnd(line) <==> FenceEndForm(line)
  {
    var k := SkipSpaces(line, 0);
    if IsCodeFenceEnd(line) {
      assert line == line[..k] + line[k..];
      assert AllSpace(line[..k]);
    }
    if FenceEndForm(line) {
      var w: string :| AllSpace(w) && (line == w + "```" || line == w + "```\n");
      assert forall j :: 0 <= j < |w| ==> line[j] == w[j];
      assert line[|w|] == '`';
      SkipSpacesAt(line, 0, |w|);
      assert line[k..] == line[|w|..];
    }
  }

  // ---------------------------------------------------------------------
  // line.strip()[0]

  /** The first character of `line.strip()`, or None when the line is all
      whitespace (where the parser's `line.strip()[0]` raises IndexError). */
  function FirstNonSpace(line: string): (r: Option<char>)
    ensures r.None? <==> AllSpace(line)
    ensures r.Some? ==> exists k :: 0 <= k < |line| && line[k] == r.value && !IsSpace(line[k]) && AllSpace(line[..k])
  {
    var k := SkipSpaces(line, 0);
    if k < |line| then
      assert AllSpace(line[..k]);
      Some(line[k])
    else None
  }

  // ---------------------------------------------------------------------
  // How the recognizers relate

  /** The character each recognizer demands after the leading whitespace, so
      that no line is recognized twice: the order in which the parser tries
      them never decides anything. */
  lemma RecognizersExclusive(line: string)
    ensures CodeFenceStart(line).Some? ==> HeaderMatch(line).None? && ListMatch(line).None? && BlockquoteMatch(line).None?
    ensures HeaderMatch(line).Some? ==> ListMatch(line).None? && BlockquoteMatch(line).None?
    ensures ListMatch(line).Some? ==> BlockquoteMatch(line).None?
  {
    FenceExcludes(line);
    HeaderExcludes(line);
    ListExcludes(line);
  }

  lemma FenceExcludes(line: string)
    ensures CodeFenceStart(line).Some? ==> HeaderMatch(line).None? && ListMatch(line).None? && BlockquoteMatch(line).None?
  {
    if CodeFenceStart(line).Some? {
      FenceLead(line);
      if HeaderMatch(line).Some? { HeaderLead(line); }
      if ListMatch(line).Some? { ListLead(line); }
      if BlockquoteMatch(line).Some? { QuoteLead(line); }
    }
  }

  lemma HeaderExcludes(line: string)
    ensures HeaderMatch(line).Some? ==> ListMatch(line).None? && BlockquoteMatch(line).None?
  {
    if HeaderMatch(line).Some? {
      HeaderLead(line);
      if ListMatch(line).Some? { ListLead(line); }
      if BlockquoteMatch(line).Some? { QuoteLead(line); }
    }
  }

  lemma ListExcludes(line: string)
    ensures ListMatch(line).Some? ==> BlockquoteMatch(line).None?
  {
    if ListMatch(line).Some? {
      ListLead(line);
      if BlockquoteMatch(line).Some? { QuoteLead(line); }
    }
  }

  lemma FenceLead(line: string)
    requires CodeFenceStart(line).Some?
    ensures SkipSpaces(line, 0) == 0 < |line| && line[0] == '`'
  {
    assert line[0] == line[..3][0];
  }

  lemma HeaderLead(line: string)
    requires HeaderMatch(line).Some?
    ensures SkipSpaces(line, 0) < |line| && line[SkipSpaces(line, 0)] == '#'
  {
  }

  lemma ListLead(line: string)
    requires ListMatch(line).Some?
    ensures SkipSpaces(line, 0) < |line|
    ensures IsBullet(line[SkipSpaces(line, 0)]) || IsDigit(line[SkipSpaces(line, 0)])
  {
  }

  lemma QuoteLead(line: string)
    requires BlockquoteMatch(line).Some?
    ensures SkipSpaces(line, 0) < |line| && line[SkipSpaces(line, 0)] == '>'
  {
  }
}
