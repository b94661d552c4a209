/**
 * Properties of the inline tokenizer (pymdcord/main.py:46-89), stated about
 * the scan function `ScanFrame` that `ParagraphEffectParser` is proved to
 * compute.
 */
module InlineProps {
  import opened Wrappers
  import opened Triggers
  import opened InlineParser
  import opened InlineAccount

  // ---------------------------------------------------------------------
  // Nothing lost, nothing duplicated
  // ---------------------------------------------------------------------

  lemma SliceJoin(s: string, a: nat, b: nat, c: nat)
    requires a <= b <= c <= |s|
    ensures s[a..b] + s[b..c] == s[a..c]
  {
  }

  lemma SliceJoinThree(s: string, a: nat, b: nat, c: nat, d: nat)
    requires a <= b <= c <= d <= |s|
    ensures (s[a..b] + s[b..c]) + s[c..d] == s[a..d]
  {
    SliceJoin(s, a, b, c);
    SliceJoin(s, a, c, d);
  }

  lemma Associative(a: string, b: string, c: string)
    ensures (a + b) + c == a + (b + c)
  {
  }

  /** A token of a group standing in the line is read there as itself, and
      is as long as the delimiter the tree spells its kind with. */
  lemma TokenSpelling(line: string, p: nat, k: Kind, t: string)
    requires InGroup(t, k) && p + |t| <= |line| && line[p..p + |t|] == t
    ensures |t| == |Delim(k)| && Spelling(k, line, p) == t
  {
    if k == Italic {
      assert t == [line[p]];
    }
  }

  /** A closer of the opener's group is as long as the opener, and is read
      at its position as it stands in the line. */
  lemma CloserSpelling(line: string, j: nat, o: string, k: Kind)
    requires j <= |line| && CloserAt(line, j, Some(o)) && InGroup(o, k)
    ensures j + |o| <= |line| && TokenAt(line, j).value.1 == line[j..j + |o|]
    ensures Spelling(k, line, j) == line[j..j + |o|]
  {
    var k2, t := TokenAt(line, j).value.0, TokenAt(line, j).value.1;
    TokenAtStands(line, j);
    assert k2 == k;
    TokenSpelling(line, j, k, t);
    GroupLength(o, k);
  }

  lemma GroupLength(t: string, k: Kind)
    requires InGroup(t, k)
    ensures |t| == |Delim(k)|
  {
  }

  /** Two consecutive pieces of the line read as the piece they make up. */
  lemma ReadsJoin(line: string, i: nat, j: nat, e: nat, A: string, B: string, C: string)
    requires i <= j <= e <= |line|
    requires B == A + line[i..j] && C == B + line[j..e]
    ensures C == A + line[i..e]
  {
    SliceJoin(line, i, j, e);
    Associative(A, line[i..j], line[j..e]);
  }

  /** Prepending a piece of the line that the content already stands for. */
  lemma AccountsShift(line: string, i: nat, j: nat, p: int, opener: Option<string>, acc: seq<Inline>, acc2: seq<Inline>, r: Scan)
    requires i <= j <= |line|
    requires RenderAll(acc2, line, p) == RenderAll(acc, line, p) + line[i..j]
    requires Accounts(line, j, p, opener, acc2, r)
    ensures Accounts(line, i, p, opener, acc, r)
  {
    var e := if r.Closed? then r.next - |opener.value| else |line|;
    ReadsJoin(line, i, j, e, RenderAll(acc, line, p), RenderAll(acc2, line, p), RenderAll(r.children, line, p));
    assert line[i..] == line[i..|line|] && line[j..] == line[j..|line|];
  }

  /** Every character of the line is in the scanned content exactly once,
      and a frame's closer is a token of its opener's group.  `p` is where
      the frame started: the content so far stands for the characters from
      there to `i`. */
  lemma {:induction false} ScanFrameAccounts(line: string, i: nat, p: int, opener: Option<string>, acc: seq<Inline>)
    requires i <= |line| && p + |UnparseAll(acc)| == i
    ensures Accounts(line, i, p, opener, acc, ScanFrame(line, i, opener, acc))
    decreases |line| - i, 2
  {
    if i == |line| {
      assert line[i..] == [];
    } else if TokenAt(line, i).None? {
      ScanFrameLiteral(line, i, opener, acc);
      LiteralCase(line, i, p, opener, acc);
    } else {
      var k, t := TokenAt(line, i).value.0, TokenAt(line, i).value.1;
      TokenAtStands(line, i);
      if ClosesFrame(opener, k) {
        CloserSpelling(line, i, opener.value, k);
        assert line[i..i] == [];
      } else {
        OpenCase(line, i, p, opener, acc, k, t);
      }
    }
  }

  /** The scan past a literal character accounts for it. */
  lemma {:induction false} LiteralCase(line: string, i: nat, p: int, opener: Option<string>, acc: seq<Inline>)
    requires i < |line| && p + |UnparseAll(acc)| == i
    ensures Accounts(line, i, p, opener, acc, ScanFrame(line, i + 1, opener, AppendText(acc, [line[i]])))
    decreases |line| - i, 0
  {
    var acc2 := AppendText(acc, [line[i]]);
    AppendTextUnparse(acc, [line[i]]);
    var rest := ScanFrame(line, i + 1, opener, acc2);
    ScanFrameAccounts(line, i + 1, p, opener, acc2);
    LiteralAccounts(line, i, acc, p);
    AccountsShift(line, i, i + 1, p, opener, acc, acc2, rest);
  }

  /** The scan past a token that opens a nested frame accounts for it. */
  lemma {:induction false} OpenCase(line: string, i: nat, p: int, opener: Option<string>, acc: seq<Inline>, k: Kind, t: string)
    requires i < |line| && p + |UnparseAll(acc)| == i
    requires TokenAt(line, i) == Some((k, t)) && !ClosesFrame(opener, k)
    ensures Accounts(line, i, p, opener, acc, ScanFrame(line, i, opener, acc))
    decreases |line| - i, 1
  {
    var sub := ScanFrame(line, i + |t|, Some(t), []);
    if sub.Closed? {
      ScanFrameNests(line, i, opener, acc, k, t, sub.next, Span(k, sub.children));
      TokenAtStands(line, i);
      NestCase(line, i, p, opener, acc, k, t, sub);
    } else {
      ScanFrameRollsBack(line, i, opener, acc, k, t, i + |t|);
      TokenAtStands(line, i);
      RollCase(line, i, p, opener, acc, t);
    }
  }

  /** ... when the nested frame closes. */
  lemma {:induction false} NestCase(line: string, i: nat, p: int, opener: Option<string>, acc: seq<Inline>, k: Kind, t: string, sub: Scan)
    requires InGroup(t, k) && i + |t| <= |line| && line[i..i + |t|] == t && p + |UnparseAll(acc)| == i
    requires sub == ScanFrame(line, i + |t|, Some(t), []) && sub.Closed?
    ensures Accounts(line, i, p, opener, acc, ScanFrame(line, sub.next, opener, acc + [Span(k, sub.children)]))
    decreases |line| - i, 0
  {
    ScanFrameAccounts(line, i + |t|, i + |t|, Some(t), []);
    var acc2 := acc + [Span(k, sub.children)];
    NestStep(line, i, p, acc, k, t, sub);
    var rest: Scan :| rest == ScanFrame(line, sub.next, opener, acc2);
    ScanFrameAccounts(line, sub.next, p, opener, acc2);
    AccountsShift(line, i, sub.next, p, opener, acc, acc2, rest);
  }

  /** ... when the nested frame does not close. */
  lemma {:induction false} RollCase(line: string, i: nat, p: int, opener: Option<string>, acc: seq<Inline>, t: string)
    requires 1 <= |t| && i + |t| <= |line| && line[i..i + |t|] == t && p + |UnparseAll(acc)| == i
    ensures Accounts(line, i, p, opener, acc, ScanFrame(line, i + |t|, opener, AppendText(acc, t)))
    decreases |line| - i, 0
  {
    var acc2 := AppendText(acc, t);
    AppendTextUnparse(acc, t);
    var rest := ScanFrame(line, i + |t|, opener, acc2);
    ScanFrameAccounts(line, i + |t|, p, opener, acc2);
    RollStep(line, i, p, opener, acc, t, rest);
  }

  /** A nested frame that does not close: the content gains its token as text. */
  lemma RollStep(line: string, i: nat, p: int, opener: Option<string>, acc: seq<Inline>, t: string, r: Scan)
    requires i + |t| <= |line| && line[i..i + |t|] == t
    requires Accounts(line, i + |t|, p, opener, AppendText(acc, t), r)
    ensures Accounts(line, i, p, opener, acc, r)
  {
    TokenAccounts(line, i, t, acc, p);
    AccountsShift(line, i, i + |t|, p, opener, acc, AppendText(acc, t), r);
  }

  /** A nested frame that closes: the content gains the node, which reads as
      the opener, what the frame scanned and the closer, and the content
      then stands for the characters up to the end of the closer. */
  lemma NestStep(line: string, i: nat, p: int, acc: seq<Inline>, k: Kind, t: string, sub: Scan)
    requires InGroup(t, k) && i + |t| <= |line| && line[i..i + |t|] == t && p + |UnparseAll(acc)| == i
    requires sub.Closed? && i + |t| < sub.next <= |line| && Accounts(line, i + |t|, i + |t|, Some(t), [], sub)
    ensures p + |UnparseAll(acc + [Span(k, sub.children)])| == sub.next
    ensures RenderAll(acc + [Span(k, sub.children)], line, p) == RenderAll(acc, line, p) + line[i..sub.next]
  {
    var m, q, n, ch := i + |t|, sub.next - |t|, sub.next, sub.children;
    assert RenderAll(ch, line, m) == line[m..q] by {
      assert RenderAll([], line, m) == [];
    }
    assert CloserAt(line, q, Some(t)) && m <= q;
    TokenSpelling(line, i, k, t);
    CloserSpelling(line, q, t, k);
    assert m == i + |Delim(k)|;
    assert Spelling(k, line, i) == line[i..m];
    assert Spelling(k, line, q) == line[q..n];
    NodeAccounts(line, i, m, q, n, k, ch, acc, p);
  }

  /** A literal character adds itself to the content. */
  lemma LiteralAccounts(line: string, i: nat, acc: seq<Inline>, p: int)
    requires i < |line|
    ensures RenderAll(AppendText(acc, [line[i]]), line, p) == RenderAll(acc, line, p) + line[i..i + 1]
  {
    AppendTextRender(acc, [line[i]], line, p);
    assert line[i..i + 1] == [line[i]];
  }

  /** A token kept as literal text adds itself to the content. */
  lemma TokenAccounts(line: string, i: nat, t: string, acc: seq<Inline>, p: int)
    requires i + |t| <= |line| && line[i..i + |t|] == t
    ensures RenderAll(AppendText(acc, t), line, p) == RenderAll(acc, line, p) + line[i..i + |t|]
  {
    AppendTextRender(acc, t, line, p);
  }

  /** A nested node adds its opener, its content and its closer to the content,
      each as it stands in the line. */
  lemma NodeAccounts(line: string, i: nat, m: nat, q: nat, n: nat, k: Kind, ch: seq<Inline>, acc: seq<Inline>, p: int)
    requires i <= m <= q <= n <= |line| && m == i + |Delim(k)|
    requires Spelling(k, line, i) == line[i..m] && Spelling(k, line, q) == line[q..n]
    requires RenderAll(ch, line, m) == line[m..q]
    requires p + |UnparseAll(acc)| == i
    ensures p + |UnparseAll(acc + [Span(k, ch)])| == n
    ensures RenderAll(acc + [Span(k, ch)], line, p) == RenderAll(acc, line, p) + line[i..n]
  {
    SpanReads(line, i, m, q, n, k, ch);
    UnparseAllSnoc(acc, Span(k, ch));
    RenderAllSnocAt(acc, Span(k, ch), line, p, i);
  }

  /** A span whose opener, content and closer each read as the line does there
      reads as that stretch of the line. */
  lemma SpanReads(line: string, i: nat, m: nat, q: nat, n: nat, k: Kind, ch: seq<Inline>)
    requires i <= m <= q <= n <= |line| && m == i + |Delim(k)|
    requires Spelling(k, line, i) == line[i..m] && Spelling(k, line, q) == line[q..n]
    requires RenderAll(ch, line, m) == line[m..q]
    ensures |Unparse(Span(k, ch))| == n - i
    ensures Render(Span(k, ch), line, i) == line[i..n]
  {
    RenderAllLength(ch, line, m);
    RenderSpan(k, ch, line, i, m, q);
    SliceJoinThree(line, i, m, q, n);
  }

  /** The root frame has no opener, so nothing closes it: its scan always
      runs to the end of the line. */
  lemma RootNeverCloses(line: string, i: nat, acc: seq<Inline>)
    requires i <= |line|
    ensures ScanFrame(line, i, None, acc).Unclosed?
  {
    ScanFrameAccounts(line, i, i - |UnparseAll(acc)|, None, acc);
  }

  /** A paragraph line loses no character and gains none: its tree, read
      against the line, spells the line out again.  Text and the delimiters
      of every kind but italic are the line's characters verbatim, and every
      italic delimiter stands where the line has `*` or `_`. */
  lemma ParagraphAccounts(line: string)
    ensures RenderAll(ParagraphContent(line), line, 0) == line
    ensures |UnparseAll(ParagraphContent(line))| == |line|
  {
    ScanFrameAccounts(line, 0, 0, None, []);
    assert line[0..] == line;
    RenderAllLength(ParagraphContent(line), line, 0);
  }

  /** Where the line has no `*`, reading a tree against it spells every
      delimiter as the tree does. */
  lemma {:induction false} RenderWithoutStar(n: Inline, line: string, p: int)
    requires forall j :: 0 <= j < |line| ==> line[j] != '*'
    ensures Render(n, line, p) == Unparse(n)
    decreases n, 1
  {
    match n {
      case Text(_) =>
      case Span(k, ch) => RenderAllWithoutStar(ch, line, p + |Delim(k)|);
    }
  }

  lemma {:induction false} RenderAllWithoutStar(ns: seq<Inline>, line: string, p: int)
    requires forall j :: 0 <= j < |line| ==> line[j] != '*'
    ensures RenderAll(ns, line, p) == UnparseAll(ns)
    decreases ns, 0
  {
    if ns != [] {
      var front := ns[..|ns| - 1];
      RenderAllWithoutStar(front, line, p);
      RenderWithoutStar(ns[|ns| - 1], line, p + |UnparseAll(front)|);
    }
  }

  /** A paragraph line without `*` is exactly what its tree unparses to. */
  lemma ParagraphWithoutStar(line: string)
    requires forall j :: 0 <= j < |line| ==> line[j] != '*'
    ensures UnparseAll(ParagraphContent(line)) == line
  {
    ParagraphAccounts(line);
    RenderAllWithoutStar(ParagraphContent(line), line, 0);
  }

  /** A frame none of whose closers stands anywhere after its start reaches
      the end of the line, and its opener is then rolled back into text. */
  lemma UnclosedWithoutCloser(line: string, i: nat, opener: Option<string>, acc: seq<Inline>)
    requires i <= |line|
    requires forall j :: i <= j < |line| ==> !CloserAt(line, j, opener)
    ensures ScanFrame(line, i, opener, acc).Unclosed?
  {
    ScanFrameAccounts(line, i, i - |UnparseAll(acc)|, opener, acc);
  }

  // ---------------------------------------------------------------------
  // Lines without markup

  /** The line holds no `*`, `_` or backtick, and no `~~` or `||`. */
  predicate NoMarkup(line: string) {
    forall j :: 0 <= j < |line| ==>
      line[j] != '*' && line[j] != '_' && line[j] != '`'
      && (j + 1 < |line| && line[j] == '~' ==> line[j + 1] != '~')
      && (j + 1 < |line| && line[j] == '|' ==> line[j + 1] != '|')
  }

  /** Text appended in two pieces is the same as text appended at once. */
  lemma AppendTextTwice(acc: seq<Inline>, a: string, b: string)
    ensures AppendText(AppendText(acc, a), b) == AppendText(acc, a + b)
  {
    if |acc| > 0 && acc[|acc| - 1].Text? {
      var x := acc[|acc| - 1].text;
      assert x + a + b == x + (a + b);
    } else {
      assert (acc + [Text(a)])[|acc| := Text(a + b)] == acc + [Text(a + b)];
    }
  }

  /** From a position after which no token starts, the rest of the line is one piece of text. */
  lemma {:induction false} PlainFrom(line: string, i: nat, opener: Option<string>, acc: seq<Inline>)
    requires i <= |line|
    requires forall j :: i <= j < |line| ==> TokenAt(line, j).None?
    ensures ScanFrame(line, i, opener, acc) == Unclosed(if i == |line| then acc else AppendText(acc, line[i..]))
    decreases |line| - i
  {
    if i < |line| {
      ScanFrameLiteral(line, i, opener, acc);
      PlainFrom(line, i + 1, opener, AppendText(acc, [line[i]]));
      if i + 1 < |line| {
        AppendTextTwice(acc, [line[i]], line[i + 1..]);
        assert [line[i]] + line[i + 1..] == line[i..];
      } else {
        assert line[i..] == [line[i]];
      }
    }
  }

  /** A line without markup becomes a root holding the line as its only string. */
  lemma PlainLine(line: string)
    requires NoMarkup(line)
    ensures ParagraphContent(line) == if line == [] then [] else [Text(line)]
  {
    forall j | 0 <= j < |line|
      ensures TokenAt(line, j).None?
    {
    }
    PlainFrom(line, 0, None, []);
    assert line[0..] == line;
  }

}
