/**
 * What the trees of the inline tokenizer (pymdcord/main.py:46-89) stand
 * for: the characters of the line they were scanned from.
 *
 * A tree does not record which of `*` and `_` opened or closed an italic
 * span, so it is read back against the line: `Render` spells every node as
 * `Unparse` does, except that an italic delimiter standing at a position
 * where the line has one of the italic tokens is spelled as the line spells
 * it there.  Text, and the delimiters of every other kind, are spelled
 * exactly as the tree holds them.
 */
module InlineAccount {
  import opened Wrappers
  import opened Triggers
  import opened InlineParser

  /** The delimiter of kind `k` as read at position `p` of the line. */
  function Spelling(k: Kind, line: string, p: int): (d: string)
    ensures |d| == |Delim(k)|
  {
    if k == Italic && 0 <= p < |line| && (line[p] == '*' || line[p] == '_') then [line[p]] else Delim(k)
  }

  /** A node as read from position `p` of the line. */
  function Render(n: Inline, line: string, p: int): string
    decreases n, 1
  {
    match n
    case Text(s) => s
    case Span(k, ch) =>
      Spelling(k, line, p) + RenderAll(ch, line, p + |Delim(k)|)
      + Spelling(k, line, p + |Delim(k)| + |UnparseAll(ch)|)
  }

  /** A node's content as read from position `p` of the line. */
  function RenderAll(ns: seq<Inline>, line: string, p: int): string
    decreases ns, 0
  {
    if ns == [] then ""
    else
      var front := ns[..|ns| - 1];
      RenderAll(front, line, p) + Render(ns[|ns| - 1], line, p + |UnparseAll(front)|)
  }

  lemma {:induction false} RenderLength(n: Inline, line: string, p: int)
    ensures |Render(n, line, p)| == |Unparse(n)|
    decreases n, 1
  {
    match n {
      case Text(_) =>
      case Span(k, ch) => RenderAllLength(ch, line, p + |Delim(k)|);
    }
  }

  lemma {:induction false} RenderAllLength(ns: seq<Inline>, line: string, p: int)
    ensures |RenderAll(ns, line, p)| == |UnparseAll(ns)|
    decreases ns, 0
  {
    if ns != [] {
      var front := ns[..|ns| - 1];
      RenderAllLength(front, line, p);
      RenderLength(ns[|ns| - 1], line, p + |UnparseAll(front)|);
    }
  }

  lemma RenderAllSnoc(ns: seq<Inline>, n: Inline, line: string, p: int)
    ensures RenderAll(ns + [n], line, p) == RenderAll(ns, line, p) + Render(n, line, p + |UnparseAll(ns)|)
  {
    assert (ns + [n])[..|ns|] == ns;
  }

  /** A span read from `p`: its delimiters at `p` and `q`, its content from `m`. */
  lemma RenderSpan(k: Kind, ch: seq<Inline>, line: string, p: int, m: int, q: int)
    requires m == p + |Delim(k)| && q == m + |UnparseAll(ch)|
    ensures Render(Span(k, ch), line, p) == Spelling(k, line, p) + RenderAll(ch, line, m) + Spelling(k, line, q)
  {
  }

  /** Appending a node, which is read from `q`, just past what the content stands for. */
  lemma RenderAllSnocAt(ns: seq<Inline>, n: Inline, line: string, p: int, q: int)
    requires q == p + |UnparseAll(ns)|
    ensures RenderAll(ns + [n], line, p) == RenderAll(ns, line, p) + Render(n, line, q)
  {
    RenderAllSnoc(ns, n, line, p);
  }

  /** Merging literal text reads as that text, wherever the content is read from. */
  lemma AppendTextRender(acc: seq<Inline>, s: string, line: string, p: int)
    ensures RenderAll(AppendText(acc, s), line, p) == RenderAll(acc, line, p) + s
  {
    if |acc| > 0 && acc[|acc| - 1].Text? {
      var front := acc[..|acc| - 1];
      assert AppendText(acc, s) == front + [Text(acc[|acc| - 1].text + s)];
      assert acc == front + [acc[|acc| - 1]];
      RenderAllSnoc(front, Text(acc[|acc| - 1].text + s), line, p);
      RenderAllSnoc(front, acc[|acc| - 1], line, p);
    } else {
      RenderAllSnoc(acc, Text(s), line, p);
    }
  }

  /** Whether a token that closes the frame opened by `opener` starts at `j`. */
  predicate CloserAt(line: string, j: nat, opener: Option<string>)
    requires j <= |line|
  {
    TokenAt(line, j).Some? && ClosesFrame(opener, TokenAt(line, j).value.0)
  }

  /** What a scan from position `i` with content `acc` accounts for, the
      content being read from position `p`, where the frame started: a
      frame that closes ends with a closer of its opener's group, and its
      content reads as `acc` followed by the characters between `i` and that
      closer; a frame that does not close reads as `acc` followed by
      everything up to the end of the line. */
  ghost predicate Accounts(line: string, i: nat, p: int, opener: Option<string>, acc: seq<Inline>, r: Scan)
    requires i <= |line|
  {
    (r.Closed? ==>
       opener.Some? && i + |opener.value| <= r.next <= |line|
       && CloserAt(line, r.next - |opener.value|, opener)
       && RenderAll(r.children, line, p) == RenderAll(acc, line, p) + line[i..r.next - |opener.value|])
    && (r.Unclosed? ==> RenderAll(r.children, line, p) == RenderAll(acc, line, p) + line[i..])
  }

}
