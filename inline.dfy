/**
 * The inline tokenizer `paragraph_effect_parser` (pymdcord/main.py:46-89).
 *
 * One activation (a frame) scans a line from a start position.  At each
 * position it consults the trigger table: a token of the frame's own group
 * closes the frame; any other token opens a nested frame just past it.  A
 * nested frame that closes becomes a child node; one that reaches the end
 * of the line without closing is rolled back, and its token is kept as
 * literal text.  A character that starts no token is literal text.
 * Literal text is merged into a preceding text child.
 *
 * `ScanFrame` is the scan as a function; `ParagraphEffectParser` is the
 * source's recursive procedure with its while loop, proved to compute it.
 */
module InlineParser {
  import opened Wrappers
  import opened Triggers

  /** An entry of a node's "content": a string, or a nested node. */
  datatype Inline = Text(text: string) | Span(kind: Kind, children: seq<Inline>)

  /** How the scan of one frame ends: at the closing token, with the position
      just past it, or at the end of the line without a closer. */
  datatype Scan = Closed(next: nat, children: seq<Inline>) | Unclosed(children: seq<Inline>)

  /** What one call hands back besides the position: a node, or the "noclose" marker. */
  datatype FrameResult = Node(node: Inline) | NoClose

  /** The characters a node stands for, with its kind's delimiters around its
      children; italic is spelled with `_` (the tree does not say which of
      `*` and `_` the line used). */
  function Delim(k: Kind): string {
    match k
    case Plain => ""
    case Bold => "**"
    case Underline => "__"
    case Italic => "_"
    case Strikethrough => "~~"
    case Code => "`"
    case CodeBlock => "```"
    case Secret => "||"
  }

  function Unparse(n: Inline): string
    decreases n, 1
  {
    match n
    case Text(s) => s
    case Span(k, ch) => Delim(k) + UnparseAll(ch) + Delim(k)
  }

  function UnparseAll(ns: seq<Inline>): string
    decreases ns, 0
  {
    if ns == [] then "" else UnparseAll(ns[..|ns| - 1]) + Unparse(ns[|ns| - 1])
  }

  lemma UnparseAllSnoc(ns: seq<Inline>, n: Inline)
    ensures UnparseAll(ns + [n]) == UnparseAll(ns) + Unparse(n)
  {
    assert (ns + [n])[..|ns|] == ns;
  }

  /** Appending literal text to a node's content, merged into a last string
      entry when there is one (pymdcord/main.py:69-72 and 83-86). */
  function AppendText(acc: seq<Inline>, s: string): (r: seq<Inline>)
    ensures r != [] && r[|r| - 1].Text?
    ensures |acc| <= |r| <= |acc| + 1
  {
    if |acc| > 0 && acc[|acc| - 1].Text? then acc[|acc| - 1 := Text(acc[|acc| - 1].text + s)]
    else acc + [Text(s)]
  }

  /** Merging keeps the characters: the content stands for what it stood for, followed by `s`. */
  lemma AppendTextUnparse(acc: seq<Inline>, s: string)
    ensures UnparseAll(AppendText(acc, s)) == UnparseAll(acc) + s
  {
    if |acc| > 0 && acc[|acc| - 1].Text? {
      var front := acc[..|acc| - 1];
      assert AppendText(acc, s) == front + [Text(acc[|acc| - 1].text + s)];
      assert acc == front + [acc[|acc| - 1]];
      UnparseAllSnoc(front, Text(acc[|acc| - 1].text + s));
      UnparseAllSnoc(front, acc[|acc| - 1]);
    } else {
      UnparseAllSnoc(acc, Text(s));
    }
  }

  /** Whether the frame opened by `opener` (None for the root) is closed by a token of group `k`. */
  predicate ClosesFrame(opener: Option<string>, k: Kind) {
    opener.Some? && InGroup(opener.value, k)
  }

  /** The scan loop of one frame (pymdcord/main.py:55-88) from position `i`, with the
      content `acc` gathered so far.  A frame closes at a position strictly
      after the one it starts from, and within the line. */
  function ScanFrame(line: string, i: nat, opener: Option<string>, acc: seq<Inline>): (r: Scan)
    requires i <= |line|
    ensures r.Closed? ==> i < r.next <= |line|
    decreases |line| - i, 1
  {
    if i == |line| then Unclosed(acc)
    else
      var fired := TokenAt(line, i);
      if fired.None? then ScanFrame(line, i + 1, opener, AppendText(acc, [line[i]]))
      else if ClosesFrame(opener, fired.value.0) then Closed(i + |fired.value.1|, acc)
      else AfterOpen(line, i, opener, acc, fired.value.0, fired.value.1)
  }

  function AfterOpen(line: string, i: nat, opener: Option<string>, acc: seq<Inline>, k: Kind, t: string): (r: Scan)
    requires i < |line| && TokenAt(line, i) == Some((k, t))
    ensures r.Closed? ==> i < r.next <= |line|
    decreases |line| - i, 0
  {
    var sub := ScanFrame(line, i + |t|, Some(t), []);
    if sub.Closed? then ScanFrame(line, sub.next, opener, acc + [Span(k, sub.children)])
    else ScanFrame(line, i + |t|, opener, AppendText(acc, t))
  }

  /** One step of the scan at a position where no token starts. */
  lemma ScanFrameLiteral(line: string, i: nat, opener: Option<string>, acc: seq<Inline>)
    requires i < |line| && TokenAt(line, i).None?
    ensures ScanFrame(line, i, opener, acc) == ScanFrame(line, i + 1, opener, AppendText(acc, [line[i]]))
  {
  }

  /** One step of the scan at a token that opens a nested frame which closes
      at `next` with `node`: the node is appended and the scan resumes there. */
  lemma ScanFrameNests(line: string, i: nat, opener: Option<string>, acc: seq<Inline>, k: Kind, t: string, next: nat, node: Inline)
    requires i < |line| && TokenAt(line, i) == Some((k, t)) && !ClosesFrame(opener, k)
    requires ScanFrame(line, i + |t|, Some(t), []).Closed?
    requires next == ScanFrame(line, i + |t|, Some(t), []).next
    requires node == Span(k, ScanFrame(line, i + |t|, Some(t), []).children)
    ensures next <= |line|
    ensures ScanFrame(line, i, opener, acc) == ScanFrame(line, next, opener, acc + [node])
  {
    assert ScanFrame(line, i, opener, acc) == AfterOpen(line, i, opener, acc, k, t);
  }

  /** One step of the scan at a token that opens a nested frame which does not
      close: the token is literal text and the scan resumes at `next`, just past it. */
  lemma ScanFrameRollsBack(line: string, i: nat, opener: Option<string>, acc: seq<Inline>, k: Kind, t: string, next: nat)
    requires i < |line| && TokenAt(line, i) == Some((k, t)) && !ClosesFrame(opener, k)
    requires ScanFrame(line, i + |t|, Some(t), []).Unclosed?
    requires next == i + |t|
    ensures next <= |line|
    ensures ScanFrame(line, i, opener, acc) == ScanFrame(line, next, opener, AppendText(acc, t))
  {
    assert ScanFrame(line, i, opener, acc) == AfterOpen(line, i, opener, acc, k, t);
  }

  /** The content of the root node a paragraph line becomes. */
  function ParagraphContent(line: string): seq<Inline> {
    ScanFrame(line, 0, None, []).children
  }

  /** What one call of the tokenizer hands back for the scan `s` of its frame,
      opened at `start` for a node of kind `k`: past the closer and its node
      when the frame closes; otherwise its start, and its node only at the
      root ("noclose" below it). */
  function FrameOutcome(s: Scan, start: nat, k: Kind, root: bool): (nat, FrameResult) {
    if s.Closed? then (s.next, Node(Span(k, s.children)))
    else (start, if root then Node(Span(k, s.children)) else NoClose)
  }

  /** `paragraph_effect_parser`, as the source writes it: a while loop over
      the position that calls itself for each token it opens.  A frame that
      closes returns the position past its closer and a node of its own kind
      holding what it scanned; one that reaches the end of the line returns
      its start, with its node at the root and "noclose" below it. */
  method ParagraphEffectParser(line: string, startPos: nat, triggeredBy: Option<string>, typeAs: Kind, root: bool)
    returns (next: nat, res: FrameResult)
    requires startPos <= |line|
    ensures (next, res) == FrameOutcome(ScanFrame(line, startPos, triggeredBy, []), startPos, typeAs, root)
    decreases |line| - startPos, 1
  {
    var content: seq<Inline> := [];
    var ind := startPos;
    ghost var target := ScanFrame(line, startPos, triggeredBy, []);
    while ind <= |line| - 1
      invariant startPos <= ind <= |line|
      invariant target == ScanFrame(line, ind, triggeredBy, content)
      decreases |line| - ind
    {
      var fired := MatchTrigger(line, ind);
      if fired.Some? {
        var triggerType, triggered := fired.value.0, fired.value.1;
        if triggeredBy.Some? {
          InGroupIsMembership(triggeredBy.value, triggerType);
        }
        if triggeredBy.Some? && triggeredBy.value in Tokens(triggerType) {
          return ind + |triggered|, Node(Span(typeAs, content));
        }
        ind, content := OpenFrame(line, ind, triggeredBy, content, triggerType, triggered);
        continue;
      }
      ScanFrameLiteral(line, ind, triggeredBy, content);
      content := AppendText(content, [line[ind]]);
      ind := ind + 1;
    }
    assert ind == |line|;
    return startPos, if root then Node(Span(typeAs, content)) else NoClose;
  }

  /** The body of the loop above at a token `t` that does not close the frame:
      a nested call scans the frame `t` opens; its node becomes the next
      child when it closes, and otherwise `t` is literal text and the scan
      resumes just past it. */
  method OpenFrame(line: string, ind: nat, triggeredBy: Option<string>, content: seq<Inline>, k: Kind, t: string)
    returns (after: nat, content': seq<Inline>)
    requires ind < |line| && TokenAt(line, ind) == Some((k, t)) && !ClosesFrame(triggeredBy, k)
    ensures ind < after <= |line|
    ensures ScanFrame(line, after, triggeredBy, content') == ScanFrame(line, ind, triggeredBy, content)
    decreases |line| - ind, 0
  {
    var contentRes;
    after, contentRes := ParagraphEffectParser(line, ind + |t|, Some(t), k, false);
    if contentRes.NoClose? {
      ScanFrameRollsBack(line, ind, triggeredBy, content, k, t, after);
      content' := AppendText(content, t);
    } else {
      ScanFrameNests(line, ind, triggeredBy, content, k, t, after, contentRes.node);
      content' := content + [contentRes.node];
    }
  }

}
