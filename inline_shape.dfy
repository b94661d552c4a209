/**
 * The shape of the trees the inline tokenizer (pymdcord/main.py:46-89)
 * builds: strings are never empty and never stand side by side (literal
 * text is always merged into a preceding string), every node is of one of
 * the trigger kinds other than the shadowed inline code block, and no node
 * has a child of its own kind (a token of the frame's own group closes it
 * instead of opening a new frame).
 */
module InlineShape {
  import opened Wrappers
  import opened Triggers
  import opened InlineParser

  /** One entry of the content of a node of kind `parent`. */
  predicate ChildOk(n: Inline, parent: Kind)
    decreases n, 1
  {
    match n
    case Text(s) => s != []
    case Span(k, ch) => k != Plain && k != CodeBlock && k != parent && ContentOk(ch, k)
  }

  /** The content of a node of kind `parent`: well-formed entries, no two strings in a row. */
  predicate ContentOk(ns: seq<Inline>, parent: Kind)
    decreases ns, 0
  {
    (forall j :: 0 <= j < |ns| ==> ChildOk(ns[j], parent))
    && (forall j :: 0 < j < |ns| && ns[j].Text? ==> !ns[j - 1].Text?)
  }

  /** The kind of the frame `opener` opened: the root kind for the root, otherwise the opener's group. */
  predicate Opens(opener: Option<string>, pk: Kind) {
    if opener.None? then pk == Plain else InGroup(opener.value, pk)
  }

  lemma AppendTextOk(acc: seq<Inline>, s: string, pk: Kind)
    requires ContentOk(acc, pk) && s != []
    ensures ContentOk(AppendText(acc, s), pk)
  {
  }

  lemma SnocOk(acc: seq<Inline>, n: Inline, pk: Kind)
    requires ContentOk(acc, pk) && n.Span? && ChildOk(n, pk)
    ensures ContentOk(acc + [n], pk)
  {
  }

  /** A token that does not close the frame is of another kind than the frame. */
  lemma OtherKind(opener: Option<string>, pk: Kind, k: Kind)
    requires Opens(opener, pk) && !ClosesFrame(opener, k) && k != Plain
    ensures k != pk
  {
  }

  /** The content a scan gathers keeps the shape of a node of the frame's kind. */
  lemma {:induction false} ScanFrameShape(line: string, i: nat, opener: Option<string>, pk: Kind, acc: seq<Inline>)
    requires i <= |line| && Opens(opener, pk) && ContentOk(acc, pk)
    ensures ContentOk(ScanFrame(line, i, opener, acc).children, pk)
    decreases |line| - i, 2
  {
    if i == |line| {
    } else if TokenAt(line, i).None? {
      ScanFrameLiteral(line, i, opener, acc);
      AppendTextOk(acc, [line[i]], pk);
      ScanFrameShape(line, i + 1, opener, pk, AppendText(acc, [line[i]]));
    } else {
      var k, t := TokenAt(line, i).value.0, TokenAt(line, i).value.1;
      if !ClosesFrame(opener, k) {
        OpenShape(line, i, opener, pk, acc, k, t);
      }
    }
  }

  /** ... past a token that opens a nested frame. */
  lemma {:induction false} OpenShape(line: string, i: nat, opener: Option<string>, pk: Kind, acc: seq<Inline>, k: Kind, t: string)
    requires i < |line| && TokenAt(line, i) == Some((k, t)) && !ClosesFrame(opener, k)
    requires Opens(opener, pk) && ContentOk(acc, pk)
    ensures ContentOk(ScanFrame(line, i, opener, acc).children, pk)
    decreases |line| - i, 1
  {
    var sub := ScanFrame(line, i + |t|, Some(t), []);
    if sub.Closed? {
      ScanFrameNests(line, i, opener, acc, k, t, sub.next, Span(k, sub.children));
      NestShape(line, i, opener, pk, acc, k, t);
    } else {
      ScanFrameRollsBack(line, i, opener, acc, k, t, i + |t|);
      AppendTextOk(acc, t, pk);
      ScanFrameShape(line, i + |t|, opener, pk, AppendText(acc, t));
    }
  }

  /** ... when the nested frame closes: its node is a well-formed child. */
  lemma {:induction false} NestShape(line: string, i: nat, opener: Option<string>, pk: Kind, acc: seq<Inline>, k: Kind, t: string)
    requires i < |line| && TokenAt(line, i) == Some((k, t)) && !ClosesFrame(opener, k)
    requires Opens(opener, pk) && ContentOk(acc, pk)
    requires ScanFrame(line, i + |t|, Some(t), []).Closed?
    ensures ContentOk(ScanFrame(line, ScanFrame(line, i + |t|, Some(t), []).next, opener,
                                acc + [Span(k, ScanFrame(line, i + |t|, Some(t), []).children)]).children, pk)
    decreases |line| - i, 0
  {
    var sub: Scan :| sub == ScanFrame(line, i + |t|, Some(t), []);
    ScanFrameShape(line, i + |t|, Some(t), k, []);
    OtherKind(opener, pk, k);
    var node := Span(k, sub.children);
    assert ChildOk(node, pk);
    SnocOk(acc, node, pk);
    ScanFrameShape(line, sub.next, opener, pk, acc + [node]);
  }

  /** The content of a paragraph line is that of a well-formed root node. */
  lemma ParagraphShape(line: string)
    ensures ContentOk(ParagraphContent(line), Plain)
  {
    ScanFrameShape(line, 0, None, Plain, []);
  }

}
