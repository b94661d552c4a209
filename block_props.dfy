/**
 * What the block segmenter (pymdcord/main.py:91-147) does, stated over its
 * functions: the dispatch order never matters, a code fence joins the lines
 * up to its closing fence verbatim, a list or blockquote runs up to the first
 * line of whitespace only (consumed when it is a bare line feed, IndexError
 * otherwise) and keeps every character of the lines it absorbs except the
 * markers and the lines it drops, and the driver emits at most one block per
 * line and raises IndexError only at a line of whitespace only.
 */
module BlockProps {
  import opened Wrappers
  import opened Patterns
  import opened Lines
  import opened Segmenter
  import InlineParser

  // ---------------------------------------------------------------------
  // Dispatch

  /** No line is recognized twice, so trying the recognizers in another order
      would classify every line the same way: a line is of a kind exactly
      when that kind's recognizer matches it. */
  lemma ClassifyAnyOrder(line: string)
    ensures CodeFenceStart(line).Some? ==> Classify(line) == FenceOpen(CodeFenceStart(line).value)
    ensures HeaderMatch(line).Some? ==> Classify(line) == HeaderLine(HeaderMatch(line).value)
    ensures ListMatch(line).Some? ==> Classify(line) == ItemLine(ListMatch(line).value)
    ensures BlockquoteMatch(line).Some? ==>
      Classify(line) == QuoteLine(BlockquoteMatch(line).value.0, BlockquoteMatch(line).value.1)
    ensures Classify(line) == ParagraphLine <==>
      CodeFenceStart(line).None? && HeaderMatch(line).None? && ListMatch(line).None? && BlockquoteMatch(line).None?
  {
    RecognizersExclusive(line);
  }

  /** A line matched by the list or blockquote pattern holds a character other than whitespace. */
  lemma MatchedNotBlank(line: string)
    ensures ListMatch(line).Some? ==> !AllSpace(line)
    ensures BlockquoteMatch(line).Some? ==> !AllSpace(line)
  {
    if ListMatch(line).Some? {
      ListLead(line);
    }
    if BlockquoteMatch(line).Some? {
      QuoteLead(line);
    }
  }

  lemma LineFeedBlank()
    ensures AllSpace("\n")
  {
  }

  /** The first line from `i` on made of whitespace only, or the end of the input. */
  function FirstBlank(p: seq<string>, i: nat): (e: nat)
    requires i <= |p|
    ensures i <= e <= |p|
    ensures forall j :: i <= j < e ==> !AllSpace(p[j])
    ensures e < |p| ==> AllSpace(p[e])
    decreases |p| - i
  {
    if i == |p| then i else if FirstNonSpace(p[i]).None? then i else FirstBlank(p, i + 1)
  }

  /** A list or blockquote loop that stops at line `e` raises IndexError there:
      the line is whitespace only but not a bare line feed. */
  predicate CrashesAt(p: seq<string>, e: nat)
    requires e <= |p|
  {
    e < |p| && p[e] != "\n"
  }

  /** Where a list or blockquote loop that stops at line `e` resumes: past a
      bare line feed, or at the end of the input. */
  function ResumeAt(p: seq<string>, e: nat): nat
    requires e <= |p|
  {
    if e < |p| then e + 1 else |p|
  }

  lemma Regroup<T>(a: seq<T>, b: seq<T>, c: seq<T>)
    ensures (a + b) + c == a + (b + c)
  {
  }

  // ---------------------------------------------------------------------
  // Code fences

  /** The fence loop joins, verbatim and unclassified, every line before the
      first closing fence `e`, and stops just past that fence; with no
      closing fence it runs to the end of the input. */
  lemma {:induction false} FenceLoopReads(p: seq<string>, i: nat, mem: string, e: nat)
    requires i <= e <= |p|
    requires forall j :: i <= j < e ==> !IsCodeFenceEnd(p[j])
    requires e < |p| ==> IsCodeFenceEnd(p[e])
    ensures FenceLoop(p, i, mem) == (mem + Join(p[i..e]), if e < |p| then e + 1 else |p|)
    decreases e - i
  {
    if i == e {
      assert p[i..e] == [];
      assert mem + Join(p[i..e]) == mem;
    } else {
      FenceLoopReads(p, i + 1, mem + p[i], e);
      assert p[i..e][1..] == p[i + 1..e];
      Regroup(mem, p[i], Join(p[i + 1..e]));
    }
  }

  /** A code block holds the lines between its opening fence and the first
      closing fence after it, and the next block starts after the closing
      fence, or at the end of the input when there is none. */
  lemma FenceBlock(p: seq<string>, i: nat, lang: string, e: nat)
    requires i < e <= |p| && Classify(p[i]) == FenceOpen(lang)
    requires forall j :: i < j < e ==> !IsCodeFenceEnd(p[j])
    requires e < |p| ==> IsCodeFenceEnd(p[e])
    ensures BlockAt(p, i) == Done(CodeBlock(lang, Join(p[i + 1..e])), if e < |p| then e + 1 else |p|)
  {
    FenceLoopReads(p, i + 1, "", e);
    assert "" + Join(p[i + 1..e]) == Join(p[i + 1..e]);
    FenceStep(p, i, lang, Join(p[i + 1..e]), if e < |p| then e + 1 else |p|);
  }

  // ---------------------------------------------------------------------
  // What the list and blockquote loops do with one line

  /** What the list or blockquote loop does with a line that is not made of
      whitespace only: open a new item, append the line to the last item,
      or drop the line. */
  datatype Act<T> = Open(item: T) | Extend(text: string) | Drop

  /** The number of items the actions open. */
  function Opened<T>(acts: seq<Act<T>>): nat {
    if acts == [] then 0 else (if acts[0].Open? then 1 else 0) + Opened(acts[1..])
  }

  // ---------------------------------------------------------------------
  // Lists

  /** pymdcord/main.py:113-119: an item line opens a new item holding its content
      group (the marker and the whitespace before it are not kept), a line
      led by a bullet that is not an item line is dropped, and any other line
      is appended to the last item. */
  function ListActOf(line: string): Act<string> {
    match ListMatch(line)
    case Some(c) => Open(c)
    case None =>
      match FirstNonSpace(line)
      case Some(c) => if IsBullet(c) then Drop else Extend(line)
      case None => Drop
  }

  /** What the list loop does with the lines `p[i..e]`, in order. */
  function ListActs(p: seq<string>, i: nat, e: nat): (acts: seq<Act<string>>)
    requires i <= e <= |p|
    ensures |acts| == e - i
    ensures forall j :: i <= j < e ==> acts[j - i] == ListActOf(p[j])
    decreases e - i
  {
    if i == e then [] else [ListActOf(p[i])] + ListActs(p, i + 1, e)
  }

  function ListApply(mem: seq<string>, a: Act<string>): (r: seq<string>)
    requires mem != []
    ensures r != []
  {
    match a
    case Open(c) => mem + [c]
    case Extend(t) => ExtendLast(mem, t)
    case Drop => mem
  }

  /** The items after the actions, one after the other. */
  function ListFold(acts: seq<Act<string>>, mem: seq<string>): (r: seq<string>)
    requires mem != []
    ensures r != []
  {
    if acts == [] then mem else ListFold(acts[1..], ListApply(mem, acts[0]))
  }

  /** The text an action adds to the items. */
  function ListPiece(a: Act<string>): string {
    match a
    case Open(c) => c
    case Extend(t) => t
    case Drop => ""
  }

  function ListText(acts: seq<Act<string>>): string {
    if acts == [] then "" else ListPiece(acts[0]) + ListText(acts[1..])
  }

  /** A line that is not whitespace only is acted on and the loop goes on. */
  lemma ListLoopStep(p: seq<string>, i: nat, mem: seq<string>)
    requires mem != [] && i < |p| && !AllSpace(p[i])
    ensures ListLoop(p, i, mem) == ListLoop(p, i + 1, ListApply(mem, ListActOf(p[i])))
  {
    LineFeedBlank();
  }

  /** A line of whitespace only ends the loop: consumed when it is a bare line feed, IndexError otherwise. */
  lemma ListLoopAtBlank(p: seq<string>, e: nat, mem: seq<string>)
    requires mem != [] && e < |p| && AllSpace(p[e])
    ensures ListLoop(p, e, mem) == if p[e] == "\n" then Done(mem, e + 1) else Crash(e)
  {
    MatchedNotBlank(p[e]);
  }

  /** The list loop acts on every line up to the first line of whitespace
      only; it stops just past that line when it is a bare line feed, raises
      IndexError there when it is any other line of whitespace only, and runs
      to the end of the input when there is no such line. */
  lemma {:induction false} ListLoopCloses(p: seq<string>, i: nat, mem: seq<string>)
    requires mem != [] && i <= |p|
    ensures ListLoop(p, i, mem) ==
      if CrashesAt(p, FirstBlank(p, i)) then Crash(FirstBlank(p, i))
      else Done(ListFold(ListActs(p, i, FirstBlank(p, i)), mem), ResumeAt(p, FirstBlank(p, i)))
    decreases |p| - i
  {
    if i < |p| {
      if AllSpace(p[i]) {
        ListLoopAtBlank(p, i, mem);
      } else {
        ListLoopStep(p, i, mem);
        ListLoopCloses(p, i + 1, ListApply(mem, ListActOf(p[i])));
        var e := FirstBlank(p, i);
        assert ListActs(p, i, e)[1..] == ListActs(p, i + 1, e);
      }
    }
  }

  lemma JoinExtendLast(mem: seq<string>, line: string)
    requires mem != []
    ensures Join(ExtendLast(mem, line)) == Join(mem) + line
  {
    var front := mem[..|mem| - 1];
    assert mem == front + [mem[|mem| - 1]];
    assert ExtendLast(mem, line) == front + [mem[|mem| - 1] + line];
    JoinSnoc(front, mem[|mem| - 1]);
    JoinSnoc(front, mem[|mem| - 1] + line);
  }

  /** Nothing is lost or duplicated: the items spell the items gathered
      before followed by the piece of every action. */
  lemma {:induction false} ListFoldJoins(acts: seq<Act<string>>, mem: seq<string>)
    requires mem != []
    ensures Join(ListFold(acts, mem)) == Join(mem) + ListText(acts)
    decreases |acts|
  {
    if acts == [] {
      assert Join(mem) + "" == Join(mem);
    } else {
      var m2 := ListApply(mem, acts[0]);
      ListFoldJoins(acts[1..], m2);
      match acts[0] {
      case Open(c) => JoinSnoc(mem, c);
      case Extend(t) => JoinExtendLast(mem, t);
      case Drop => assert Join(mem) + "" == Join(mem);
      }
      Regroup(Join(mem), ListPiece(acts[0]), ListText(acts[1..]));
    }
  }

  /** There is one more item for each item opened, and no other. */
  lemma {:induction false} ListFoldCounts(acts: seq<Act<string>>, mem: seq<string>)
    requires mem != []
    ensures |ListFold(acts, mem)| == |mem| + Opened(acts)
    decreases |acts|
  {
    if acts != [] {
      ListFoldCounts(acts[1..], ListApply(mem, acts[0]));
    }
  }

  /** `v` keeps the items of `mem`: all of them, unchanged, except that
      text may have been appended to the last one, and maybe more after them. */
  ghost predicate Keeps(mem: seq<string>, v: seq<string>) {
    mem != [] && |mem| <= |v|
    && (forall k :: 0 <= k < |mem| - 1 ==> v[k] == mem[k])
    && mem[|mem| - 1] <= v[|mem| - 1]
  }

  lemma KeepsTrans(a: seq<string>, b: seq<string>, c: seq<string>)
    requires Keeps(a, b) && Keeps(b, c)
    ensures Keeps(a, c)
  {
    var n := |a| - 1;
    if n < |b| - 1 {
      assert c[n] == b[n];
    } else {
      assert c[n][..|b[n]|] == b[n];
      assert c[n][..|a[n]|] == b[n][..|a[n]|];
    }
  }

  /** Items already gathered are never changed, except that text may be
      appended to the last of them. */
  lemma {:induction false} ListFoldKeeps(acts: seq<Act<string>>, mem: seq<string>)
    requires mem != []
    ensures Keeps(mem, ListFold(acts, mem))
    decreases |acts|
  {
    if acts == [] {
      assert mem[|mem| - 1] <= mem[|mem| - 1];
    } else {
      var m2 := ListApply(mem, acts[0]);
      ListFoldKeeps(acts[1..], m2);
      assert Keeps(mem, m2);
      KeepsTrans(mem, m2, ListFold(acts[1..], m2));
    }
  }

  // ---------------------------------------------------------------------
  // Blockquotes

  /** pymdcord/main.py:130-138: a blockquote line opens a new item of its depth and
      content, a line led by `>` that is not a blockquote line is dropped,
      and any other line is appended to the content of the last item. */
  function QuoteActOf(line: string): Act<QuoteItem> {
    match BlockquoteMatch(line)
    case Some(q) => Open(QuoteItem(q.0, q.1))
    case None =>
      match FirstNonSpace(line)
      case Some(c) => if c == '>' then Drop else Extend(line)
      case None => Drop
  }

  /** What the blockquote loop does with the lines `p[i..e]`, in order. */
  function QuoteActs(p: seq<string>, i: nat, e: nat): (acts: seq<Act<QuoteItem>>)
    requires i <= e <= |p|
    ensures |acts| == e - i
    ensures forall j :: i <= j < e ==> acts[j - i] == QuoteActOf(p[j])
    decreases e - i
  {
    if i == e then [] else [QuoteActOf(p[i])] + QuoteActs(p, i + 1, e)
  }

  function QuoteApply(mem: seq<QuoteItem>, a: Act<QuoteItem>): (r: seq<QuoteItem>)
    requires mem != []
    ensures r != []
  {
    match a
    case Open(q) => mem + [q]
    case Extend(t) => ExtendLastQuote(mem, t)
    case Drop => mem
  }

  /** The items after the actions, one after the other. */
  function QuoteFold(acts: seq<Act<QuoteItem>>, mem: seq<QuoteItem>): (r: seq<QuoteItem>)
    requires mem != []
    ensures r != []
  {
    if acts == [] then mem else QuoteFold(acts[1..], QuoteApply(mem, acts[0]))
  }

  /** The text an action adds to the items' contents. */
  function QuotePiece(a: Act<QuoteItem>): string {
    match a
    case Open(q) => q.content
    case Extend(t) => t
    case Drop => ""
  }

  function QuoteText(acts: seq<Act<QuoteItem>>): string {
    if acts == [] then "" else QuotePiece(acts[0]) + QuoteText(acts[1..])
  }

  /** The depths of the items the actions open, in order. */
  function OpenedDepths(acts: seq<Act<QuoteItem>>): seq<nat> {
    if acts == [] then [] else (if acts[0].Open? then [acts[0].item.lv] else []) + OpenedDepths(acts[1..])
  }

  function Depths(items: seq<QuoteItem>): seq<nat> {
    seq(|items|, k requires 0 <= k < |items| => items[k].lv)
  }

  function Contents(items: seq<QuoteItem>): seq<string> {
    seq(|items|, k requires 0 <= k < |items| => items[k].content)
  }

  lemma QuoteLoopStep(p: seq<string>, i: nat, mem: seq<QuoteItem>)
    requires mem != [] && i < |p| && !AllSpace(p[i])
    ensures QuoteLoop(p, i, mem) == QuoteLoop(p, i + 1, QuoteApply(mem, QuoteActOf(p[i])))
  {
    LineFeedBlank();
  }

  lemma QuoteLoopAtBlank(p: seq<string>, e: nat, mem: seq<QuoteItem>)
    requires mem != [] && e < |p| && AllSpace(p[e])
    ensures QuoteLoop(p, e, mem) == if p[e] == "\n" then Done(mem, e + 1) else Crash(e)
  {
    MatchedNotBlank(p[e]);
  }

  /** The blockquote loop ends as the list loop does, at the first line of whitespace only. */
  lemma {:induction false} QuoteLoopCloses(p: seq<string>, i: nat, mem: seq<QuoteItem>)
    requires mem != [] && i <= |p|
    ensures QuoteLoop(p, i, mem) ==
      if CrashesAt(p, FirstBlank(p, i)) then Crash(FirstBlank(p, i))
      else Done(QuoteFold(QuoteActs(p, i, FirstBlank(p, i)), mem), ResumeAt(p, FirstBlank(p, i)))
    decreases |p| - i
  {
    if i < |p| {
      if AllSpace(p[i]) {
        QuoteLoopAtBlank(p, i, mem);
      } else {
        QuoteLoopStep(p, i, mem);
        QuoteLoopCloses(p, i + 1, QuoteApply(mem, QuoteActOf(p[i])));
        var e := FirstBlank(p, i);
        assert QuoteActs(p, i, e)[1..] == QuoteActs(p, i + 1, e);
      }
    }
  }

  /** Nothing is lost or duplicated: the contents spell those gathered
      before followed by the piece of every action. */
  lemma {:induction false} QuoteFoldJoins(acts: seq<Act<QuoteItem>>, mem: seq<QuoteItem>)
    requires mem != []
    ensures Join(Contents(QuoteFold(acts, mem))) == Join(Contents(mem)) + QuoteText(acts)
    decreases |acts|
  {
    if acts == [] {
      assert Join(Contents(mem)) + "" == Join(Contents(mem));
    } else {
      var m2 := QuoteApply(mem, acts[0]);
      QuoteFoldJoins(acts[1..], m2);
      match acts[0] {
      case Open(q) =>
        assert Contents(mem + [q]) == Contents(mem) + [q.content];
        JoinSnoc(Contents(mem), q.content);
      case Extend(t) =>
        assert Contents(ExtendLastQuote(mem, t)) == ExtendLast(Contents(mem), t);
        JoinExtendLast(Contents(mem), t);
      case Drop =>
        assert Join(Contents(mem)) + "" == Join(Contents(mem));
      }
      Regroup(Join(Contents(mem)), QuotePiece(acts[0]), QuoteText(acts[1..]));
    }
  }

  /** The depths are those gathered before followed by the depth of every
      item opened, in order. */
  lemma {:induction false} QuoteFoldDepths(acts: seq<Act<QuoteItem>>, mem: seq<QuoteItem>)
    requires mem != []
    ensures Depths(QuoteFold(acts, mem)) == Depths(mem) + OpenedDepths(acts)
    decreases |acts|
  {
    if acts == [] {
      assert Depths(mem) + [] == Depths(mem);
    } else {
      var m2 := QuoteApply(mem, acts[0]);
      QuoteFoldDepths(acts[1..], m2);
      match acts[0] {
      case Open(q) =>
        assert Depths(mem + [q]) == Depths(mem) + [q.lv];
      case Extend(t) =>
        assert Depths(ExtendLastQuote(mem, t)) == Depths(mem) + [];
      case Drop =>
        assert Depths(mem) + [] == Depths(mem);
      }
      var d := if acts[0].Open? then [acts[0].item.lv] else [];
      Regroup(Depths(mem), d, OpenedDepths(acts[1..]));
    }
  }

  /** `v` keeps the blockquote items of `mem`: all of them, unchanged,
      except that text may have been appended to the content of the last
      one, whose depth stays, and maybe more after them. */
  ghost predicate QuoteKeeps(mem: seq<QuoteItem>, v: seq<QuoteItem>) {
    mem != [] && |mem| <= |v|
    && (forall k :: 0 <= k < |mem| - 1 ==> v[k] == mem[k])
    && v[|mem| - 1].lv == mem[|mem| - 1].lv
    && mem[|mem| - 1].content <= v[|mem| - 1].content
  }

  lemma QuoteKeepsTrans(a: seq<QuoteItem>, b: seq<QuoteItem>, c: seq<QuoteItem>)
    requires QuoteKeeps(a, b) && QuoteKeeps(b, c)
    ensures QuoteKeeps(a, c)
  {
    var n := |a| - 1;
    if n < |b| - 1 {
      assert c[n] == b[n];
    } else {
      assert c[n].content[..|b[n].content|] == b[n].content;
      assert c[n].content[..|a[n].content|] == b[n].content[..|a[n].content|];
    }
  }

  /** Items already gathered are never changed, except that text may be
      appended to the content of the last of them: a continuation line goes
      into the last item and nowhere else. */
  lemma {:induction false} QuoteFoldKeeps(acts: seq<Act<QuoteItem>>, mem: seq<QuoteItem>)
    requires mem != []
    ensures QuoteKeeps(mem, QuoteFold(acts, mem))
    decreases |acts|
  {
    if acts == [] {
      assert mem[|mem| - 1].content <= mem[|mem| - 1].content;
    } else {
      var m2 := QuoteApply(mem, acts[0]);
      QuoteFoldKeeps(acts[1..], m2);
      assert QuoteKeeps(mem, m2);
      QuoteKeepsTrans(mem, m2, QuoteFold(acts[1..], m2));
    }
  }

  // ---------------------------------------------------------------------
  // The driver

  /** Blocks are only ever appended, at most one per line, and IndexError is
      raised only at a later line made of whitespace only that is not a bare
      line feed. */
  lemma {:induction false} ParseFromBounds(p: seq<string>, i: nat, res: seq<Block>)
    requires i <= |p|
    ensures ParseFrom(p, i, res).Parsed? ==>
      |res| <= |ParseFrom(p, i, res).blocks| <= |res| + (|p| - i) && ParseFrom(p, i, res).blocks[..|res|] == res
    ensures ParseFrom(p, i, res).IndexError? ==>
      i < ParseFrom(p, i, res).at < |p| && AllSpace(p[ParseFrom(p, i, res).at]) && p[ParseFrom(p, i, res).at] != "\n"
    decreases |p| - i
  {
    if i < |p| && BlockAt(p, i).Done? {
      var b, next := BlockAt(p, i).value, BlockAt(p, i).next;
      ParseFromStep(p, i, res, BlockAt(p, i));
      ParseFromBounds(p, next, res + [b]);
      var r := ParseFrom(p, next, res + [b]);
      if r.Parsed? {
        assert r.blocks[..|res|] == r.blocks[..|res| + 1][..|res|];
        assert (res + [b])[..|res|] == res;
      }
    } else if i < |p| {
      ParseFromStep(p, i, res, BlockAt(p, i));
    }
  }

  /** `parse` returns at most one block per line; when it raises IndexError,
      it names a line made of whitespace only that is not a bare line feed,
      so a text without such a line is always parsed. */
  lemma ParseTextBounds(t: string)
    ensures ParseText(t).Parsed? ==> |ParseText(t).blocks| <= |SplitLines(t)|
    ensures ParseText(t).IndexError? ==>
      0 < ParseText(t).at < |SplitLines(t)| && AllSpace(SplitLines(t)[ParseText(t).at])
      && SplitLines(t)[ParseText(t).at] != "\n"
  {
    ParseFromBounds(SplitLines(t), 0, []);
  }

  /** The block a header line or a paragraph line stands for on its own. */
  function LineBlock(line: string): Block {
    match Classify(line)
    case HeaderLine(c) => Header(c)
    case _ => Paragraph(InlineParser.ParagraphContent(line))
  }

  /** The blocks of the lines `p[i..]`, each on its own. */
  function LineBlocks(p: seq<string>, i: nat): (bs: seq<Block>)
    requires i <= |p|
    ensures |bs| == |p| - i
    ensures forall j :: i <= j < |p| ==> bs[j - i] == LineBlock(p[j])
    decreases |p| - i
  {
    if i == |p| then [] else [LineBlock(p[i])] + LineBlocks(p, i + 1)
  }

  /** Lines that are all headers or paragraph lines (a blank line outside a
      list or blockquote among them) give one block each, in line order. */
  lemma {:induction false} OneBlockPerLine(p: seq<string>, i: nat, res: seq<Block>)
    requires i <= |p|
    requires forall j :: i <= j < |p| ==> Classify(p[j]).HeaderLine? || Classify(p[j]).ParagraphLine?
    ensures ParseFrom(p, i, res) == Parsed(res + LineBlocks(p, i))
    decreases |p| - i
  {
    if i == |p| {
      assert res + [] == res;
    } else {
      var b := LineBlock(p[i]);
      if Classify(p[i]).HeaderLine? {
        HeaderStep(p, i, Classify(p[i]).headerText);
      } else {
        ParagraphStep(p, i);
      }
      ParseFromStep(p, i, res, Done(b, i + 1));
      OneBlockPerLine(p, i + 1, res + [b]);
      Regroup(res, [b], LineBlocks(p, i + 1));
    }
  }

}
