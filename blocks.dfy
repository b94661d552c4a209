/**
 * The block segmenter `parse` (pymdcord/main.py:41-148).
 *
 * The text is split into lines that keep their line feeds; one forward
 * pass over the line index classifies each line as the start of a code
 * fence, a header, a list item, a blockquote line or a paragraph line, in
 * that order.  Code fences, lists and blockquotes run inner loops that
 * absorb the lines that follow them.  A list or blockquote loop that meets
 * a line made of whitespace only, other than a bare line feed, raises
 * IndexError from `line.strip()[0]`; the model returns that as an outcome.
 *
 * Every loop appears twice: as a function that states what it computes,
 * and in the method `Parse`, which is proved to compute the same.
 */
module Segmenter {
  import opened Wrappers
  import opened Patterns
  import opened Lines
  import Triggers
  import InlineParser
  import InlineProps

  /** A blockquote line: the depth of its `>` run and its content. */
  datatype QuoteItem = QuoteItem(lv: nat, content: string)

  /** One entry of the list `parse` returns. */
  datatype Block =
    | CodeBlock(lang: string, code: string)
    | Header(text: string)
    | List(items: seq<string>)
    | Blockquote(quotes: seq<QuoteItem>)
    | Paragraph(content: seq<InlineParser.Inline>)

  /** What `parse` does: return its list, or raise IndexError at a line (numbered from 0). */
  datatype Outcome = Parsed(blocks: seq<Block>) | IndexError(at: nat)

  /** How an inner loop ends: with what it gathered and the index it stops at, or by raising IndexError. */
  datatype Inner<T> = Done(value: T, next: nat) | Crash(at: nat)

  // ---------------------------------------------------------------------
  // The inner loops

  /** The code-fence loop (pymdcord/main.py:97-103) from line `ind`: lines up to the
      closing fence are joined verbatim; the closing fence is consumed. */
  function FenceLoop(p: seq<string>, ind: nat, mem: string): (r: (string, nat))
    requires ind <= |p|
    ensures ind <= r.1 <= |p|
    decreases |p| - ind
  {
    if ind == |p| then (mem, ind)
    else if IsCodeFenceEnd(p[ind]) then (mem, ind + 1)
    else FenceLoop(p, ind + 1, mem + p[ind])
  }

  /** Appending a line to the last item of an accumulator (`mem[-1] += line`). */
  function ExtendLast(mem: seq<string>, line: string): (r: seq<string>)
    requires mem != []
    ensures |r| == |mem| && r[..|r| - 1] == mem[..|mem| - 1] && r[|r| - 1] == mem[|mem| - 1] + line
  {
    mem[|mem| - 1 := mem[|mem| - 1] + line]
  }

  /** The list loop (pymdcord/main.py:111-123) from line `ind` with the items gathered so far. */
  function ListLoop(p: seq<string>, ind: nat, mem: seq<string>): (r: Inner<seq<string>>)
    requires ind <= |p| && mem != []
    ensures r.Done? ==> ind <= r.next <= |p| && r.value != []
    ensures r.Crash? ==> ind <= r.at < |p| && AllSpace(p[r.at]) && p[r.at] != "\n"
    decreases |p| - ind
  {
    if ind == |p| then Done(mem, ind)
    else
      var line := p[ind];
      var flm := ListMatch(line);
      if flm.Some? then ListLoop(p, ind + 1, mem + [flm.value])
      else if line == "\n" then Done(mem, ind + 1)
      else match FirstNonSpace(line)
        case None => Crash(ind)
        case Some(c) =>
          if IsBullet(c) then ListLoop(p, ind + 1, mem)
          else ListLoop(p, ind + 1, ExtendLast(mem, line))
  }

  /** Appending a line to the content of the last blockquote item (`mem[-1]["content"] += line`). */
  function ExtendLastQuote(mem: seq<QuoteItem>, line: string): (r: seq<QuoteItem>)
    requires mem != []
    ensures |r| == |mem| && r[..|r| - 1] == mem[..|mem| - 1]
    ensures r[|r| - 1] == QuoteItem(mem[|mem| - 1].lv, mem[|mem| - 1].content + line)
  {
    mem[|mem| - 1 := QuoteItem(mem[|mem| - 1].lv, mem[|mem| - 1].content + line)]
  }

  /** The blockquote loop (pymdcord/main.py:128-142) from line `ind` with the items gathered so far. */
  function QuoteLoop(p: seq<string>, ind: nat, mem: seq<QuoteItem>): (r: Inner<seq<QuoteItem>>)
    requires ind <= |p| && mem != []
    ensures r.Done? ==> ind <= r.next <= |p| && r.value != []
    ensures r.Crash? ==> ind <= r.at < |p| && AllSpace(p[r.at]) && p[r.at] != "\n"
    decreases |p| - ind
  {
    if ind == |p| then Done(mem, ind)
    else
      var line := p[ind];
      var flm := BlockquoteMatch(line);
      if flm.Some? then QuoteLoop(p, ind + 1, mem + [QuoteItem(flm.value.0, flm.value.1)])
      else if line == "\n" then Done(mem, ind + 1)
      else match FirstNonSpace(line)
        case None => Crash(ind)
        case Some(c) =>
          if c == '>' then QuoteLoop(p, ind + 1, mem)
          else QuoteLoop(p, ind + 1, ExtendLastQuote(mem, line))
  }

  // ---------------------------------------------------------------------
  // The driver loop

  /** How the driver classifies a line (pymdcord/main.py:93-146): the recognizers are
      tried in the order code fence, header, list item, blockquote, and a line
      none of them matches is a paragraph line. */
  datatype LineKind =
    | FenceOpen(fenceLang: string)
    | HeaderLine(headerText: string)
    | ItemLine(item: string)
    | QuoteLine(depth: nat, quote: string)
    | ParagraphLine

  function Classify(line: string): (k: LineKind)
    ensures k.FenceOpen? ==> CodeFenceStart(line) == Some(k.fenceLang)
    ensures k.HeaderLine? ==> CodeFenceStart(line).None? && HeaderMatch(line) == Some(k.headerText)
    ensures k.ItemLine? ==> CodeFenceStart(line).None? && HeaderMatch(line).None? && ListMatch(line) == Some(k.item)
    ensures k.QuoteLine? ==>
      CodeFenceStart(line).None? && HeaderMatch(line).None? && ListMatch(line).None?
      && BlockquoteMatch(line) == Some((k.depth, k.quote))
    ensures k.ParagraphLine? ==>
      CodeFenceStart(line).None? && HeaderMatch(line).None? && ListMatch(line).None? && BlockquoteMatch(line).None?
  {
    match CodeFenceStart(line)
    case Some(lang) => FenceOpen(lang)
    case None =>
      match HeaderMatch(line)
      case Some(c) => HeaderLine(c)
      case None =>
        match ListMatch(line)
        case Some(c) => ItemLine(c)
        case None =>
          match BlockquoteMatch(line)
          case Some(q) => QuoteLine(q.0, q.1)
          case None => ParagraphLine
  }

  /** The block that starts at line `ind` (pymdcord/main.py:92-146), with the index of
      the line after it, or the IndexError its inner loop raises. */
  function BlockAt(p: seq<string>, ind: nat): (r: Inner<Block>)
    requires ind < |p|
    ensures r.Done? ==> ind < r.next <= |p|
    ensures r.Crash? ==> ind < r.at < |p| && AllSpace(p[r.at]) && p[r.at] != "\n"
  {
    match Classify(p[ind])
    case FenceOpen(lang) =>
      var code := FenceLoop(p, ind + 1, "");
      Done(CodeBlock(lang, code.0), code.1)
    case HeaderLine(c) => Done(Header(c), ind + 1)
    case ItemLine(c) =>
      (match ListLoop(p, ind + 1, [c])
       case Crash(at) => Crash(at)
       case Done(items, next) => Done(List(items), next))
    case QuoteLine(lv, c) =>
      (match QuoteLoop(p, ind + 1, [QuoteItem(lv, c)])
       case Crash(at) => Crash(at)
       case Done(items, next) => Done(Blockquote(items), next))
    case ParagraphLine => Done(Paragraph(InlineParser.ParagraphContent(p[ind])), ind + 1)
  }

  /** The driver loop (pymdcord/main.py:91-147) from line `ind` with the blocks emitted so far. */
  function ParseFrom(p: seq<string>, ind: nat, res: seq<Block>): Outcome
    requires ind <= |p|
    decreases |p| - ind
  {
    if ind == |p| then Parsed(res)
    else
      match BlockAt(p, ind)
      case Crash(at) => IndexError(at)
      case Done(b, next) => ParseFrom(p, next, res + [b])
  }

  /** What `parse(t)` returns. */
  function ParseText(t: string): Outcome {
    ParseFrom(SplitLines(t), 0, [])
  }

  // One step of the driver loop, and the block each kind of line starts.

  lemma ParseFromStep(p: seq<string>, here: nat, res: seq<Block>, r: Inner<Block>)
    requires here < |p| && BlockAt(p, here) == r
    ensures r.Crash? ==> ParseFrom(p, here, res) == IndexError(r.at)
    ensures r.Done? ==> r.next <= |p| && ParseFrom(p, here, res) == ParseFrom(p, r.next, res + [r.value])
  {
  }

  lemma ParseFromEnd(p: seq<string>, res: seq<Block>)
    ensures ParseFrom(p, |p|, res) == Parsed(res)
  {
  }

  lemma FenceStep(p: seq<string>, here: nat, lang: string, code: string, next: nat)
    requires here < |p| && Classify(p[here]) == FenceOpen(lang) && FenceLoop(p, here + 1, "") == (code, next)
    ensures BlockAt(p, here) == Done(CodeBlock(lang, code), next)
  {
  }

  lemma HeaderStep(p: seq<string>, here: nat, c: string)
    requires here < |p| && Classify(p[here]) == HeaderLine(c)
    ensures BlockAt(p, here) == Done(Header(c), here + 1)
  {
  }

  lemma ListStep(p: seq<string>, here: nat, c: string, r: Inner<seq<string>>)
    requires here < |p| && Classify(p[here]) == ItemLine(c) && ListLoop(p, here + 1, [c]) == r
    ensures BlockAt(p, here) == match r case Crash(at) => Crash(at) case Done(items, next) => Done(List(items), next)
  {
  }

  lemma QuoteStep(p: seq<string>, here: nat, lv: nat, c: string, r: Inner<seq<QuoteItem>>)
    requires here < |p| && Classify(p[here]) == QuoteLine(lv, c) && QuoteLoop(p, here + 1, [QuoteItem(lv, c)]) == r
    ensures BlockAt(p, here) == match r case Crash(at) => Crash(at) case Done(items, next) => Done(Blockquote(items), next)
  {
  }

  lemma ParagraphStep(p: seq<string>, here: nat)
    requires here < |p| && Classify(p[here]) == ParagraphLine
    ensures BlockAt(p, here) == Done(Paragraph(InlineParser.ParagraphContent(p[here])), here + 1)
  {
  }

  /** The code-fence loop of `parse` (pymdcord/main.py:96-103), from line `start`. */
  method FenceBody(p: seq<string>, start: nat) returns (mem: string, ind: nat)
    requires start <= |p|
    ensures (mem, ind) == FenceLoop(p, start, "")
  {
    mem := "";
    ind := start;
    while ind < |p|
      invariant start <= ind <= |p|
      invariant FenceLoop(p, ind, mem) == FenceLoop(p, start, "")
      decreases |p| - ind
    {
      var line := p[ind];
      if IsCodeFenceEnd(line) {
        ind := ind + 1;
        break;
      }
      mem := mem + line;
      ind := ind + 1;
    }
  }

  /** The list loop of `parse` (pymdcord/main.py:108-123), from line `start` after the
      item line whose content is `first`; IndexError when `line.strip()[0]`
      meets a line of whitespace only. */
  method ListBody(p: seq<string>, start: nat, first: string) returns (r: Inner<seq<string>>)
    requires start <= |p|
    ensures r == ListLoop(p, start, [first])
  {
    var mem := [first];
    var ind := start;
    while ind < |p|
      invariant start <= ind <= |p| && mem != []
      invariant ListLoop(p, ind, mem) == ListLoop(p, start, [first])
      decreases |p| - ind
    {
      var line := p[ind];
      var flm := ListMatch(line);
      var continued := false;
      if flm.None? && line != "\n" {
        var lead := FirstNonSpace(line);
        if lead.None? {
          return Crash(ind);
        }
        continued := !IsBullet(lead.value);
      }
      if flm.Some? || continued {
        if flm.Some? {
          mem := mem + [flm.value];
        } else {
          mem := ExtendLast(mem, line);
        }
      } else if line == "\n" {
        ind := ind + 1;
        break;
      }
      ind := ind + 1;
    }
    return Done(mem, ind);
  }

  /** The blockquote loop of `parse` (pymdcord/main.py:124-143), from line `start` after
      the blockquote line read as `first`. */
  method QuoteBody(p: seq<string>, start: nat, first: QuoteItem) returns (r: Inner<seq<QuoteItem>>)
    requires start <= |p|
    ensures r == QuoteLoop(p, start, [first])
  {
    var mem := [first];
    var ind := start;
    while ind < |p|
      invariant start <= ind <= |p| && mem != []
      invariant QuoteLoop(p, ind, mem) == QuoteLoop(p, start, [first])
      decreases |p| - ind
    {
      var line := p[ind];
      var flm := BlockquoteMatch(line);
      var continued := false;
      if flm.None? && line != "\n" {
        var lead := FirstNonSpace(line);
        if lead.None? {
          return Crash(ind);
        }
        continued := lead.value != '>';
      }
      if flm.Some? || continued {
        if flm.Some? {
          mem := mem + [QuoteItem(flm.value.0, flm.value.1)];
        } else {
          mem := ExtendLastQuote(mem, line);
        }
      } else if line == "\n" {
        ind := ind + 1;
        break;
      }
      ind := ind + 1;
    }
    return Done(mem, ind);
  }

  /** `parse`, as the source writes it: the driver loop, which runs the inner
      loops above for code fences, lists and blockquotes and the inline
      tokenizer for paragraph lines. */
  method Parse(t: string) returns (out: Outcome)
    ensures out == ParseText(t)
  {
    var p := SplitLines(t);
    ghost var target := ParseText(t);
    var res: seq<Block> := [];
    var ind := 0;
    while ind < |p|
      invariant 0 <= ind <= |p|
      invariant ParseFrom(p, ind, res) == target
      decreases |p| - ind
    {
      var line := p[ind];
      var here := ind;
      ind := ind + 1;
      var fence := CodeFenceStart(line);
      if fence.Some? {
        var mem;
        mem, ind := FenceBody(p, ind);
        FenceStep(p, here, fence.value, mem, ind);
        ParseFromStep(p, here, res, Done(CodeBlock(fence.value, mem), ind));
        res := res + [CodeBlock(fence.value, mem)];
        continue;
      }
      var header := HeaderMatch(line);
      if header.Some? {
        HeaderStep(p, here, header.value);
        ParseFromStep(p, here, res, Done(Header(header.value), ind));
        res := res + [Header(header.value)];
        continue;
      }
      var item := ListMatch(line);
      if item.Some? {
        var items := ListBody(p, ind, item.value);
        ListStep(p, here, item.value, items);
        if items.Crash? {
          ParseFromStep(p, here, res, Crash(items.at));
          return IndexError(items.at);
        }
        ParseFromStep(p, here, res, Done(List(items.value), items.next));
        res := res + [List(items.value)];
        ind := items.next;
        continue;
      }
      var quote := BlockquoteMatch(line);
      if quote.Some? {
        var items := QuoteBody(p, ind, QuoteItem(quote.value.0, quote.value.1));
        QuoteStep(p, here, quote.value.0, quote.value.1, items);
        if items.Crash? {
          ParseFromStep(p, here, res, Crash(items.at));
          return IndexError(items.at);
        }
        ParseFromStep(p, here, res, Done(Blockquote(items.value), items.next));
        res := res + [Blockquote(items.value)];
        ind := items.next;
        continue;
      }
      ParagraphStep(p, here);
      ParseFromStep(p, here, res, Done(Paragraph(InlineParser.ParagraphContent(line)), ind));
      InlineProps.RootNeverCloses(line, 0, []);
      var _, node := InlineParser.ParagraphEffectParser(line, 0, None, Triggers.Plain, true);
      res := res + [Paragraph(node.node.children)];
    }
    return Parsed(res);
  }

}
