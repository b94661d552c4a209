/**
 * Worked inputs for the block segmenter (pymdcord/main.py:91-147): how
 * single lines are classified and acted on, what the list and blockquote
 * loops gather from a few short runs of lines, and what `parse` returns for
 * a text made of one bare line feed.  The lines `#WRONG HEADER`, `* LIST`
 * and `*WRONGLIST` are lines of the demo text (pymdcord/main.py:160-165);
 * the other inputs are made up.
 */
module BlockExamples {
  import opened Wrappers
  import opened Patterns
  import opened Lines
  import opened Segmenter
  import opened BlockProps
  import InlineParser
  import InlineProps

  /** A header keeps what follows the whitespace after its `#` run. */
  lemma HeaderMatchH()
    ensures HeaderMatch("# H\n") == Some("H\n")
  {
    var line := "# H\n";
    SkipSpacesAt(line, 0, 0);
    SkipRunAt(line, 0, '#', 1);
    SkipSpacesAt(line, 2, 2);
    assert line[2..] == "H\n";
  }

  lemma HeaderContent()
    ensures Classify("# H\n") == HeaderLine("H\n")
  {
    HeaderMatchH();
    ClassifyAnyOrder("# H\n");
  }

  /** A header needs whitespace after its `#` run; without it the line is a paragraph line. */
  lemma WrongHeaderIsParagraph()
    ensures Classify("#WRONG HEADER\n") == ParagraphLine
  {
    var line := "#WRONG HEADER\n";
    SkipSpacesAt(line, 0, 0);
    SkipRunAt(line, 0, '#', 1);
    SkipDigitsAt(line, 0, 0);
    SkipRunAt(line, 0, '>', 0);
    ClassifyAnyOrder(line);
  }

  /** Seven `#` are one too many for a header. */
  lemma SevenHashesIsParagraph()
    ensures Classify("####### x\n") == ParagraphLine
  {
    var line := "####### x\n";
    SkipSpacesAt(line, 0, 0);
    SkipRunAt(line, 0, '#', 7);
    SkipDigitsAt(line, 0, 0);
    SkipRunAt(line, 0, '>', 0);
    ClassifyAnyOrder(line);
  }

  lemma ListMatchList()
    ensures ListMatch("* LIST\n") == Some("LIST\n")
  {
    var line := "* LIST\n";
    SkipSpacesAt(line, 0, 0);
    SkipSpacesAt(line, 2, 2);
    assert line[2..] == "LIST\n";
  }

  lemma ItemLineList()
    ensures Classify("* LIST\n") == ItemLine("LIST\n")
  {
    ListMatchList();
    ClassifyAnyOrder("* LIST\n");
  }

  /** A line led by a bullet without whitespace after it is no item line, and the list drops it. */
  lemma WrongListDropped()
    ensures ListActOf("*WRONGLIST\n") == Drop
    ensures !AllSpace("*WRONGLIST\n")
  {
    var line := "*WRONGLIST\n";
    SkipSpacesAt(line, 0, 0);
    SkipDigitsAt(line, 0, 0);
  }

  /** After an item line: a second item line and a dropped line, closed by a bare line feed. */
  lemma ItemThenDrop(l0: string, l1: string, l2: string, ca: string, cb: string)
    requires ListActOf(l1) == Open(cb) && !AllSpace(l1)
    requires ListActOf(l2) == Drop && !AllSpace(l2)
    ensures ListLoop([l0, l1, l2, "\n"], 1, [ca]) == Done([ca, cb], 4)
  {
    var p := [l0, l1, l2, "\n"];
    LineFeedBlank();
    assert ListApply([ca], Open(cb)) == [ca, cb];
    ListLoopStep(p, 1, [ca]);
    ListLoopStep(p, 2, [ca, cb]);
    ListLoopAtBlank(p, 3, [ca, cb]);
  }

  /** The list of the demo text: its first line is an item line, and the
      loop gathers the second item, drops the marker line without
      whitespace and consumes the bare line feed. */
  lemma DemoList()
    ensures Classify("* LIST\n") == ItemLine("LIST\n")
    ensures ListLoop(["* LIST\n", "* LIST\n", "*WRONGLIST\n", "\n"], 1, ["LIST\n"]) == Done(["LIST\n", "LIST\n"], 4)
  {
    ItemLineList();
    ListMatchList();
    MatchedNotBlank("* LIST\n");
    WrongListDropped();
    ItemThenDrop("* LIST\n", "* LIST\n", "*WRONGLIST\n", "LIST\n", "LIST\n");
  }

  /** A line that is no item line and is not led by a bullet continues the last item. */
  lemma ListContinued()
    ensures ListActOf("  more\n") == Extend("  more\n")
    ensures !AllSpace("  more\n")
  {
    var line := "  more\n";
    SkipSpacesAt(line, 0, 2);
    SkipDigitsAt(line, 2, 2);
  }

  lemma ListMatchTwo()
    ensures ListActOf("* two\n") == Open("two\n")
    ensures !AllSpace("* two\n")
  {
    var line := "* two\n";
    SkipSpacesAt(line, 0, 0);
    SkipSpacesAt(line, 2, 2);
    assert line[2..] == "two\n";
  }

  /** A continuation line goes into the item before it, whitespace and all,
      and the next item line opens a new item. */
  lemma ContinuedList()
    ensures ListLoop(["* one\n", "  more\n", "* two\n", "\n"], 1, ["one\n"]) == Done(["one\n  more\n", "two\n"], 4)
  {
    var p := ["* one\n", "  more\n", "* two\n", "\n"];
    ListContinued();
    ListMatchTwo();
    LineFeedBlank();
    var m1 := ["one\n  more\n"];
    assert "one\n" + "  more\n" == "one\n  more\n";
    assert ExtendLast(["one\n"], "  more\n") == m1;
    ListLoopStep(p, 1, ["one\n"]);
    ListLoopStep(p, 2, m1);
    ListLoopAtBlank(p, 3, m1 + ["two\n"]);
    assert m1 + ["two\n"] == ["one\n  more\n", "two\n"];
  }

  /** A bare line feed outside a list or blockquote is a paragraph of its own. */
  lemma LineFeedIsParagraph()
    ensures ParseText("\n") == Parsed([Paragraph([InlineParser.Text("\n")])])
  {
    var p := SplitLines("\n");
    assert LineEnd("\n", 0) == 1;
    assert "\n"[0..1] == "\n";
    assert SplitFrom("\n", 1) == [];
    assert p == ["\n"];
    SkipSpacesAt("\n", 0, 1);
    InlineProps.PlainLine("\n");
    ParagraphStep(p, 0);
    ParseFromStep(p, 0, [], Done(Paragraph([InlineParser.Text("\n")]), 1));
    ParseFromEnd(p, [Paragraph([InlineParser.Text("\n")])]);
  }

  lemma QuoteMatchFirst()
    ensures BlockquoteMatch(">a\n") == Some((1, "a\n"))
  {
    var line := ">a\n";
    SkipSpacesAt(line, 0, 0);
    SkipRunAt(line, 0, '>', 1);
    SkipSpacesAt(line, 1, 1);
  }

  lemma QuoteLineFirst()
    ensures Classify(">a\n") == QuoteLine(1, "a\n")
  {
    QuoteMatchFirst();
    ClassifyAnyOrder(">a\n");
  }

  /** The whitespace after the marks belongs to the content group. */
  lemma QuoteKeepsSpace()
    ensures QuoteActOf("> b\n") == Open(QuoteItem(1, " b\n"))
    ensures !AllSpace("> b\n")
  {
    var line := "> b\n";
    SkipSpacesAt(line, 0, 0);
    SkipRunAt(line, 0, '>', 1);
    SkipSpacesAt(line, 1, 2);
  }

  /** A line that is no blockquote line continues the last item. */
  lemma QuoteContinued()
    ensures QuoteActOf("c\n") == Extend("c\n")
    ensures !AllSpace("c\n")
  {
    var line := "c\n";
    SkipSpacesAt(line, 0, 0);
    SkipRunAt(line, 0, '>', 0);
  }

  /** The length of the run of marks is the depth. */
  lemma QuoteNextLevel()
    ensures QuoteActOf(">> d\n") == Open(QuoteItem(2, " d\n"))
    ensures !AllSpace(">> d\n")
  {
    var line := ">> d\n";
    SkipSpacesAt(line, 0, 0);
    SkipRunAt(line, 0, '>', 2);
    SkipSpacesAt(line, 2, 3);
  }

  /** After a blockquote line: a new item, a continuation, a deeper item, and a bare line feed. */
  lemma OpenExtendOpen(l0: string, l1: string, l2: string, l3: string, first: QuoteItem, i1: QuoteItem, i2: QuoteItem)
    requires QuoteActOf(l1) == Open(i1) && !AllSpace(l1)
    requires QuoteActOf(l2) == Extend(l2) && !AllSpace(l2)
    requires QuoteActOf(l3) == Open(i2) && !AllSpace(l3)
    ensures QuoteLoop([l0, l1, l2, l3, "\n"], 1, [first]) == Done([first, QuoteItem(i1.lv, i1.content + l2), i2], 5)
  {
    var p := [l0, l1, l2, l3, "\n"];
    LineFeedBlank();
    var m1 := [first, i1];
    var m2 := [first, QuoteItem(i1.lv, i1.content + l2)];
    assert QuoteApply([first], Open(i1)) == m1;
    assert QuoteApply(m1, Extend(l2)) == m2;
    assert QuoteApply(m2, Open(i2)) == m2 + [i2];
    QuoteLoopStep(p, 1, [first]);
    QuoteLoopStep(p, 2, m1);
    QuoteLoopStep(p, 3, m2);
    QuoteLoopAtBlank(p, 4, m2 + [i2]);
    assert m2 + [i2] == [first, QuoteItem(i1.lv, i1.content + l2), i2];
  }

  /** A blockquote shaped like the one of the demo text: the second line
      opens an item of depth one (keeping the whitespace after its mark), the
      third continues it, the fourth opens one of depth two, and the bare
      line feed closes the blockquote. */
  lemma DemoBlockquote()
    ensures Classify(">a\n") == QuoteLine(1, "a\n")
    ensures QuoteLoop([">a\n", "> b\n", "c\n", ">> d\n", "\n"], 1, [QuoteItem(1, "a\n")])
         == Done([QuoteItem(1, "a\n"), QuoteItem(1, " b\nc\n"), QuoteItem(2, " d\n")], 5)
  {
    QuoteLineFirst();
    QuoteKeepsSpace();
    QuoteContinued();
    QuoteNextLevel();
    assert " b\n" + "c\n" == " b\nc\n";
    OpenExtendOpen(">a\n", "> b\n", "c\n", ">> d\n", QuoteItem(1, "a\n"), QuoteItem(1, " b\n"), QuoteItem(2, " d\n"));
  }

  /** The greedy run of marks gives one back when the content would
      otherwise be blank: `>>` is a blockquote of depth one whose content is `>`. */
  lemma QuoteGivesBackMark()
    ensures BlockquoteMatch(">>\n") == Some((1, ">\n"))
  {
    var line := ">>\n";
    SkipSpacesAt(line, 0, 0);
    SkipRunAt(line, 0, '>', 2);
    SkipSpacesAt(line, 2, 3);
    SkipSpacesAt(line, 1, 1);
  }

  /** A lone mark has no content group: it is no blockquote line. */
  lemma LoneMarkIsNoQuote()
    ensures BlockquoteMatch(">\n") == None
  {
    var line := ">\n";
    SkipSpacesAt(line, 0, 0);
    SkipRunAt(line, 0, '>', 1);
    SkipSpacesAt(line, 1, 2);
  }

}
