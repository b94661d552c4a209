/**
 * Worked lines for the inline tokenizer (pymdcord/main.py:46-89), each
 * following the scan step by step.
 */
module InlineExamples {
  import opened Wrappers
  import opened Triggers
  import opened InlineParser

  /** Italic opened with `*` is closed by `_`: a token closes a frame when it
      belongs to the opener's group, whatever its spelling. */
  lemma ItalicClosedByOtherSpelling()
    ensures ParagraphContent("*a_") == [Span(Italic, [Text("a")])]
  {
    var line := "*a_";
    assert TokenAt(line, 0) == Some((Italic, "*"));
    assert TokenAt(line, 1) == None;
    assert TokenAt(line, 2) == Some((Italic, "_"));
    ScanFrameLiteral(line, 1, Some("*"), []);
    assert ScanFrame(line, 1, Some("*"), []) == Closed(3, [Text("a")]);
    ScanFrameNests(line, 0, None, [], Italic, "*", 3, Span(Italic, [Text("a")]));
  }

  /** An opener without a closer is rolled back: it stays in the line as text,
      merged with the text that follows it. */
  lemma UnclosedOpenerKeptAsText()
    ensures ParagraphContent("*a\n") == [Text("*a\n")]
  {
    var line := "*a\n";
    assert TokenAt(line, 0) == Some((Italic, "*"));
    assert TokenAt(line, 1) == None && TokenAt(line, 2) == None;
    assert "a" + "\n" == "a\n";
    AppendToText("a", "\n");
    calc {
      ScanFrame(line, 1, Some("*"), []);
      { ScanFrameLiteral(line, 1, Some("*"), []); }
      ScanFrame(line, 2, Some("*"), [Text("a")]);
      { ScanFrameLiteral(line, 2, Some("*"), [Text("a")]); }
      ScanFrame(line, 3, Some("*"), [Text("a\n")]);
      Unclosed([Text("a\n")]);
    }
    assert "*" + "a" == "*a";
    AppendToText("*", "a");
    assert "*a" + "\n" == "*a\n";
    AppendToText("*a", "\n");
    calc {
      ScanFrame(line, 0, None, []);
      { ScanFrameRollsBack(line, 0, None, [], Italic, "*", 1); }
      ScanFrame(line, 1, None, [Text("*")]);
      { ScanFrameLiteral(line, 1, None, [Text("*")]); }
      ScanFrame(line, 2, None, [Text("*a")]);
      { ScanFrameLiteral(line, 2, None, [Text("*a")]); }
      ScanFrame(line, 3, None, [Text("*a\n")]);
      Unclosed([Text("*a\n")]);
    }
  }

  /** Frames nest: an italic span inside a bold one. */
  lemma NestedSpans()
    ensures ParagraphContent("**_hi_**") == [Span(Bold, [Span(Italic, [Text("hi")])])]
  {
    var line := "**_hi_**";
    assert TokenAt(line, 0) == Some((Bold, "**"));
    assert TokenAt(line, 2) == Some((Italic, "_"));
    assert TokenAt(line, 3) == None && TokenAt(line, 4) == None;
    assert TokenAt(line, 5) == Some((Italic, "_"));
    assert TokenAt(line, 6) == Some((Bold, "**"));
    assert "h" + "i" == "hi";
    AppendToText("h", "i");
    ScanFrameLiteral(line, 3, Some("_"), []);
    ScanFrameLiteral(line, 4, Some("_"), [Text("h")]);
    assert ScanFrame(line, 3, Some("_"), []) == Closed(6, [Text("hi")]);
    var italic := Span(Italic, [Text("hi")]);
    ScanFrameNests(line, 2, Some("**"), [], Italic, "_", 6, italic);
    assert ScanFrame(line, 6, Some("**"), [italic]) == Closed(8, [italic]);
    ScanFrameNests(line, 0, None, [], Bold, "**", 8, Span(Bold, [italic]));
  }

  /** Three backticks read as an empty code span followed by a literal
      backtick: the inline code-block group never fires. */
  lemma BackticksNeverCodeBlock()
    ensures ParagraphContent("```") == [Span(Code, []), Text("`")]
  {
    var line := "```";
    assert TokenAt(line, 0) == Some((Code, "`"));
    assert TokenAt(line, 1) == Some((Code, "`"));
    assert TokenAt(line, 2) == Some((Code, "`"));
    assert ScanFrame(line, 1, Some("`"), []) == Closed(2, []);
    ScanFrameNests(line, 0, None, [], Code, "`", 2, Span(Code, []));
    assert ScanFrame(line, 3, Some("`"), []) == Unclosed([]);
    ScanFrameRollsBack(line, 2, None, [Span(Code, [])], Code, "`", 3);
  }

  /** Text appended to a content that is one string extends that string. */
  lemma AppendToText(x: string, y: string)
    ensures AppendText([Text(x)], y) == [Text(x + y)]
  {
    assert [Text(x)][0 := Text(x + y)] == [Text(x + y)];
  }

}
