# pymdcord parser, modelled in Dafny

pymdcord turns Discord-flavoured markdown into a list of plain dictionaries. Its
core is `parse` in `pymdcord/main.py`, which has two parts.

- **The block segmenter** splits the text into lines that keep their line feeds.
  It walks them once with an index.
  - Each line is classified in a fixed order: code-fence start, header, list item, blockquote, paragraph.
  - Code fences, lists and blockquotes run inner loops that take in the lines that follow.
  - The output is one entry per block: `codeblock`, `header`, `list`, `blockquote`, or an `inline` node for a paragraph line.
- **The inline tokenizer** (`paragraph_effect_parser`) scans one line.
  - It tries a priority-ordered table of trigger tokens.
  - It opens a nested frame for each token and closes a frame at a token of the frame's own group.
  - A frame that reaches the end of the line unclosed is rolled back: its opening token becomes literal text.
  - Adjacent literal characters are merged into one string.

The model follows the source's form.

- **Five regular expressions.** They become hand-written recognizers (`Patterns`). Each recognizer is proved equal to a declarative reading of its expression: the "form" predicates.
- **The trigger table.** It becomes a function of the table's order (`Triggers`). The `for` loop over it becomes a method.
- **The tokenizer.** `InlineParser.ParagraphEffectParser` is a recursive method with a `while` loop, as in the source.
  - It is proved equal to the specification function `ScanFrame`.
  - The properties of the trees are proved about `ScanFrame` (`InlineProps`, `InlineShape`).
  - A tree does not record whether an italic span was written with `*` or `_`. So it is read back against its line (`InlineAccount.RenderAll`): every italic delimiter is spelled as the line spells it at that position, provided the line has `*` or `_` there. Everything else is spelled as the tree holds it.
- **The segmenter.** `Segmenter.Parse`, `FenceBody`, `ListBody` and `QuoteBody` are methods with the source's loops.
  - They are proved equal to the functions `ParseFrom`, `FenceLoop`, `ListLoop` and `QuoteLoop`.
  - What those functions compute is characterised in `BlockProps`.
- **The two exits of `parse`.** `parse` either returns its list or raises `IndexError`. The model returns an `Outcome` with the same two cases.
- **Worked examples.** `InlineExamples` and `BlockExamples` evaluate the model on short inputs. A few of them are lines of the demo text: `#WRONG HEADER` (pymdcord/main.py:160) and the list `* LIST`, `* LIST`, `*WRONGLIST` (pymdcord/main.py:163-165). The others are made up. The only evaluation of `parse` on a whole text is `BlockExamples.LineFeedIsParagraph`, on a text of one bare line feed.

Three facts about the code that the model keeps:
- a header takes 1 to 6 `#` (pymdcord/main.py:3);
- a bare line feed outside a list or blockquote gives an `inline` node holding `"\n"` (pymdcord/main.py:144-147);
- `parse` never uses the link and image patterns.

## Model

| member | source | states |
|---|---|---|
| Lines.LineEnd | pymdcord/main.py:43 | a line runs to just past its line feed or to the end of the text, with no line feed before its last character |
| Lines.SplitFromJoin | pymdcord/main.py:43 | splitting the text from any position loses nothing: the pieces join back to the rest of the text, none is empty, and every piece but the last ends with a line feed |
| Lines.SplitLinesJoin | pymdcord/main.py:43 | `splitlines(keepends=True)` loses nothing: its lines join back to the text, and every line but the last ends with its only line feed |
| Patterns.SkipSpaces | pymdcord/main.py:3-5 | the end of the longest run of whitespace from a position: `\s*` cannot stop earlier, since the next character is no whitespace |
| Patterns.SkipRun | pymdcord/main.py:3-5 | the end of the longest run of one character (`#` or `>`) from a position |
| Patterns.SkipDigits | pymdcord/main.py:4 | the end of the longest run of digits from a position (`\d+`) |
| Patterns.ContentFromIff | pymdcord/main.py:3-5 | the content recognizer accepts the rest of a line exactly when that rest is whitespace, then non-whitespace, then no line feed, then an optional final line feed (`\s*[^\s]+.*\n?`) |
| Patterns.ContentFromForm | pymdcord/main.py:3-5 | soundness half of the content recognizer's equivalence |
| Patterns.ContentFormFrom | pymdcord/main.py:3-5 | completeness half of the content recognizer's equivalence |
| Patterns.ContentPiecesFrom | pymdcord/main.py:3-5 | the rest of a line made of the four pieces of the content group is accepted |
| Patterns.ContentAfterMark | pymdcord/main.py:3-5 | after a mark that is no whitespace, the content group matches exactly when no line feed occurs before the last character |
| Patterns.HeaderMatch | pymdcord/main.py:3 | a header's content is a proper suffix of its line |
| Patterns.HeaderMatchSound | pymdcord/main.py:3 | what the header recognizer accepts is whitespace, 1 to 6 `#`, one whitespace character and a content group |
| Patterns.HeaderFormAt | pymdcord/main.py:3 | a line read at given positions as whitespace, a `#` run of length 1 to 6, whitespace and content is of the header form |
| Patterns.HeaderMatchComplete | pymdcord/main.py:3 | every line of the header form is accepted, with the content group as its text |
| Patterns.HeaderAt | pymdcord/main.py:3 | the recognizer accepts a header read at given positions |
| Patterns.HeaderMatchIff | pymdcord/main.py:3 | `HEADER.fullmatch` succeeds with content `c` exactly when the line is of the header form with content `c` |
| Patterns.MarkerEnd | pymdcord/main.py:4 | where a list marker found at a position ends; what lies between is a marker of the pattern (`[*\-+]\s` or `\d+\.\s`) |
| Patterns.MarkerEndOf | pymdcord/main.py:4 | a marker that stands at a position is the one found there |
| Patterns.ListMatch | pymdcord/main.py:4 | an item's content is a proper suffix of its line |
| Patterns.ListMatchSound | pymdcord/main.py:4 | what the list recognizer accepts is whitespace, a marker and a content group |
| Patterns.ListMatchComplete | pymdcord/main.py:4 | every line of the list form is accepted, with its content group |
| Patterns.ListMatchIff | pymdcord/main.py:4 | `LIST.fullmatch` succeeds with content `c` exactly when the line is of the list form with content `c` |
| Patterns.BlockquoteMatchReads | pymdcord/main.py:5 | a blockquote match reads the line as whitespace, `lv` marks of the run of marks, and the rest as a content group |
| Patterns.BlockquoteFormShape | pymdcord/main.py:5 | every line of the blockquote form is such a reading |
| Patterns.QuoteAt | pymdcord/main.py:5 | a line read at given positions as whitespace, `lv` marks and content is such a reading |
| Patterns.BlockquoteMatchSound | pymdcord/main.py:5 | what the blockquote recognizer accepts is of the blockquote form with its depth and content |
| Patterns.QuoteFormAt | pymdcord/main.py:5 | every reading of the line is of the blockquote form |
| Patterns.BlockquoteMatchComplete | pymdcord/main.py:5 | every line of the blockquote form is accepted, with a depth at least that of the form |
| Patterns.ReadingMatched | pymdcord/main.py:5 | every reading is accepted, with a depth at least that of the reading |
| Patterns.BlockquoteMatchIsLongest | pymdcord/main.py:5 | `BLOCKQUOTE.fullmatch` gives depth `lv` and content `c` exactly when `(lv, c)` is of the blockquote form and no reading has a deeper `>` run: the greedy `>+` gives back a mark only when it must |
| Patterns.MatchIsLongest | pymdcord/main.py:5 | the match is of the form, and no reading of the line is deeper |
| Patterns.LongestIsMatch | pymdcord/main.py:5 | the deepest reading of the line is the match |
| Patterns.NoLongerMatch | pymdcord/main.py:5 | a reading of the match's depth is the match |
| Patterns.SameReading | pymdcord/main.py:5 | two readings of one depth have the same content |
| Patterns.CodeFenceStart | pymdcord/main.py:7 | a fence start is three backticks, its language and a line feed, and the language holds no backtick or line feed |
| Patterns.CodeFenceStartIff | pymdcord/main.py:7 | a fence starts exactly on a line that is three backticks at column 0, a language without backticks or line feeds, and a line feed |
| Patterns.IsCodeFenceEndIff | pymdcord/main.py:8 | a fence ends exactly on a line that is whitespace, then three backticks, then an optional line feed |
| Patterns.FirstNonSpace | pymdcord/main.py:113 | `line.strip()[0]`: none exactly when the line is whitespace only, otherwise the first non-whitespace character |
| Patterns.RecognizersExclusive | pymdcord/main.py:3-8 | at most one of the four line patterns matches any line |
| Patterns.FenceExcludes | pymdcord/main.py:3-7 | a fence start matches no other line pattern |
| Patterns.HeaderExcludes | pymdcord/main.py:3-5 | a header line is neither a list item nor a blockquote line |
| Patterns.ListExcludes | pymdcord/main.py:4-5 | a list item line is no blockquote line |
| Patterns.FenceLead | pymdcord/main.py:7 | a fence start begins with a backtick at column 0 |
| Patterns.HeaderLead | pymdcord/main.py:3 | a header's first non-whitespace character is `#` |
| Patterns.ListLead | pymdcord/main.py:4 | an item line's first non-whitespace character is a bullet or a digit |
| Patterns.QuoteLead | pymdcord/main.py:5 | a blockquote line's first non-whitespace character is `>` |
| Triggers.Tokens | pymdcord/main.py:25-33 | every group of the table has tokens, all of its tokens have the group's token length, and the root kind has none |
| Triggers.InGroupIsMembership | pymdcord/main.py:25-33 | the group test is membership in the group's token list |
| Triggers.Rank | pymdcord/main.py:25-33 | the position of a group in the table's order |
| Triggers.TokensDisjoint | pymdcord/main.py:25-33 | no token belongs to two groups |
| Triggers.Slice | pymdcord/main.py:58 | `_line[_ind:_ind+n]`: the characters from a position, `n` of them, or all up to the end of the line when fewer remain |
| Triggers.Triggered | pymdcord/main.py:58 | a group fires at a position only with one of its tokens, standing at that position |
| Triggers.Fires | pymdcord/main.py:58 | whether a group fires at a position: a definition, whose meaning `Triggers.TriggeredPair` and `Triggers.TriggeredSingle` state character by character |
| Triggers.FirstTriggerFrom | pymdcord/main.py:57-58 | the first group at or after a place in the order that fires, with its token |
| Triggers.FirstTriggerFromIsFirst | pymdcord/main.py:57-58 | no group between that place and the group found fires |
| Triggers.CodeBlockShadowed | pymdcord/main.py:30-31 | wherever the code-block token fires, the inline-code token, tried first, fires too |
| Triggers.FirstTrigger | pymdcord/main.py:57-58 | the group the loop settles on is never the code block, fires, and its token stands at the position |
| Triggers.FirstTriggerIsFirst | pymdcord/main.py:57-58 | no group tried earlier fires, and when none is found no group fires |
| Triggers.TokenAt | pymdcord/main.py:57-58 | the token at a position read off the table, never of the code-block group |
| Triggers.TokenAtStands | pymdcord/main.py:58 | that token stands in the line at the position |
| Triggers.TokenAtAgrees | pymdcord/main.py:57-58 | the table read by hand agrees with the loop over the table in its order |
| Triggers.AgreesFromItalic | pymdcord/main.py:57-58 | the loop from the italic group on, evaluated on the table |
| Triggers.AgreesFromCode | pymdcord/main.py:57-58 | the loop from the code group on, evaluated on the table |
| Triggers.TriggeredPair | pymdcord/main.py:58 | a two-character group fires exactly where its two characters stand |
| Triggers.TriggeredSingle | pymdcord/main.py:58 | a one-character group fires exactly where one of its characters stands |
| Triggers.MatchTrigger | pymdcord/main.py:57-58 | the `for` loop over the table returns the first group that fires, with its token |
| InlineParser.AppendText | pymdcord/main.py:69-72 | appending literal text leaves a string last and adds at most one entry |
| InlineParser.AppendTextUnparse | pymdcord/main.py:69-72 | appending literal text adds exactly that text to what the content stands for |
| InlineParser.ScanFrame | pymdcord/main.py:55-89 | a frame that closes does so at a position strictly after its start and within the line |
| InlineParser.AfterOpen | pymdcord/main.py:67-79 | the same bound after a token is opened |
| InlineParser.ScanFrameLiteral | pymdcord/main.py:83-88 | a character without a token is appended as literal text and the scan moves one on |
| InlineParser.ScanFrameNests | pymdcord/main.py:67-74 | a nested frame that closes adds its node, and the scan resumes past its closer |
| InlineParser.ScanFrameRollsBack | pymdcord/main.py:67-72 | a nested frame that does not close adds its token as literal text, and the scan resumes just past the token |
| InlineParser.FrameOutcome | pymdcord/main.py:74-89 | what one call hands back, as a definition: past the closer with its node when the frame closes, else its start, with its node at the root and "noclose" below it; `InlineParser.ParagraphEffectParser` is proved to return it |
| InlineParser.ParagraphContent | pymdcord/main.py:146 | the root call on a paragraph line, as a definition; what it means is stated by `InlineProps.ParagraphAccounts`, `InlineProps.ParagraphWithoutStar` and `InlineShape.ParagraphShape` |
| InlineParser.ParagraphEffectParser | pymdcord/main.py:46-89 | `paragraph_effect_parser` returns what its frame's scan gives: past the closer with a node of its kind, or at its start with its node at the root and "noclose" below it |
| InlineParser.OpenFrame | pymdcord/main.py:57-81 | opening a token moves the position strictly forward and leaves the rest of the frame's scan unchanged |
| InlineProps.TokenSpelling | pymdcord/main.py:25-33 | a token of a group that stands in the line is as long as its kind's delimiter, and the delimiter read there is the token itself |
| InlineProps.CloserSpelling | pymdcord/main.py:59-63 | a closer of the opener's group is as long as the opener, and the delimiter read at its position is the closer as it stands in the line |
| InlineProps.AccountsShift | pymdcord/main.py:55-88 | accounting for a later part of the line extends back over a part the content already stands for |
| InlineProps.ScanFrameAccounts | pymdcord/main.py:55-89 | a frame's content, read against the line, is exactly the characters it scanned: up to its closer, which is of the opener's group, or to the end of the line |
| InlineProps.LiteralCase | pymdcord/main.py:83-88 | the accounting holds across a literal character |
| InlineProps.OpenCase | pymdcord/main.py:57-81 | the accounting holds across an opened token |
| InlineProps.NestCase | pymdcord/main.py:67-74 | the accounting holds across a nested node |
| InlineProps.RollCase | pymdcord/main.py:67-72 | the accounting holds across a rolled-back token |
| InlineProps.NestStep | pymdcord/main.py:67-74 | a nested frame that closes adds a node that reads as its token, its content and its closer, and the content then reaches the end of the closer |
| InlineProps.RollStep | pymdcord/main.py:69-72 | a rolled-back token stands for itself |
| InlineProps.LiteralAccounts | pymdcord/main.py:83-86 | a literal character stands for itself |
| InlineProps.TokenAccounts | pymdcord/main.py:69-72 | re-emitted token text stands for itself |
| InlineProps.NodeAccounts | pymdcord/main.py:74 | adding a node adds the characters from its token through its closer |
| InlineProps.SpanReads | pymdcord/main.py:67-74 | a span whose opener, content and closer each read as the line does there reads as that stretch of the line |
| InlineProps.RootNeverCloses | pymdcord/main.py:49-63 | the root frame, having no opener, never closes: it always scans to the end of the line |
| InlineProps.ParagraphAccounts | pymdcord/main.py:55-88 | nothing lost or duplicated: a paragraph line's tree, read against the line, is the line itself: text and every non-italic delimiter verbatim, and each italic delimiter where the line has `*` or `_` |
| InlineProps.RenderWithoutStar | pymdcord/main.py:28 | where the line has no `*`, reading a node against it gives the node's own spelling |
| InlineProps.RenderAllWithoutStar | pymdcord/main.py:28 | where the line has no `*`, reading a content against it gives the content's own spelling |
| InlineProps.ParagraphWithoutStar | pymdcord/main.py:55-88 | a paragraph line without `*` is exactly what its tree unparses to |
| InlineProps.UnclosedWithoutCloser | pymdcord/main.py:55-89 | a frame with no closer of its group ahead reaches the end of the line |
| InlineProps.AppendTextTwice | pymdcord/main.py:83-86 | text appended in two pieces merges into one string |
| InlineProps.PlainFrom | pymdcord/main.py:55-88 | a stretch without tokens becomes one string, merged into a preceding string |
| InlineProps.PlainLine | pymdcord/main.py:55-88 | a line without `*`, `_`, a backtick, `~~` or two bars gives the content `[line]` |
| InlineShape.AppendTextOk | pymdcord/main.py:69-72 | appending literal text keeps a content well formed: no empty string, no two strings side by side |
| InlineShape.SnocOk | pymdcord/main.py:74 | appending a well-formed node keeps a content well formed |
| InlineShape.OtherKind | pymdcord/main.py:59-67 | a token opens a frame only of a kind other than the present frame's |
| InlineShape.ScanFrameShape | pymdcord/main.py:55-89 | a frame's content has no empty string, no two strings side by side, no code block, and no node of the frame's own kind |
| InlineShape.OpenShape | pymdcord/main.py:57-81 | the shape holds across an opened token |
| InlineShape.NestShape | pymdcord/main.py:67-74 | the shape holds across a nested node |
| InlineShape.ParagraphShape | pymdcord/main.py:46-89 | the tree of a paragraph line has that shape, so it holds neither "noclose" nor "codeblock" |
| InlineExamples.ItalicClosedByOtherSpelling | pymdcord/main.py:57-63 | `*a_` is an italic node holding `a`: `_` closes a frame `*` opened |
| InlineExamples.UnclosedOpenerKeptAsText | pymdcord/main.py:67-89 | `*a\n` is the one string `*a\n`: the unclosed opener is rolled back and merged |
| InlineExamples.NestedSpans | pymdcord/main.py:57-74 | `**_hi_**` is bold holding italic holding `hi` |
| InlineExamples.BackticksNeverCodeBlock | pymdcord/main.py:30-31 | three backticks are an empty code span and a backtick, never a code block |
| InlineExamples.AppendToText | pymdcord/main.py:83-84 | a character after a string is merged into it |
| Segmenter.FenceLoop | pymdcord/main.py:97-103 | the fence loop stops within the lines |
| Segmenter.ExtendLast | pymdcord/main.py:119 | `mem[-1] += line`: only the last item changes, and it gets the line appended |
| Segmenter.ListLoop | pymdcord/main.py:111-123 | the list loop ends within the lines with items, or crashes at a whitespace-only line other than `"\n"` |
| Segmenter.ExtendLastQuote | pymdcord/main.py:138 | `mem[-1]["content"] += line`: only the last item's content changes, and it keeps its depth |
| Segmenter.QuoteLoop | pymdcord/main.py:128-142 | the blockquote loop ends within the lines with items, or crashes at a whitespace-only line other than `"\n"` |
| Segmenter.Classify | pymdcord/main.py:94-146 | the dispatch order: a line gets a kind only when that kind's pattern matches it, with that pattern's groups, and every pattern tried before it fails; a paragraph line matches none of the four |
| Segmenter.BlockAt | pymdcord/main.py:92-147 | each block consumes at least its own line, and a crash comes from a later whitespace-only line other than `"\n"` |
| Segmenter.ParseFrom | pymdcord/main.py:91-147 | the driver loop from an index with the blocks emitted so far, as a definition; `Segmenter.ParseFromStep` and `Segmenter.ParseFromEnd` give its steps and `BlockProps.ParseFromBounds` its bounds |
| Segmenter.ParseText | pymdcord/main.py:41-148 | `parse` on a whole text, as a definition: the driver loop over the text's lines from the first; `BlockProps.ParseTextBounds` states its bounds |
| Segmenter.ParseFromStep | pymdcord/main.py:91-147 | one turn of the driver loop appends the block at the index and goes on after it, or raises the block's IndexError |
| Segmenter.ParseFromEnd | pymdcord/main.py:91-148 | past the last line the list built so far is returned |
| Segmenter.FenceStep | pymdcord/main.py:94-104 | a fence start gives a code block of its language and the fence loop's text |
| Segmenter.HeaderStep | pymdcord/main.py:105-107 | a header line gives a header of its content group and consumes one line |
| Segmenter.ListStep | pymdcord/main.py:108-124 | an item line gives a list of what the list loop gathers, or its crash |
| Segmenter.QuoteStep | pymdcord/main.py:125-143 | a blockquote line gives a blockquote of what the blockquote loop gathers, or its crash |
| Segmenter.ParagraphStep | pymdcord/main.py:144-147 | any other line gives one inline node of the tokenizer's content and consumes one line |
| Segmenter.FenceBody | pymdcord/main.py:96-103 | the fence loop as written computes the fence loop's text and index |
| Segmenter.ListBody | pymdcord/main.py:110-123 | the list loop as written computes the list loop's items, index or crash |
| Segmenter.QuoteBody | pymdcord/main.py:127-142 | the blockquote loop as written computes the blockquote loop's items, index or crash |
| Segmenter.Parse | pymdcord/main.py:41-148 | `parse` as written returns the driver's outcome on the text's lines |
| BlockProps.ClassifyAnyOrder | pymdcord/main.py:94-147 | a line is of a kind whenever that kind's recognizer matches it, and a paragraph line exactly when none matches, so the dispatch order decides nothing |
| BlockProps.MatchedNotBlank | pymdcord/main.py:4-5 | an item or blockquote line is never whitespace only |
| BlockProps.FirstBlank | pymdcord/main.py:111-123 | the first whitespace-only line from an index, or the end: where a list or blockquote loop stops |
| BlockProps.FenceLoopReads | pymdcord/main.py:97-103 | the fence loop joins every line before the first end-fence line verbatim and consumes that line, or runs to the end of the input |
| BlockProps.FenceBlock | pymdcord/main.py:94-104 | a code block holds its fence's language and the lines up to the end fence, not classified; the end fence is consumed; an unterminated fence takes the rest of the input |
| BlockProps.ListActOf | pymdcord/main.py:113-119 | what the list loop does with one line that is not whitespace only, as a definition: an item line opens an item of its content group, a bullet-led line is dropped, any other line extends the last item |
| BlockProps.ListActs | pymdcord/main.py:111-123 | the actions on a stretch of lines: one per line, in line order, each that line's action |
| BlockProps.ListApply | pymdcord/main.py:115-119 | applying an action to a list that has items leaves it with items |
| BlockProps.ListFold | pymdcord/main.py:111-123 | the items after a run of actions, one after the other, are never empty; `BlockProps.ListFoldJoins`, `BlockProps.ListFoldCounts` and `BlockProps.ListFoldKeeps` state what they hold |
| BlockProps.ListLoopStep | pymdcord/main.py:113-119 | a line that is not whitespace only is acted on and the loop goes on |
| BlockProps.ListLoopAtBlank | pymdcord/main.py:120-122 | at a whitespace-only line the list ends, consuming `"\n"`, or raises IndexError on any other such line |
| BlockProps.ListLoopCloses | pymdcord/main.py:111-123 | the list loop either crashes at the first whitespace-only line, when that line is not `"\n"`, or applies each line's action up to it and resumes after it |
| BlockProps.JoinExtendLast | pymdcord/main.py:119 | extending the last item appends the line to the list's text |
| BlockProps.ListFoldJoins | pymdcord/main.py:113-119 | the items' text grows by exactly the content groups and continuation lines, in order, and dropped lines add nothing |
| BlockProps.ListFoldCounts | pymdcord/main.py:115-116 | the number of items grows by the number of item lines |
| BlockProps.ListFoldKeeps | pymdcord/main.py:115-119 | items already gathered never change, except that text is appended to the last one |
| BlockProps.QuoteActOf | pymdcord/main.py:130-138 | what the blockquote loop does with one line that is not whitespace only, as a definition: a blockquote line opens an item of its depth and content, a `>`-led line is dropped, any other line extends the last item's content |
| BlockProps.QuoteActs | pymdcord/main.py:128-142 | the actions on a stretch of lines: one per line, in line order, each that line's action |
| BlockProps.QuoteApply | pymdcord/main.py:132-138 | applying an action to a blockquote that has items leaves it with items |
| BlockProps.QuoteFold | pymdcord/main.py:128-142 | the items after a run of actions, one after the other, are never empty; `BlockProps.QuoteFoldJoins`, `BlockProps.QuoteFoldDepths` and `BlockProps.QuoteFoldKeeps` state what they hold |
| BlockProps.QuoteLoopStep | pymdcord/main.py:130-138 | a line that is not whitespace only is acted on and the loop goes on |
| BlockProps.QuoteLoopAtBlank | pymdcord/main.py:139-141 | at a whitespace-only line the blockquote ends, consuming `"\n"`, or raises IndexError on any other such line |
| BlockProps.QuoteLoopCloses | pymdcord/main.py:128-142 | the blockquote loop either crashes at the first whitespace-only line, when that line is not `"\n"`, or applies each line's action up to it and resumes after it |
| BlockProps.QuoteFoldJoins | pymdcord/main.py:132-138 | the items' contents grow by exactly the content groups and continuation lines, in order |
| BlockProps.QuoteFoldDepths | pymdcord/main.py:133-135 | the items' depths grow by the depths of the blockquote lines, in order, and continuation lines keep the depth |
| BlockProps.QuoteFoldKeeps | pymdcord/main.py:132-138 | items already gathered never change, except that text is appended to the content of the last one, whose depth stays: a continuation line goes into the last item and nowhere else |
| BlockProps.ParseFromBounds | pymdcord/main.py:91-147 | the driver loop keeps the blocks already emitted as a prefix and adds at most one block per line, or its IndexError is a whitespace-only line other than `"\n"` |
| BlockProps.ParseTextBounds | pymdcord/main.py:41-148 | `parse` emits at most one block per line, or raises IndexError at a whitespace-only line after the first |
| BlockProps.LineBlocks | pymdcord/main.py:105-147 | one block per line, each the block its line gives on its own |
| BlockProps.OneBlockPerLine | pymdcord/main.py:91-147 | a text of header and paragraph lines gives one block per line, in line order |
| BlockExamples.HeaderMatchH | pymdcord/main.py:3 | `# H` matches the header pattern with content `H\n` |
| BlockExamples.HeaderContent | pymdcord/main.py:3 | `# H` is a header line with content `H\n` |
| BlockExamples.WrongHeaderIsParagraph | pymdcord/main.py:3-5 | `#WRONG HEADER` is a paragraph line: a header needs whitespace after its `#` run, and the line matches no other pattern |
| BlockExamples.SevenHashesIsParagraph | pymdcord/main.py:3-5 | `####### x` is a paragraph line: seven `#` make no header, and the line matches no other pattern |
| BlockExamples.ListMatchList | pymdcord/main.py:4 | `* LIST` matches with content `LIST\n` |
| BlockExamples.ItemLineList | pymdcord/main.py:4 | `* LIST` is an item line |
| BlockExamples.WrongListDropped | pymdcord/main.py:113 | `*WRONGLIST` is led by a bullet without whitespace after it, so the list drops it |
| BlockExamples.ItemThenDrop | pymdcord/main.py:111-123 | an item line, then a dropped line, then `"\n"`: two items, and the line feed is consumed |
| BlockExamples.DemoList | pymdcord/main.py:108-124 | the demo's list gives the items `LIST\n` and `LIST\n` |
| BlockExamples.ListContinued | pymdcord/main.py:113-119 | `  more` is no item line and is not led by a bullet, so it extends the last item |
| BlockExamples.ListMatchTwo | pymdcord/main.py:113-116 | `* two` opens an item `two\n` |
| BlockExamples.ContinuedList | pymdcord/main.py:111-123 | after `* one`, the lines `  more`, `* two` and `"\n"` give the items `one\n  more\n` and `two\n`: the continuation stays in the item before it |
| BlockExamples.LineFeedIsParagraph | pymdcord/main.py:144-147 | a bare line feed outside a list is an inline node holding `"\n"` |
| BlockExamples.QuoteMatchFirst | pymdcord/main.py:5 | `>a` matches with depth 1 and content `a\n` |
| BlockExamples.QuoteLineFirst | pymdcord/main.py:5 | `>a` is a blockquote line |
| BlockExamples.QuoteKeepsSpace | pymdcord/main.py:5 | `> b` opens an item of depth 1 whose content keeps the space |
| BlockExamples.QuoteContinued | pymdcord/main.py:130-138 | `c` continues the last item |
| BlockExamples.QuoteNextLevel | pymdcord/main.py:5 | `>> d` opens an item of depth 2 |
| BlockExamples.OpenExtendOpen | pymdcord/main.py:128-142 | a new item, a continuation, a deeper item and `"\n"` give three items, the continuation appended to the second |
| BlockExamples.DemoBlockquote | pymdcord/main.py:125-143 | a blockquote shaped like the demo's gives items of depths 1, 1 and 2 |
| BlockExamples.QuoteGivesBackMark | pymdcord/main.py:5 | `>>` is a blockquote of depth 1 with content `>\n`: the greedy run gives a mark back |
| BlockExamples.LoneMarkIsNoQuote | pymdcord/main.py:5 | `>` alone is no blockquote line |

## Left out

- Line boundaries: only the line feed is a line boundary. `splitlines` also splits at `\r`, `\x0b`, `\x0c`, `\x1c`-`\x1e`, `\x85`, `\u2028` and `\u2029`; input is taken to hold none of them.
- Whitespace is space, tab and line feed, and `\d` is the ASCII digits: Unicode whitespace and digits are not modelled.
- The link and image patterns and `INLINE_REGEXS` (pymdcord/main.py:10-12, 21-23, 35-39) are not modelled, because `parse` never uses them.
- The `__main__` demo and `sys.setrecursionlimit(50)` (pymdcord/main.py:150-180) are not modelled. The model has no recursion limit, so it also covers lines whose nesting would exceed Python's stack.
- The debug `print` calls are not modelled (they are commented out in the source).
- Output dictionaries are datatypes:
  - `{"type": "inline"}` is `Paragraph`, and its nested nodes are `Span`;
  - the "noclose" marker is `NoClose`, which cannot occur inside a tree;
  - the dictionaries' keys and the in-place mutation of `_res["content"]` become values that the loops reassign.
- The inner loops of `parse` and the token-opening step of the tokenizer are written as separate methods (`FenceBody`, `ListBody`, `QuoteBody`, `OpenFrame`). They are called where the source runs them inline.
- BlockExamples.DemoBlockquote: it uses shorter lines (`>a`, `> b`, `c`, `>> d`) of the same shape as the demo's blockquote, not the demo text itself.
- Multi-line documents are stated at the level of the list and blockquote loops; there is no whole-text evaluation of the demo.
- The repository's top-level `main.py` (an earlier prototype), `pymdcord/classes.py` (dataclasses `parse` does not use) and `test.py` are not part of this model.
