# Andamio lesson export, modelled in Dafny

The Andamio Obsidian plugin fetches a course module from the Andamio
platform and writes it into a vault as Markdown: one file per lesson and an
`index.md` that links them. This project models the two pure parts of that
export and proves properties of them.

- **The document renderer** (`ContentParser`, `content_parser.dfy`) turns a
  lesson body, a ProseMirror/TipTap JSON tree, into Markdown. It handles
  headings, paragraphs, code blocks, ordered and bullet lists with nested
  lists, list items, image blocks, and text nodes with bold, italic, code,
  link and text-style marks. An unknown node kind renders as its children.
- **The document assembler** (`MarkdownGenerator`, `markdown_generator.dfy`)
  builds a lesson file and the module index. A lesson file is a YAML front
  matter with escaped double quotes, then the title heading, then the
  rendered body. The index is a fixed header and then one wiki-link line per
  lesson.

Supporting modules:

- `Andamio` (`andamio.dfy`) holds the data shapes: module response, lesson,
  node, mark and the attributes the renderer reads. A node's optional
  `content` array is its own datatype (`Absent | Present(nodes)`), because
  an absent array and an empty one render differently.
- `Decimal` (`decimal.dfy`) holds the decimal printing of integers, the
  form a template literal (`${n}`) gives an integral number of moderate
  size, with a parser that reads it back.
- `Strings` (`strings.dfy`) holds `Join`, the `join('')` that closes each
  list's `map` over its items, and the facts about joining that the list
  and index proofs use. The index lines are modelled the same way, as one
  line per lesson laid end to end, and the index loop is proved to build
  them one line at a time.

The list context that the renderer threads through the recursion is an
`Option<nat>` holding the indent. The source reads only two things from it:
whether it is present, and its `indent`. JavaScript's `||` defaults are
written out:
- a heading level of 0 or none becomes 1;
- a list start of 0 or none becomes 1;
- a missing language, alt, src, href or text becomes the empty string.

`parseNodes` maps with a one-argument arrow, so nodes reached through it
never see a list context. The model keeps that behaviour.

Three source loops are Dafny methods with loop invariants. Each is proved
equal to the recursive function that the rest of the model uses:
- the `result +=` loop of `parseListItem` is `ParseListItem`, proved equal
  to `ListItemMarkdown`;
- the loop over the reversed mark list in `applyMarks` is `ApplyMarks`,
  proved equal to `WithMarks`;
- the `forEach` of `generateModuleIndex` is `GenerateModuleIndex`, proved
  equal to `ModuleIndex`.

The index loop builds each link target as
`generateLessonFilename(n).replace('.md', '')`. The model performs that
replacement literally: `RemoveFirst` removes the first occurrence of the
pattern. It is then proved to give back the bare number.

Mark order follows the code, not the comment beside it. `applyMarks`
iterates over the reversed mark list, so the first-listed mark is applied
last and ends up outermost. For marks `[link, bold]` the code produces
`[**x**](url)`. The comment at `src/utils/contentParser.ts:169` shows
`**[x](url)**` for that input, which is what the order `[bold, link]`
produces. `LinkThenBold` and `BoldThenLink` state both cases.

## Model

| member | source | states |
|---|---|---|
| ContentParser.ParseContent | src/utils/contentParser.ts:10-15 | A missing document, one without a content array, or one whose content array is empty renders as the empty string |
| ContentParser.ParseNodesAppend | src/utils/contentParser.ts:20-22 | Rendering a node sequence is the in-order concatenation: render(a + b) == render(a) + render(b) |
| ContentParser.UnknownNode | src/utils/contentParser.ts:45-50 | A node of unknown kind renders as its children's concatenation, or as "" when it has no content |
| ContentParser.HeadingLevel | src/utils/contentParser.ts:58 | The heading level is at least 1 and equals the node's level attribute whenever that is present and non-zero |
| ContentParser.Repeat | src/utils/contentParser.ts:59 | `c.repeat(n)` is exactly n copies of c |
| ContentParser.HeadingShape | src/utils/contentParser.ts:57-62 | A heading is its run of '#' (exactly the level, at least 1), one space, its children and "\n\n", in any list context |
| ContentParser.ParagraphContext | src/utils/contentParser.ts:67-76 | Inside a list context a paragraph is just its children; with no context it is the same text followed by "\n\n" |
| ContentParser.CodeBlockShape | src/utils/contentParser.ts:81-85 | A code block is a fence with the language (default ""), a newline, the code, then "\n```\n\n" |
| ContentParser.StartNumber | src/utils/contentParser.ts:97 | The first number of an ordered list is never 0, and equals the start attribute whenever that is present and non-zero |
| ContentParser.ListShape | src/utils/contentParser.ts:90-118 | A list without content renders as ""; otherwise it is its entries followed by one "\n" exactly when it is at indent 0 |
| ContentParser.ListBodyAppend | src/utils/contentParser.ts:94-99 | Entries of two consecutive runs of items join, with the second run numbered on from the first |
| ContentParser.ListBodyAt | src/utils/contentParser.ts:94-99 | Entry k of a list sits between the entries of the items before it and after it: one entry per item, in item order |
| ContentParser.EntryPrefixShape | src/utils/contentParser.ts:96-98 | Each entry starts with exactly 2×indent spaces, then "- " for a bullet list or the number start + index and ". " for an ordered list |
| ContentParser.ListItemShape | src/utils/contentParser.ts:123-140 | A list item without content renders as "\n"; otherwise it is its children's pieces followed by exactly one "\n" |
| ContentParser.ParseListItem | src/utils/contentParser.ts:123-140 | The accumulating loop over the children produces exactly the list-item rendering `ListItemMarkdown` |
| ContentParser.ItemBodyAppend | src/utils/contentParser.ts:127-138 | The children of an item contribute their pieces in order, with no separator |
| ContentParser.ItemPieceShape | src/utils/contentParser.ts:128-137 | A paragraph child is inlined as its children alone; a nested list child is "\n" and then that list's entries at the enclosing indent + 1 (just "\n" when it has no content); any other child is rendered by the dispatch with the item's own context |
| ContentParser.MarkedText | src/utils/contentParser.ts:154-162 | A text node with a non-empty mark list renders as its text (or "") with the marks applied by `WithMarks` |
| ContentParser.NestedListIndent | src/utils/contentParser.ts:131-134 | A non-empty nested list starts on a new line whose indent is 2×(enclosing indent + 1) spaces, even for an item outside any list |
| ContentParser.ImageBlockShape | src/utils/contentParser.ts:145-149 | An image block is "![alt](src)\n\n", with "" for a missing alt or src |
| ContentParser.PlainText | src/utils/contentParser.ts:154-162 | A text node with no marks, or an empty mark list, renders as its text, or "" when the text is missing |
| ContentParser.BoldTextExample | src/utils/contentParser.ts:154-178 | The text node "hi" with a bold mark renders as "**hi**" through `parseNodes` |
| ContentParser.Reverse | src/utils/contentParser.ts:172 | The reversed copy has the same length and holds element i of the original at position length - 1 - i |
| ContentParser.ApplyMarks | src/utils/contentParser.ts:167-197 | The loop over the reversed marks produces `WithMarks`, which nests the first-listed mark outermost |
| ContentParser.WithMarksSplit | src/utils/contentParser.ts:167-197 | Marked text is the openings of the marks, the text, then the closings of the marks: the marks nest properly around the text |
| ContentParser.WithMarksAppend | src/utils/contentParser.ts:167-197 | Applying marks outer + inner is applying inner first and then wrapping the result in outer |
| ContentParser.InertMarks | src/utils/contentParser.ts:189-193 | Text-style marks and unrecognised marks leave the text unchanged |
| ContentParser.LinkThenBold | src/utils/contentParser.ts:168-188 | Marks [link, bold] give "[**x**](url)", not the "**[x](url)**" shown in the comment |
| ContentParser.BoldThenLink | src/utils/contentParser.ts:168-188 | Marks [bold, link] give "**[x](url)**" |
| ContentParser.HeadingExample | src/utils/contentParser.ts:57-62 | A level-3 heading "Hi" renders as "### Hi\n\n" |
| ContentParser.BulletListExample | src/utils/contentParser.ts:107-118 | A top-level bullet list of items a, b renders as "- a\n- b\n\n" |
| ContentParser.OrderedListExample | src/utils/contentParser.ts:90-102 | A top-level ordered list starting at 5 with items a, b renders as "5. a\n6. b\n\n" |
| ContentParser.CodeBlockExample | src/utils/contentParser.ts:81-85 | A python code block holding "pass" renders as "```python\npass\n```\n\n" |
| ContentParser.UnknownExample | src/utils/contentParser.ts:45-50 | An unknown node renders as its children "ab", or as "" without content |
| ContentParser.EmptyListExample | src/utils/contentParser.ts:90-118 | An empty item array is not a missing one: an empty top-level bullet list renders as "\n", a bullet list without content as "", and an empty ordered list nested at indent 2 as "" |
| ContentParser.NestedListExample | src/utils/contentParser.ts:107-140 | An item "a" holding a nested bullet list "b" renders as "- a\n  - b\n\n\n" |
| ContentParser.TextNodeRenders | src/utils/contentParser.ts:154-162 | A lone unmarked text node renders as its text |
| ContentParser.SimpleItemRenders | src/utils/contentParser.ts:123-140 | A list item holding one paragraph "s" renders as "s\n" at any indent |
| ContentParser.NestedInnerList | src/utils/contentParser.ts:107-118 | A bullet list with the item "b" at indent 1 renders as "  - b\n", without the extra newline of a top-level list |
| ContentParser.NestedItemRenders | src/utils/contentParser.ts:123-140 | An item holding the paragraph "a" and a nested bullet list "b" renders as "a\n  - b\n\n" |
| ContentParser.DefaultHeadingExample | src/utils/contentParser.ts:57-62 | A heading without a level, or with level 0, renders with a single "#": "# Hi\n\n" |
| ContentParser.ParseNodes | src/utils/contentParser.ts:20-22 | Definition: each node rendered with no list context, joined with no separator; `ParseNodesAppend` states its join |
| ContentParser.KindOf | src/utils/contentParser.ts:28-45 | Definition: the eight `type` strings of the switch, every other string an unknown kind |
| ContentParser.ParseNode | src/utils/contentParser.ts:27-52 | Definition: the dispatch, passing the context to paragraphs and list items and its indent (0 without one) to lists; the shape lemmas (`HeadingShape`, `ParagraphContext`, `CodeBlockShape`, `ListShape`, `ListItemShape`, `ImageBlockShape`, `PlainText`, `MarkedText`, `UnknownNode`) state each branch |
| ContentParser.Indent | src/utils/contentParser.ts:36-38 | Definition: the context's indent, or 0 without a context |
| ContentParser.Inner | src/utils/contentParser.ts:60 | Definition: a node's children rendered in order, or "" when it has no content |
| ContentParser.ParseHeading | src/utils/contentParser.ts:57-62 | Definition: the heading template; `HeadingShape` states it and reads the level back |
| ContentParser.ParseParagraph | src/utils/contentParser.ts:67-76 | Definition: the children, with "\n\n" appended only outside a list context; `ParagraphContext` states both cases |
| ContentParser.ParseCodeBlock | src/utils/contentParser.ts:81-85 | Definition: the fenced code template; `CodeBlockShape` states it |
| ContentParser.ParseOrderedList | src/utils/contentParser.ts:90-102 | Definition: "" without content, otherwise the numbered entries closed by `CloseList`; `ListShape` states it |
| ContentParser.ParseBulletList | src/utils/contentParser.ts:107-118 | Definition: "" without content, otherwise the bulleted entries closed by `CloseList`; `ListShape` states it |
| ContentParser.CloseList | src/utils/contentParser.ts:101 | Definition: one extra "\n" after the entries only at indent 0 |
| ContentParser.EntryPrefix | src/utils/contentParser.ts:96-114 | Definition: the indent and marker before an entry (the ordered prefix at :96-98, the bullet prefix at :113-114); `EntryPrefixShape` states its layout |
| ContentParser.ListBody | src/utils/contentParser.ts:94-99 | Definition: the entries of the items joined with no separator; `ListBodyAt` and `ListBodyAppend` state its order and numbering |
| ContentParser.Entries | src/utils/contentParser.ts:94-98 | Definition: the `map` over the items, entry i being the prefix for position index + i and then item i rendered with the list's context |
| ContentParser.Entry | src/utils/contentParser.ts:95-98 | Definition: one entry, the prefix for its position and then the item rendered with the list's context |
| ContentParser.ListKindOf | src/utils/contentParser.ts:90-114 | Definition: an ordered list numbers from `StartNumber`, a bullet list marks each entry with "- " |
| ContentParser.SingleEntry | src/utils/contentParser.ts:94-99 | A list of one item is exactly that item's entry |
| ContentParser.TwoEntries | src/utils/contentParser.ts:94-99 | A list of two items is the entry of the first at position 0 followed by the entry of the second at position 1 |
| Strings.Join | src/utils/contentParser.ts:99 | Definition: `join('')`, the strings laid end to end with no separator |
| Strings.JoinAppend | src/utils/contentParser.ts:99 | Joining a + b is joining a and then joining b |
| Strings.JoinAt | src/utils/contentParser.ts:99 | String k of a run sits in the join between the join of the strings before it and the join of those after it |
| Strings.JoinSingle | src/utils/contentParser.ts:99 | Joining a single string gives that string |
| ContentParser.ListItemMarkdown | src/utils/contentParser.ts:123-140 | Definition: "\n" without content, otherwise the children's pieces and one "\n"; `ParseListItem` is proved equal to it |
| ContentParser.ItemBody | src/utils/contentParser.ts:126-138 | Definition: the pieces of the children accumulated left to right; `ItemBodyAppend` states the join |
| ContentParser.ItemPiece | src/utils/contentParser.ts:128-137 | Definition: the three branches of the loop body; `ItemPieceShape` states each of them (including a nested list without content) and `NestedListIndent` the nested indent |
| ContentParser.ParseImageBlock | src/utils/contentParser.ts:145-149 | Definition: the image template; `ImageBlockShape` states it |
| ContentParser.ParseText | src/utils/contentParser.ts:154-162 | Definition: the text or "", with the marks applied only when the list of marks is present and non-empty; `PlainText` states the unmarked case and `MarkedText` the marked one |
| ContentParser.MarkKindOf | src/utils/contentParser.ts:175-193 | Definition: the five mark `type` strings of the switch, every other string an unrecognised mark |
| ContentParser.Wrap | src/utils/contentParser.ts:175-193 | Definition: one case of the switch around the text, with "" for a missing href |
| ContentParser.OpenDelim | src/utils/contentParser.ts:175-193 | Definition: what each case of the switch writes before the text ("" for text-style and unrecognised marks) |
| ContentParser.CloseDelim | src/utils/contentParser.ts:175-193 | Definition: what each case of the switch writes after the text, the link's href with "" when missing |
| ContentParser.WrapDelims | src/utils/contentParser.ts:175-193 | Every mark wraps the text between its opening and its closing, whatever the text |
| ContentParser.Opening | src/utils/contentParser.ts:167-197 | Definition: the openings of the marks in listed order |
| ContentParser.Closing | src/utils/contentParser.ts:167-197 | Definition: the closings of the marks in reverse order |
| ContentParser.WithMarks | src/utils/contentParser.ts:167-197 | Definition: the marks wrapped around the text, first-listed outermost; `WithMarksSplit` states it against independent openings and closings |
| Decimal.NatToString | src/utils/markdownGenerator.ts:41 | Definition: the digits of the number, most significant first, never empty; `NatToStringDigits` and `ParseNatToString` state its form and that it reads back |
| Decimal.NatToStringDigits | src/utils/markdownGenerator.ts:41 | The decimal form of a number is all digits, with no leading zero unless the number is 0 |
| Decimal.ParseNatToString | src/utils/markdownGenerator.ts:41 | Reading back the decimal form of n gives n |
| Decimal.IntToString | src/utils/contentParser.ts:98 | The decimal form of an item number starts with '-' exactly when the number is negative |
| Decimal.ParseIntToString | src/utils/contentParser.ts:98 | Reading back the decimal form of any integer gives that integer |
| Decimal.IntToStringInjective | src/utils/contentParser.ts:98 | Different item numbers print differently |
| MarkdownGenerator.EscapeYaml | src/utils/markdownGenerator.ts:23 | Escaping adds one character per double quote, and every double quote of the result follows a backslash |
| MarkdownGenerator.UnescapeEscapeYaml | src/utils/markdownGenerator.ts:23 | Unescaping the escaped value gives back the value: escaping loses nothing |
| MarkdownGenerator.EscapeYamlNoQuotes | src/utils/markdownGenerator.ts:23 | A value without double quotes is inserted unchanged |
| MarkdownGenerator.EscapeSplit | src/utils/markdownGenerator.ts:23 | Escaping works character by character: escape(a + b) == escape(a) + escape(b) |
| MarkdownGenerator.EscapeYamlBreaks | src/utils/markdownGenerator.ts:23 | Escaping neither adds nor removes line breaks |
| MarkdownGenerator.QuotedTitleExample | src/utils/markdownGenerator.ts:23 | The value `a"b` is escaped as `a\"b` |
| MarkdownGenerator.FrontMatterShape | src/utils/markdownGenerator.ts:25-34 | The front matter starts with "---\n" and ends with "---\n\n# " + title + "\n", the title unescaped even when it holds quotes |
| MarkdownGenerator.FrontMatterLineCount | src/utils/markdownGenerator.ts:25-34 | When no value holds a line break, the front matter is exactly nine lines |
| MarkdownGenerator.FrontMatterValuesReadBack | src/utils/markdownGenerator.ts:26-30 | The id and module code lines hold their values verbatim; the title, module and description lines hold their value between quotes, and what stands between the quotes unescapes (`\"` read as `"`) to the value. A YAML reader, which also treats `\` as an escape, does not always read it back (see `TrailingBackslashTitle`) |
| MarkdownGenerator.LessonMarkdown | src/utils/markdownGenerator.ts:11-16 | A lesson file is exactly its front matter, one "\n", then the rendering of its body |
| MarkdownGenerator.LessonWithoutBody | src/utils/markdownGenerator.ts:11-16 | A lesson without a body is its front matter followed by a single "\n" |
| MarkdownGenerator.LessonFilenameReadsBack | src/utils/markdownGenerator.ts:40-42 | A lesson file name is ".md" after a string of digits that reads back as the lesson's number |
| MarkdownGenerator.LessonFilenameInjective | src/utils/markdownGenerator.ts:40-42 | Different lesson numbers give different file names |
| MarkdownGenerator.IndexFilenameDistinct | src/utils/markdownGenerator.ts:76-78 | The index file name never equals a lesson file name |
| MarkdownGenerator.FindFrom | src/utils/markdownGenerator.ts:67 | The search returns an occurrence of the pattern at or after the start, with no earlier one, and returns none only when there is no occurrence |
| MarkdownGenerator.StripLessonExtension | src/utils/markdownGenerator.ts:66-67 | Removing the first ".md" from a lesson file name leaves exactly the lesson's number |
| MarkdownGenerator.GenerateModuleIndex | src/utils/markdownGenerator.ts:47-71 | The appending loop produces exactly the header followed by one index line per lesson |
| MarkdownGenerator.IndexLinesAppend | src/utils/markdownGenerator.ts:64-68 | The lines of two consecutive runs of lessons join, with the second run numbered on from the first |
| MarkdownGenerator.IndexLinesAt | src/utils/markdownGenerator.ts:64-68 | Line k is the number k + 1, then a wiki link whose target is k + 1 and whose label is the title of lesson k; it sits between the lines of the lessons before and after it |
| MarkdownGenerator.IndexLinesExtend | src/utils/markdownGenerator.ts:64-68 | Each turn of the loop appends the next line: the lines of the first i + 1 lessons are those of the first i followed by the line numbered i + 1 |
| MarkdownGenerator.IndexLineCount | src/utils/markdownGenerator.ts:67 | The index line of a title without line breaks holds exactly one line break |
| MarkdownGenerator.IndexLinesCount | src/utils/markdownGenerator.ts:64-68 | When titles hold no line break, the lesson list has exactly one line per lesson |
| MarkdownGenerator.IndexIgnoresLessonIds | src/utils/markdownGenerator.ts:64-68 | The lesson lines depend only on titles and positions, never on ids, descriptions or bodies |
| MarkdownGenerator.EmptyModuleIndex | src/utils/markdownGenerator.ts:50-62 | A module without lessons gives the bare header, which ends with "## Lessons\n\n" |
| MarkdownGenerator.IndexStartsWithHeader | src/utils/markdownGenerator.ts:50-70 | The index always starts with the header, whose lessonCount is the number of lessons |
| MarkdownGenerator.TrailingBackslashTitle | src/utils/markdownGenerator.ts:23-27 | Backslashes are not escaped: the title `a\` gives the line `title: "a\"`, whose closing quote a YAML reader takes as escaped |
| MarkdownGenerator.FrontMatterLines | src/utils/markdownGenerator.ts:25-34 | Definition: the nine lines of the template, with the title, module title and description escaped and the id and module code verbatim |
| MarkdownGenerator.FrontMatter | src/utils/markdownGenerator.ts:21-35 | Definition: those lines, each followed by a newline; `FrontMatterShape` and `FrontMatterLineCount` state its layout |
| MarkdownGenerator.LessonFilename | src/utils/markdownGenerator.ts:40-42 | Definition: the decimal position followed by ".md"; `LessonFilenameReadsBack` states it |
| MarkdownGenerator.IndexFilename | src/utils/markdownGenerator.ts:76-78 | Definition: the constant "index.md"; `IndexFilenameDistinct` states that it never collides |
| MarkdownGenerator.RemoveFirst | src/utils/markdownGenerator.ts:67 | Definition: `replace` with a string pattern, which removes only the first occurrence; `StripLessonExtension` states its effect on a lesson file name |
| MarkdownGenerator.IndexHeader | src/utils/markdownGenerator.ts:50-62 | Definition: the header template with the module title and code unescaped and the lesson count |
| MarkdownGenerator.IndexLine | src/utils/markdownGenerator.ts:67 | Definition: one index line, the number and a wiki link to the same number labelled with the title |
| MarkdownGenerator.IndexLines | src/utils/markdownGenerator.ts:64-68 | Definition: the index lines of the lessons, numbered from 1, laid end to end; `IndexLinesAt` states one line per lesson in order |
| MarkdownGenerator.IndexEntries | src/utils/markdownGenerator.ts:64-68 | Definition: one index line per lesson, in lesson order, the line of lesson i numbered base + i + 1 |
| MarkdownGenerator.ModuleIndex | src/utils/markdownGenerator.ts:47-71 | Definition: the header and then the index lines; `GenerateModuleIndex` is proved equal to it |

## Left out

- main.ts: the plugin lifecycle, settings, the asynchronous fetch and vault file creation are I/O on the Obsidian API, so they are not part of this model.
- src/ui/FetchContentModal.ts: an interactive dialog, so it is not part of this model.
- src/api/andamioClient.ts: the HTTP client, so it is not part of this model.
- src/types/andamio.ts: declarations only. It shapes the `Andamio` datatypes.
- JavaScript's dynamic typing of `attrs` is not modelled. The level is a `nat`, so a negative or fractional level (which `repeat` rejects or floors) cannot occur. The start is an `int`, so a non-numeric start cannot occur.
- LessonFilename: takes a `nat`. Both callers (src/utils/markdownGenerator.ts:66 and main.ts:100) pass a 1-based position, so negative or fractional numbers are not modelled.
- Number magnitude and the double type of `start` are not modelled. Item numbers are unbounded integers printed as plain digits. JavaScript prints `start + index` as a double, so a fractional start would print as "1.5. ", values of 1e21 and above print in exponent form, and integers beyond 2^53 lose precision.
- Escaping of backslashes: the source escapes only double quotes, so a value ending in a backslash, or holding `\` sequences, does not read back through a YAML parser. The model keeps the source's escaper, and `TrailingBackslashTitle` exhibits the case.
- The list context's `type` field is never read by the source, so the context is only its indent.
- Stack-depth limits on very deep trees are not modelled; Dafny's recursion is unbounded.
- The `listContext!` spread for a nested list is modelled as a context holding only the new indent. In JavaScript `{ ...undefined, indent: k }` is `{ indent: k }`, and only `indent` is read.
