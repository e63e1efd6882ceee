/**
 * The document renderer: ProseMirror/TipTap JSON to Markdown.
 *
 * The renderer is a family of mutually recursive functions, one per node
 * kind, that thread an optional list context down the tree. Of that context
 * only two things are ever observed: whether it is present and its indent,
 * so it is modelled as `Option<nat>`. The two loops of the source (the walk
 * over a list item's children and the fold over a text node's marks) are
 * methods below, each proved equal to the function the recursive renderer
 * uses in its place.
 */
module ContentParser {
  import opened Andamio
  import opened Decimal
  import opened Strings

  datatype NodeKind =
    | Heading | Paragraph | CodeBlock | OrderedList | BulletList
    | ListItem | ImageBlock | Text | Unknown

  /** The dispatch on a node's `type` string; any other string is an unknown kind. */
  function KindOf(tag: string): NodeKind {
    if tag == "heading" then Heading
    else if tag == "paragraph" then Paragraph
    else if tag == "codeBlock" then CodeBlock
    else if tag == "orderedList" then OrderedList
    else if tag == "bulletList" then BulletList
    else if tag == "listItem" then ListItem
    else if tag == "imageBlock" then ImageBlock
    else if tag == "text" then Text
    else Unknown
  }

  datatype MarkKind = Bold | Italic | Code | Link | TextStyle | OtherMark

  function MarkKindOf(tag: string): MarkKind {
    if tag == "bold" then Bold
    else if tag == "italic" then Italic
    else if tag == "code" then Code
    else if tag == "link" then Link
    else if tag == "textStyle" then TextStyle
    else OtherMark
  }

  /** `None` outside any list; `Some(indent)` while rendering the items of a list. */
  type ListContext = Option<nat>

  /** `listContext?.indent || 0` */
  function Indent(ctx: ListContext): nat {
    ctx.GetOr(0)
  }

  /** `c.repeat(n)` for a one-character string `c`. */
  function Repeat(c: char, n: nat): (r: string)
    ensures |r| == n
    ensures forall i :: 0 <= i < n ==> r[i] == c
  {
    if n == 0 then "" else [c] + Repeat(c, n - 1)
  }

  /** `node.attrs?.level || 1`: a missing or zero level is 1. */
  function HeadingLevel(n: Node): (level: nat)
    ensures level >= 1
    ensures n.attrs.level.None? || n.attrs.level.value == 0 ==> level == 1
    ensures n.attrs.level.Some? && n.attrs.level.value != 0 ==> level == n.attrs.level.value
  {
    match n.attrs.level
    case Some(l) => if l == 0 then 1 else l
    case None => 1
  }

  /** `node.attrs?.start || 1`: a missing or zero start is 1. */
  function StartNumber(n: Node): (start: int)
    ensures start != 0
    ensures n.attrs.start.None? || n.attrs.start.value == 0 ==> start == 1
    ensures n.attrs.start.Some? && n.attrs.start.value != 0 ==> start == n.attrs.start.value
  {
    match n.attrs.start
    case Some(s) => if s == 0 then 1 else s
    case None => 1
  }

  /** The two list renderers differ only in the marker put before each item. */
  datatype ListKind = Ordered(start: int) | Bullet

  /**
   * Entry point: a missing document or a missing body renders as nothing,
   * and so does a body whose content array is empty.
   */
  function ParseContent(doc: Option<Doc>): (r: string)
    ensures doc.None? || doc.value.content.Absent? ==> r == ""
    ensures doc.Some? && doc.value.content == Present([]) ==> r == ""
  {
    match doc
    case None => ""
    case Some(d) =>
      match d.content
      case Absent => ""
      case Present(ns) => ParseNodes(ns)
  }

  /**
   * The nodes rendered one after another. No list context is passed: the
   * callback given to `map` forwards only the node.
   */
  function ParseNodes(ns: seq<Node>): string
    decreases ns, 0
  {
    if ns == [] then "" else ParseNode(ns[0], None) + ParseNodes(ns[1..])
  }

  /** The dispatch on the node kind. */
  function ParseNode(n: Node, ctx: ListContext): string
    decreases n, 3
  {
    match KindOf(n.tag)
    case Heading => ParseHeading(n)
    case Paragraph => ParseParagraph(n, ctx)
    case CodeBlock => ParseCodeBlock(n)
    case OrderedList => ParseOrderedList(n, Indent(ctx))
    case BulletList => ParseBulletList(n, Indent(ctx))
    case ListItem => ListItemMarkdown(n, ctx)
    case ImageBlock => ParseImageBlock(n)
    case Text => ParseText(n)
    case Unknown => Inner(n)
  }

  /** A node's children rendered in order, or nothing when it has no content array. */
  function Inner(n: Node): string
    decreases n, 1
  {
    match n.content
    case Absent => ""
    case Present(ns) => ParseNodes(ns)
  }

  function ParseHeading(n: Node): string
    decreases n, 2
  {
    Repeat('#', HeadingLevel(n)) + " " + Inner(n) + "\n\n"
  }

  function ParseParagraph(n: Node, ctx: ListContext): string
    decreases n, 2
  {
    if ctx.Some? then Inner(n) else Inner(n) + "\n\n"
  }

  function ParseCodeBlock(n: Node): string
    decreases n, 2
  {
    "```" + n.attrs.language.GetOr("") + "\n" + Inner(n) + "\n```\n\n"
  }

  function ParseOrderedList(n: Node, indent: nat): string
    decreases n, 2
  {
    match n.content
    case Absent => ""
    case Present(items) => CloseList(ListBody(items, Ordered(StartNumber(n)), indent, 0), indent)
  }

  function ParseBulletList(n: Node, indent: nat): string
    decreases n, 2
  {
    match n.content
    case Absent => ""
    case Present(items) => CloseList(ListBody(items, Bullet, indent, 0), indent)
  }

  /** A top-level list is followed by one extra newline; a nested one is not. */
  function CloseList(items: string, indent: nat): string {
    if indent == 0 then items + "\n" else items
  }

  /** Two spaces per indent level, then the item's marker. */
  function EntryPrefix(kind: ListKind, indent: nat, index: nat): string {
    Repeat(' ', 2 * indent) +
    match kind
    case Ordered(start) => IntToString(start + index) + ". "
    case Bullet => "- "
  }

  /**
   * The entries of a list whose first item sits at position `index`, laid
   * end to end.
   */
  function ListBody(items: seq<Node>, kind: ListKind, indent: nat, index: nat): string
    decreases items, 1
  {
    Join(Entries(items, kind, indent, index))
  }

  /**
   * Each item mapped to its entry: the prefix for its position, then the
   * item rendered with the list's context.
   */
  function Entries(items: seq<Node>, kind: ListKind, indent: nat, index: nat): (es: seq<string>)
    decreases items, 0
  {
    seq(|items|, i requires 0 <= i < |items| => EntryPrefix(kind, indent, index + i) + ParseNode(items[i], Some(indent)))
  }

  /**
   * What the list-item loop produces: the children's pieces in order, then
   * one newline; a list item without content is a bare newline.
   */
  function ListItemMarkdown(n: Node, ctx: ListContext): string
    decreases n, 2
  {
    match n.content
    case Absent => "\n"
    case Present(cs) => ItemBody(cs, ctx) + "\n"
  }

  /** The pieces of the first `|cs|` children, accumulated left to right. */
  function ItemBody(cs: seq<Node>, ctx: ListContext): string
    decreases cs
  {
    if cs == [] then "" else ItemBody(cs[..|cs| - 1], ctx) + ItemPiece(cs[|cs| - 1], ctx)
  }

  /**
   * One child of a list item: a paragraph is inlined, a nested list starts
   * on a new line one indent level deeper, anything else goes through the
   * dispatch with the item's own context.
   */
  function ItemPiece(c: Node, ctx: ListContext): string
    decreases c, 4
  {
    match KindOf(c.tag)
    case Paragraph => Inner(c)
    case OrderedList => "\n" + ParseNode(c, Some(Indent(ctx) + 1))
    case BulletList => "\n" + ParseNode(c, Some(Indent(ctx) + 1))
    case _ => ParseNode(c, ctx)
  }

  function ParseImageBlock(n: Node): string {
    "![" + n.attrs.alt.GetOr("") + "](" + n.attrs.src.GetOr("") + ")\n\n"
  }

  function ParseText(n: Node): string {
    var text := n.text.GetOr("");
    if n.marks.Some? && |n.marks.value| > 0 then WithMarks(text, n.marks.value) else text
  }

  /** One mark wrapped around `s`; `textStyle` and unknown marks leave it alone. */
  function Wrap(m: Mark, s: string): string {
    match MarkKindOf(m.tag)
    case Bold => "**" + s + "**"
    case Italic => "*" + s + "*"
    case Code => "`" + s + "`"
    case Link => "[" + s + "](" + m.href.GetOr("") + ")"
    case TextStyle => s
    case OtherMark => s
  }

  /** The fold that the mark loop computes: the first-listed mark is the outermost wrapper. */
  function WithMarks(text: string, marks: seq<Mark>): string {
    if marks == [] then text else Wrap(marks[0], WithMarks(text, marks[1..]))
  }

  function Reverse<T>(s: seq<T>): (r: seq<T>)
    ensures |r| == |s|
    ensures forall i :: 0 <= i < |s| ==> r[i] == s[|s| - 1 - i]
  {
    if s == [] then [] else Reverse(s[1..]) + [s[0]]
  }

  // ---------------------------------------------------------------------
  // The two loops of the renderer
  // ---------------------------------------------------------------------

  /** The list-item loop: `result +=` one piece per child, then a newline. */
  method ParseListItem(n: Node, ctx: ListContext) returns (r: string)
    ensures r == ListItemMarkdown(n, ctx)
  {
    if n.content.Absent? {
      return "\n";
    }
    var cs := n.content.nodes;
    var result := "";
    for i := 0 to |cs|
      invariant result == ItemBody(cs[..i], ctx)
    {
      assert cs[..i + 1][..i] == cs[..i];
      result := result + ItemPiece(cs[i], ctx);
    }
    assert cs[..|cs|] == cs;
    r := result + "\n";
  }

  /** The mark loop: wrap the text once per mark, walking a reversed copy of the marks. */
  method ApplyMarks(text: string, marks: seq<Mark>) returns (r: string)
    ensures r == WithMarks(text, marks)
  {
    var result := text;
    var markStack := Reverse(marks);
    for i := 0 to |markStack|
      invariant result == WithMarks(text, marks[|marks| - i..])
    {
      var k := |marks| - 1 - i;
      assert marks[k..][1..] == marks[k + 1..];
      result := Wrap(markStack[i], result);
    }
    assert marks[0..] == marks;
    r := result;
  }

  // ---------------------------------------------------------------------
  // Properties of the renderer
  // ---------------------------------------------------------------------

  /** The number of copies of `c` that `s` starts with. */
  function LeadingRun(s: string, c: char): nat {
    if s != [] && s[0] == c then 1 + LeadingRun(s[1..], c) else 0
  }

  lemma {:induction false} LeadingRunRepeat(c: char, k: nat, rest: string)
    requires rest == [] || rest[0] != c
    ensures LeadingRun(Repeat(c, k) + rest, c) == k
    decreases k
  {
    if k > 0 {
      assert (Repeat(c, k) + rest)[1..] == Repeat(c, k - 1) + rest;
      LeadingRunRepeat(c, k - 1, rest);
    }
  }

  /** Rendering a node sequence is the in-order concatenation of the renderings of its parts. */
  lemma {:induction false} ParseNodesAppend(a: seq<Node>, b: seq<Node>)
    ensures ParseNodes(a + b) == ParseNodes(a) + ParseNodes(b)
    decreases a
  {
    if a == [] {
      assert a + b == b;
    } else {
      assert (a + b)[1..] == a[1..] + b;
      ParseNodesAppend(a[1..], b);
    }
  }

  /** An unknown node kind renders as its children, or as nothing when it has no content. */
  lemma UnknownNode(n: Node, ctx: ListContext)
    requires KindOf(n.tag) == Unknown
    ensures n.content.Absent? ==> ParseNode(n, ctx) == ""
    ensures n.content.Present? ==> ParseNode(n, ctx) == ParseNodes(n.content.nodes)
  {
  }

  /**
   * A heading is its level's worth of `#`, a space, its children and a blank
   * line; the level can be read back as the run of leading `#`.
   */
  lemma HeadingShape(n: Node, ctx: ListContext)
    requires KindOf(n.tag) == Heading
    ensures ParseNode(n, ctx) == Repeat('#', HeadingLevel(n)) + " " + Inner(n) + "\n\n"
    ensures LeadingRun(ParseNode(n, ctx), '#') == HeadingLevel(n) >= 1
  {
    LeadingRunRepeat('#', HeadingLevel(n), " " + Inner(n) + "\n\n");
    assert ParseNode(n, ctx) == Repeat('#', HeadingLevel(n)) + (" " + Inner(n) + "\n\n");
  }

  /**
   * A paragraph outside a list ends with a blank line; inside a list, at any
   * indent, it is only its children.
   */
  lemma ParagraphContext(p: Node, indent: nat)
    requires KindOf(p.tag) == Paragraph
    ensures ParseNode(p, Some(indent)) == Inner(p)
    ensures ParseNode(p, None) == ParseNode(p, Some(indent)) + "\n\n"
  {
  }

  /** A code block is a fence with the language, the code, and a closing fence. */
  lemma CodeBlockShape(n: Node, ctx: ListContext)
    requires KindOf(n.tag) == CodeBlock
    ensures ParseNode(n, ctx) == "```" + n.attrs.language.GetOr("") + "\n" + Inner(n) + "\n```\n\n"
  {
  }

  lemma ImageBlockShape(n: Node, ctx: ListContext)
    requires KindOf(n.tag) == ImageBlock
    ensures ParseNode(n, ctx) == "![" + n.attrs.alt.GetOr("") + "](" + n.attrs.src.GetOr("") + ")\n\n"
  {
  }

  /** The list kind a list node renders with. */
  function ListKindOf(n: Node): ListKind
    requires KindOf(n.tag) == OrderedList || KindOf(n.tag) == BulletList
  {
    if KindOf(n.tag) == OrderedList then Ordered(StartNumber(n)) else Bullet
  }

  /**
   * A list without content renders as nothing; otherwise as its entries at
   * the context's indent, plus one newline only at indent 0.
   */
  lemma ListShape(n: Node, ctx: ListContext)
    requires KindOf(n.tag) == OrderedList || KindOf(n.tag) == BulletList
    ensures n.content.Absent? ==> ParseNode(n, ctx) == ""
    ensures n.content.Present? ==>
      ParseNode(n, ctx) == ListBody(n.content.nodes, ListKindOf(n), Indent(ctx), 0)
                           + (if Indent(ctx) == 0 then "\n" else "")
  {
  }

  /** Entries of consecutive runs of items are numbered on from each other. */
  lemma ListBodyAppend(a: seq<Node>, b: seq<Node>, kind: ListKind, indent: nat, index: nat)
    ensures ListBody(a + b, kind, indent, index)
         == ListBody(a, kind, indent, index) + ListBody(b, kind, indent, index + |a|)
  {
    assert Entries(a + b, kind, indent, index)
        == Entries(a, kind, indent, index) + Entries(b, kind, indent, index + |a|);
    JoinAppend(Entries(a, kind, indent, index), Entries(b, kind, indent, index + |a|));
  }

  /** One entry: the prefix for its position, then the item rendered in the list's context. */
  function Entry(item: Node, kind: ListKind, indent: nat, index: nat): string {
    EntryPrefix(kind, indent, index) + ParseNode(item, Some(indent))
  }

  /** The list body is exactly one entry per item, in item order: entry `k` sits between the first `k` and the rest. */
  lemma ListBodyAt(items: seq<Node>, kind: ListKind, indent: nat, k: nat)
    requires k < |items|
    ensures ListBody(items, kind, indent, 0)
         == ListBody(items[..k], kind, indent, 0) + Entry(items[k], kind, indent, k)
            + ListBody(items[k + 1..], kind, indent, k + 1)
  {
    var es := Entries(items, kind, indent, 0);
    assert Entries(items[..k], kind, indent, 0) == es[..k];
    assert Entries(items[k + 1..], kind, indent, k + 1) == es[k + 1..];
    JoinAt(es, k);
  }

  /**
   * Every entry starts with exactly two spaces per indent level, followed
   * by `- ` or by the number `start + index` and `. `.
   */
  lemma EntryPrefixShape(kind: ListKind, indent: nat, index: nat, rest: string)
    ensures LeadingRun(EntryPrefix(kind, indent, index) + rest, ' ') == 2 * indent
    ensures kind.Bullet? ==> EntryPrefix(kind, indent, index) == Repeat(' ', 2 * indent) + "- "
    ensures kind.Ordered? ==>
      EntryPrefix(kind, indent, index) == Repeat(' ', 2 * indent) + IntToString(kind.start + index) + ". "
  {
    var marker := match kind
      case Ordered(start) => IntToString(start + index) + ". "
      case Bullet => "- ";
    assert EntryPrefix(kind, indent, index) + rest == Repeat(' ', 2 * indent) + (marker + rest);
    LeadingRunRepeat(' ', 2 * indent, marker + rest);
  }

  /** A list item without content is a bare newline; otherwise its pieces and one final newline. */
  lemma ListItemShape(n: Node, ctx: ListContext)
    requires KindOf(n.tag) == ListItem
    ensures n.content.Absent? ==> ParseNode(n, ctx) == "\n"
    ensures n.content.Present? ==> ParseNode(n, ctx) == ItemBody(n.content.nodes, ctx) + "\n"
  {
  }

  /** The pieces of a list item's children are laid end to end with no separator. */
  lemma {:induction false} ItemBodyAppend(a: seq<Node>, b: seq<Node>, ctx: ListContext)
    ensures ItemBody(a + b, ctx) == ItemBody(a, ctx) + ItemBody(b, ctx)
    decreases |b|
  {
    if b == [] {
      assert a + b == a;
    } else {
      var init, last := b[..|b| - 1], b[|b| - 1];
      assert a + b == (a + init) + [last];
      ItemBodyAppend(a, init, ctx);
      Regroup(ItemBody(a, ctx), ItemBody(init, ctx), ItemPiece(last, ctx));
    }
  }

  /**
   * Inside a list item, a paragraph contributes only its children, and a
   * nested list starts on a new line at one indent level deeper than the
   * item's context (level 1 for an item outside any list), without the
   * extra newline of a top-level list.
   */
  lemma ItemPieceShape(c: Node, ctx: ListContext)
    ensures KindOf(c.tag) == Paragraph ==> ItemPiece(c, ctx) == Inner(c)
    ensures (KindOf(c.tag) == OrderedList || KindOf(c.tag) == BulletList) && c.content.Present? ==>
      ItemPiece(c, ctx) == "\n" + ListBody(c.content.nodes, ListKindOf(c), Indent(ctx) + 1, 0)
    ensures (KindOf(c.tag) == OrderedList || KindOf(c.tag) == BulletList) && c.content.Absent? ==>
      ItemPiece(c, ctx) == "\n"
    ensures KindOf(c.tag) !in {Paragraph, OrderedList, BulletList} ==> ItemPiece(c, ctx) == ParseNode(c, ctx)
  {
    var d := Indent(ctx) + 1;
    assert Indent(Some(d)) == d;
    if KindOf(c.tag) == OrderedList {
      assert ParseNode(c, Some(d)) == ParseOrderedList(c, d);
    } else if KindOf(c.tag) == BulletList {
      assert ParseNode(c, Some(d)) == ParseBulletList(c, d);
    }
  }

  /** The first entry of a nested list is indented two spaces more than its enclosing list's entries. */
  lemma NestedListIndent(c: Node, ctx: ListContext)
    requires KindOf(c.tag) == OrderedList || KindOf(c.tag) == BulletList
    requires c.content.Present? && c.content.nodes != []
    ensures ItemPiece(c, ctx)[0] == '\n'
    ensures LeadingRun(ItemPiece(c, ctx)[1..], ' ') == 2 * (Indent(ctx) + 1)
  {
    var items := c.content.nodes;
    var k := ListKindOf(c);
    var d := Indent(ctx) + 1;
    var es := Entries(items, k, d, 0);
    var rest := ParseNode(items[0], Some(d)) + Join(es[1..]);
    ItemPieceShape(c, ctx);
    assert es[0] == EntryPrefix(k, d, 0) + ParseNode(items[0], Some(d));
    Regroup(EntryPrefix(k, d, 0), ParseNode(items[0], Some(d)), Join(es[1..]));
    assert ItemPiece(c, ctx) == "\n" + (EntryPrefix(k, d, 0) + rest);
    EntryPrefixShape(k, d, 0, rest);
  }

  /** A text node without marks is its text, or nothing when the text is missing. */
  lemma PlainText(n: Node, ctx: ListContext)
    requires KindOf(n.tag) == Text
    requires n.marks.None? || n.marks.value == []
    ensures ParseNode(n, ctx) == n.text.GetOr("")
  {
  }

  /** A text node with a non-empty mark list is its text with the marks applied. */
  lemma MarkedText(n: Node, ctx: ListContext)
    requires KindOf(n.tag) == Text
    requires n.marks.Some? && n.marks.value != []
    ensures ParseNode(n, ctx) == WithMarks(n.text.GetOr(""), n.marks.value)
  {
  }

  /** A bold text node "hi" renders as "**hi**" through the dispatch. */
  lemma BoldTextExample()
    ensures ParseNodes([Node("text", NoAttrs, Absent, Some("hi"), Some([Mark("bold", None)]))]) == "**hi**"
  {
    var n := Node("text", NoAttrs, Absent, Some("hi"), Some([Mark("bold", None)]));
    assert KindOf("text") == Text && MarkKindOf("bold") == Bold;
    MarkedText(n, None);
    assert ParseNodes([n]) == ParseNode(n, None);
  }

  /** What a mark writes before the text it wraps. */
  function OpenDelim(m: Mark): string {
    match MarkKindOf(m.tag)
    case Bold => "**"
    case Italic => "*"
    case Code => "`"
    case Link => "["
    case _ => ""
  }

  /** What a mark writes after the text it wraps. */
  function CloseDelim(m: Mark): string {
    match MarkKindOf(m.tag)
    case Bold => "**"
    case Italic => "*"
    case Code => "`"
    case Link => "](" + m.href.GetOr("") + ")"
    case _ => ""
  }

  /** Every mark wraps the text between a fixed opening and a fixed closing. */
  lemma WrapDelims(m: Mark, s: string)
    ensures Wrap(m, s) == OpenDelim(m) + s + CloseDelim(m)
  {
  }

  /** The opening delimiters of a mark list, outermost first. */
  function Opening(marks: seq<Mark>): string {
    if marks == [] then "" else OpenDelim(marks[0]) + Opening(marks[1..])
  }

  /** The closing delimiters of a mark list, innermost first. */
  function Closing(marks: seq<Mark>): string {
    if marks == [] then "" else Closing(marks[1..]) + CloseDelim(marks[0])
  }

  /** Wrapping a text that already sits between delimiters, regrouped. */
  lemma Nest(o: string, open: string, t: string, close: string, c: string)
    ensures o + (open + t + close) + c == (o + open) + t + (close + c)
  {
  }

  /**
   * Applying marks puts the text between the openings of the marks in
   * listed order and their closings in reverse order: the first-listed
   * mark is the outermost one.
   */
  lemma {:induction false} WithMarksSplit(text: string, marks: seq<Mark>)
    ensures WithMarks(text, marks) == Opening(marks) + text + Closing(marks)
    decreases marks
  {
    if marks != [] {
      var rest := marks[1..];
      WithMarksSplit(text, rest);
      WrapDelims(marks[0], WithMarks(text, rest));
      Nest(OpenDelim(marks[0]), Opening(rest), text, Closing(rest), CloseDelim(marks[0]));
    }
  }

  /** Marks listed after others are applied inside them. */
  lemma {:induction false} WithMarksAppend(text: string, outer: seq<Mark>, inner: seq<Mark>)
    ensures WithMarks(text, outer + inner) == WithMarks(WithMarks(text, inner), outer)
    decreases outer
  {
    if outer == [] {
      assert outer + inner == inner;
    } else {
      assert (outer + inner)[1..] == outer[1..] + inner;
      WithMarksAppend(text, outer[1..], inner);
    }
  }

  /** Marks of kind `textStyle` or of an unknown kind leave the text unchanged. */
  lemma {:induction false} InertMarks(text: string, marks: seq<Mark>)
    requires forall i :: 0 <= i < |marks| ==> MarkKindOf(marks[i].tag) in {TextStyle, OtherMark}
    ensures WithMarks(text, marks) == text
    decreases marks
  {
    if marks != [] {
      InertMarks(text, marks[1..]);
    }
  }

  /**
   * `[link, bold]` on `x` gives `[**x**](url)`: the link, listed first, is
   * the outer wrapper. (The `**[x](url)**` shown for this input in the
   * source's comment is not what its loop computes.)
   */
  lemma LinkThenBold(x: string, url: string)
    ensures WithMarks(x, [Mark("link", Some(url)), Mark("bold", None)]) == "[**" + x + "**](" + url + ")"
    ensures WithMarks(x, [Mark("link", Some(url)), Mark("bold", None)]) != "**[" + x + "](" + url + ")**"
  {
    var marks := [Mark("link", Some(url)), Mark("bold", None)];
    assert MarkKindOf("link") == Link && MarkKindOf("bold") == Bold;
    assert marks[1..] == [Mark("bold", None)] && marks[1..][1..] == [];
    assert WithMarks(x, marks[1..]) == "**" + x + "**";
    assert ("[**" + x + "**](" + url + ")")[0] == '[';
  }

  /** `[bold, link]` on `x` gives `**[x](url)**`. */
  lemma BoldThenLink(x: string, url: string)
    ensures WithMarks(x, [Mark("bold", None), Mark("link", Some(url))]) == "**[" + x + "](" + url + ")**"
  {
    var marks := [Mark("bold", None), Mark("link", Some(url))];
    assert MarkKindOf("link") == Link && MarkKindOf("bold") == Bold;
    assert marks[1..] == [Mark("link", Some(url))] && marks[1..][1..] == [];
    assert WithMarks(x, marks[1..]) == "[" + x + "](" + url + ")";
  }

  // ---------------------------------------------------------------------
  // Worked examples
  // ---------------------------------------------------------------------

  function TextNode(s: string): Node {
    Node("text", NoAttrs, Absent, Some(s), None)
  }

  function Block(tag: string, attrs: Attrs, children: seq<Node>): Node {
    Node(tag, attrs, Present(children), None, None)
  }

  /** A list item holding one paragraph with the given text. */
  function SimpleItem(s: string): Node {
    Block("listItem", NoAttrs, [Block("paragraph", NoAttrs, [TextNode(s)])])
  }

  /** A list of one item is that item's entry. */
  lemma SingleEntry(item: Node, kind: ListKind, indent: nat, index: nat)
    ensures ListBody([item], kind, indent, index) == Entry(item, kind, indent, index)
  {
    assert Entries([item], kind, indent, index) == [Entry(item, kind, indent, index)];
    JoinSingle(Entry(item, kind, indent, index));
  }

  /** A list of two items is their two entries, numbered 0 and 1. */
  lemma TwoEntries(first: Node, second: Node, kind: ListKind, indent: nat)
    ensures ListBody([first, second], kind, indent, 0)
         == Entry(first, kind, indent, 0) + Entry(second, kind, indent, 1)
  {
    assert [first, second] == [first] + [second];
    ListBodyAppend([first], [second], kind, indent, 0);
    SingleEntry(first, kind, indent, 0);
    SingleEntry(second, kind, indent, 1);
  }

  lemma SimpleItemRenders(s: string, indent: nat)
    ensures ParseNode(SimpleItem(s), Some(indent)) == s + "\n"
  {
    var p := Block("paragraph", NoAttrs, [TextNode(s)]);
    assert KindOf("listItem") == ListItem && KindOf("paragraph") == Paragraph && KindOf("text") == Text;
    TextNodeRenders(s);
    assert Inner(p) == s;
    assert ItemPiece(p, Some(indent)) == s;
    assert [p][..0] == [];
    assert ItemBody([p], Some(indent)) == ItemBody([], Some(indent)) + ItemPiece(p, Some(indent));
    assert ParseNode(SimpleItem(s), Some(indent)) == ListItemMarkdown(SimpleItem(s), Some(indent));
  }

  lemma TextNodeRenders(s: string)
    ensures ParseNodes([TextNode(s)]) == s
  {
    assert KindOf("text") == Text;
    assert ParseNode(TextNode(s), None) == ParseText(TextNode(s)) == s;
    assert [TextNode(s)][1..] == [];
  }

  lemma HeadingExample()
    ensures ParseNode(Block("heading", NoAttrs.(level := Some(3)), [TextNode("Hi")]), None) == "### Hi\n\n"
  {
    assert KindOf("heading") == Heading;
    TextNodeRenders("Hi");
    assert Repeat('#', 3) == "###";
  }

  /** A heading without a level, or with level 0, is a level-1 heading. */
  lemma DefaultHeadingExample()
    ensures ParseNode(Block("heading", NoAttrs, [TextNode("Hi")]), None) == "# Hi\n\n"
    ensures ParseNode(Block("heading", NoAttrs.(level := Some(0)), [TextNode("Hi")]), None) == "# Hi\n\n"
  {
    assert KindOf("heading") == Heading;
    TextNodeRenders("Hi");
    assert Repeat('#', 1) == "#";
  }

  lemma BulletListExample()
    ensures ParseNode(Block("bulletList", NoAttrs, [SimpleItem("a"), SimpleItem("b")]), None) == "- a\n- b\n\n"
  {
    var items := [SimpleItem("a"), SimpleItem("b")];
    assert KindOf("bulletList") == BulletList;
    SimpleItemRenders("a", 0);
    SimpleItemRenders("b", 0);
    TwoEntries(SimpleItem("a"), SimpleItem("b"), Bullet, 0);
    assert EntryPrefix(Bullet, 0, 0) == "- " && EntryPrefix(Bullet, 0, 1) == "- ";
    var body := ListBody(items, Bullet, 0, 0);
    assert body == "- a\n- b\n";
    assert ParseNode(Block("bulletList", NoAttrs, items), None) == body + "\n";
  }

  lemma OrderedListExample()
    ensures ParseNode(Block("orderedList", NoAttrs.(start := Some(5)), [SimpleItem("a"), SimpleItem("b")]), None)
         == "5. a\n6. b\n\n"
  {
    var n := Block("orderedList", NoAttrs.(start := Some(5)), [SimpleItem("a"), SimpleItem("b")]);
    var items := [SimpleItem("a"), SimpleItem("b")];
    assert KindOf("orderedList") == OrderedList;
    assert StartNumber(n) == 5;
    SimpleItemRenders("a", 0);
    SimpleItemRenders("b", 0);
    TwoEntries(SimpleItem("a"), SimpleItem("b"), Ordered(5), 0);
    assert IntToString(5) == "5" && IntToString(6) == "6";
    assert EntryPrefix(Ordered(5), 0, 0) == "5. " && EntryPrefix(Ordered(5), 0, 1) == "6. ";
    var body := ListBody(items, Ordered(5), 0, 0);
    assert body == "5. a\n6. b\n";
    assert ParseNode(n, None) == body + "\n";
  }

  lemma CodeBlockExample()
    ensures ParseNode(Block("codeBlock", NoAttrs.(language := Some("python")), [TextNode("pass")]), None)
         == "```python\npass\n```\n\n"
  {
    var n := Block("codeBlock", NoAttrs.(language := Some("python")), [TextNode("pass")]);
    assert KindOf("codeBlock") == CodeBlock;
    TextNodeRenders("pass");
    assert Inner(n) == "pass";
    assert ParseNode(n, None) == ParseCodeBlock(n) == "```" + "python" + "\n" + "pass" + "\n```\n\n";
  }

  lemma UnknownExample()
    ensures ParseNode(Block("callout", NoAttrs, [TextNode("a"), TextNode("b")]), None) == "ab"
    ensures ParseNode(Node("callout", NoAttrs, Absent, None, None), None) == ""
  {
    var ns := [TextNode("a"), TextNode("b")];
    assert KindOf("callout") == Unknown && KindOf("text") == Text;
    assert ns[1..] == [TextNode("b")];
    TextNodeRenders("b");
  }

  /**
   * An empty item array differs from a missing one: at the top level it
   * still gets the list's closing newline, nested it gives nothing.
   */
  lemma EmptyListExample()
    ensures ParseNode(Block("bulletList", NoAttrs, []), None) == "\n"
    ensures ParseNode(Node("bulletList", NoAttrs, Absent, None, None), None) == ""
    ensures ParseNode(Block("orderedList", NoAttrs, []), Some(2)) == ""
  {
    assert KindOf("bulletList") == BulletList && KindOf("orderedList") == OrderedList;
    assert Entries([], Bullet, 0, 0) == [];
    assert Entries([], Ordered(1), 2, 0) == [];
  }

  function NestedItem(): Node {
    Block("listItem", NoAttrs, [
      Block("paragraph", NoAttrs, [TextNode("a")]),
      Block("bulletList", NoAttrs, [SimpleItem("b")])])
  }

  lemma NestedInnerList()
    ensures ParseNode(Block("bulletList", NoAttrs, [SimpleItem("b")]), Some(1)) == "  - b\n"
  {
    var inner := Block("bulletList", NoAttrs, [SimpleItem("b")]);
    assert KindOf("bulletList") == BulletList;
    SimpleItemRenders("b", 1);
    assert EntryPrefix(Bullet, 1, 0) == "  - ";
    assert [SimpleItem("b")][1..] == [];
    assert ParseNode(inner, Some(1)) == ParseBulletList(inner, 1);
  }

  lemma NestedItemRenders()
    ensures ParseNode(NestedItem(), Some(0)) == "a\n  - b\n\n"
  {
    var inner := Block("bulletList", NoAttrs, [SimpleItem("b")]);
    var p := Block("paragraph", NoAttrs, [TextNode("a")]);
    assert KindOf("bulletList") == BulletList && KindOf("listItem") == ListItem;
    assert KindOf("paragraph") == Paragraph;
    TextNodeRenders("a");
    NestedInnerList();
    assert ItemPiece(p, Some(0)) == "a";
    assert Indent(Some(0)) + 1 == 1;
    assert ItemPiece(inner, Some(0)) == "\n" + ParseNode(inner, Some(1));
    assert ItemPiece(inner, Some(0)) == "\n  - b\n";
    assert [p, inner][..1] == [p] && [p][..0] == [];
    assert ItemBody([p], Some(0)) == "a";
    assert ItemBody([p, inner], Some(0)) == ItemBody([p], Some(0)) + ItemPiece(inner, Some(0));
    assert NestedItem() == Block("listItem", NoAttrs, [p, inner]);
    assert ParseNode(NestedItem(), Some(0)) == ListItemMarkdown(NestedItem(), Some(0));
  }

  /** A bullet list nested in an item of a top-level list: its entries carry two spaces. */
  lemma NestedListExample()
    ensures ParseNode(Block("bulletList", NoAttrs, [NestedItem()]), None) == "- a\n  - b\n\n\n"
  {
    var outer := Block("bulletList", NoAttrs, [NestedItem()]);
    assert KindOf("bulletList") == BulletList;
    NestedItemRenders();
    SingleEntry(NestedItem(), Bullet, 0, 0);
    assert EntryPrefix(Bullet, 0, 0) == "- ";
    var body := ListBody([NestedItem()], Bullet, 0, 0);
    assert body == "- a\n  - b\n\n";
    assert ParseNode(outer, None) == body + "\n";
  }
}
