/**
 * The document assembler: wraps the renderer's output into a lesson file
 * (a front-matter block, the title heading, the body) and builds a
 * module's index file, which lists every lesson by position.
 */
module MarkdownGenerator {
  import opened Andamio
  import opened Decimal
  import ContentParser
  import opened Strings

  /** The number of occurrences of `c` in `s`. */
  function Count(s: string, c: char): nat {
    if s == [] then 0 else (if s[0] == c then 1 else 0) + Count(s[1..], c)
  }

  lemma {:induction false} CountAppend(a: string, b: string, c: char)
    ensures Count(a + b, c) == Count(a, c) + Count(b, c)
    decreases a
  {
    if a == [] {
      assert a + b == b;
    } else {
      assert (a + b)[0] == a[0];
      assert (a + b)[1..] == a[1..] + b;
      CountAppend(a[1..], b, c);
    }
  }

  /** Every double quote in `s` comes right after a backslash. */
  predicate QuotesEscaped(s: string) {
    forall i :: 0 <= i < |s| && s[i] == '"' ==> i > 0 && s[i - 1] == '\\'
  }

  /**
   * The front-matter escaper, `str.replace(/"/g, '\\"')`: a backslash goes
   * before every double quote and nothing else changes.
   */
  function EscapeYaml(s: string): (r: string)
    ensures |r| == |s| + Count(s, '"')
    ensures QuotesEscaped(r)
  {
    if s == [] then ""
    else
      var rest := EscapeYaml(s[1..]);
      var head := if s[0] == '"' then "\\\"" else [s[0]];
      assert forall i :: |head| <= i < |head + rest| ==> (head + rest)[i] == rest[i - |head|];
      head + rest
  }

  /** The reading of an escaped value: `\"` stands for `"`, every other character for itself. */
  function Unescape(s: string): string {
    if s == [] then ""
    else if |s| >= 2 && s[0] == '\\' && s[1] == '"' then "\"" + Unescape(s[2..])
    else [s[0]] + Unescape(s[1..])
  }

  /** Unescaping an escaped value gives back the value. */
  lemma {:induction false} UnescapeEscapeYaml(s: string)
    ensures Unescape(EscapeYaml(s)) == s
    decreases s
  {
    if s != [] {
      var rest := EscapeYaml(s[1..]);
      UnescapeEscapeYaml(s[1..]);
      if s[0] == '"' {
        assert EscapeYaml(s) == "\\\"" + rest;
        assert EscapeYaml(s)[2..] == rest;
      } else {
        assert EscapeYaml(s) == [s[0]] + rest;
        assert rest == [] || rest[0] != '"';
        assert EscapeYaml(s)[1..] == rest;
      }
    }
  }

  /** A value without double quotes is inserted unchanged. */
  lemma {:induction false} EscapeYamlNoQuotes(s: string)
    requires forall i :: 0 <= i < |s| ==> s[i] != '"'
    ensures EscapeYaml(s) == s
    decreases s
  {
    if s != [] {
      EscapeYamlNoQuotes(s[1..]);
    }
  }

  /** Lines joined with a newline after each, as a multi-line template literal lays them out. */
  function Lines(ls: seq<string>): string {
    if ls == [] then "" else ls[0] + "\n" + Lines(ls[1..])
  }

  lemma {:induction false} LinesAppend(a: seq<string>, b: seq<string>)
    ensures Lines(a + b) == Lines(a) + Lines(b)
    decreases a
  {
    if a == [] {
      assert a + b == b;
    } else {
      assert (a + b)[0] == a[0];
      assert (a + b)[1..] == a[1..] + b;
      LinesAppend(a[1..], b);
    }
  }

  /** A string without `c` counts no `c`. */
  lemma {:induction false} CountAbsent(s: string, c: char)
    requires c !in s
    ensures Count(s, c) == 0
    decreases s
  {
    if s != [] {
      assert s == [s[0]] + s[1..];
      CountAbsent(s[1..], c);
    }
  }

  /** Lines without a line break of their own give one newline each. */
  lemma {:induction false} LinesCount(ls: seq<string>)
    requires forall k :: 0 <= k < |ls| ==> '\n' !in ls[k]
    ensures Count(Lines(ls), '\n') == |ls|
    decreases ls
  {
    if ls != [] {
      LinesCount(ls[1..]);
      CountAbsent(ls[0], '\n');
      CountAppend(ls[0], "\n", '\n');
      CountAppend(ls[0] + "\n", Lines(ls[1..]), '\n');
    }
  }

  /**
   * The lines of a lesson's front matter, in order: the opening delimiter,
   * the id, the title, module, moduleCode and description values (the
   * title, module title and description escaped, each value but the id in
   * double quotes), the closing delimiter, a blank line and a heading with
   * the unescaped title.
   */
  function FrontMatterLines(lesson: Lesson, moduleTitle: string, moduleCode: string): seq<string> {
    [ "---",
      "id: " + lesson.id,
      "title: \"" + EscapeYaml(lesson.title) + "\"",
      "module: \"" + EscapeYaml(moduleTitle) + "\"",
      "moduleCode: \"" + moduleCode + "\"",
      "description: \"" + EscapeYaml(lesson.description) + "\"",
      "---",
      "",
      "# " + lesson.title ]
  }

  /** The front matter of a lesson, one line of the template after another. */
  function FrontMatter(lesson: Lesson, moduleTitle: string, moduleCode: string): string {
    Lines(FrontMatterLines(lesson, moduleTitle, moduleCode))
  }

  /**
   * The front matter opens with its delimiter line and closes with the
   * delimiter, a blank line and the title heading.
   */
  lemma FrontMatterShape(lesson: Lesson, moduleTitle: string, moduleCode: string)
    ensures var r := FrontMatter(lesson, moduleTitle, moduleCode);
      |r| >= 4 + |lesson.title| + 8
      && r[..4] == "---\n"
      && r[|r| - |lesson.title| - 8..] == "---\n\n# " + lesson.title + "\n"
  {
    var ls := FrontMatterLines(lesson, moduleTitle, moduleCode);
    var r := Lines(ls);
    var tail := "---\n\n# " + lesson.title + "\n";
    assert ls == ls[..6] + ls[6..];
    LinesAppend(ls[..6], ls[6..]);
    assert Lines(ls[6..]) == tail by {
      assert ls[6..][1..][1..][1..] == [];
      assert Lines(ls[6..][1..][1..]) == "# " + lesson.title + "\n";
    }
    var head := Lines(ls[..6]);
    assert head == "---\n" + Lines(ls[..6][1..]) by { assert ls[..6][0] == "---"; }
    assert r == head + tail;
    assert r[..4] == head[..4];
  }

  /** Escaping neither adds nor removes line breaks. */
  lemma {:induction false} EscapeYamlBreaks(s: string)
    ensures '\n' in EscapeYaml(s) <==> '\n' in s
    decreases s
  {
    if s != [] {
      EscapeYamlBreaks(s[1..]);
      assert s == [s[0]] + s[1..];
    }
  }

  /**
   * When no value holds a line break, the front matter is exactly nine
   * lines; a line break in a value would add lines to the YAML block.
   */
  lemma FrontMatterLineCount(lesson: Lesson, moduleTitle: string, moduleCode: string)
    requires '\n' !in lesson.id && '\n' !in lesson.title && '\n' !in lesson.description
    requires '\n' !in moduleTitle && '\n' !in moduleCode
    ensures Count(FrontMatter(lesson, moduleTitle, moduleCode), '\n') == 9
  {
    EscapeYamlBreaks(lesson.title);
    EscapeYamlBreaks(moduleTitle);
    EscapeYamlBreaks(lesson.description);
    var ls := FrontMatterLines(lesson, moduleTitle, moduleCode);
    forall k | 0 <= k < |ls|
      ensures '\n' !in ls[k]
    {
    }
    LinesCount(ls);
  }

  /**
   * The id and module code lines carry their values verbatim. The title,
   * module and description lines hold their value between double quotes,
   * and what stands between the quotes unescapes to the value.
   */
  lemma FrontMatterValuesReadBack(lesson: Lesson, moduleTitle: string, moduleCode: string)
    ensures var ls := FrontMatterLines(lesson, moduleTitle, moduleCode);
      ls[1] == "id: " + lesson.id && ls[4] == "moduleCode: \"" + moduleCode + "\""
    ensures var line := FrontMatterLines(lesson, moduleTitle, moduleCode)[2];
      |line| >= 9 && line[..8] == "title: \"" && line[|line| - 1] == '"'
      && Unescape(line[8..|line| - 1]) == lesson.title
    ensures var line := FrontMatterLines(lesson, moduleTitle, moduleCode)[3];
      |line| >= 10 && line[..9] == "module: \"" && line[|line| - 1] == '"'
      && Unescape(line[9..|line| - 1]) == moduleTitle
    ensures var line := FrontMatterLines(lesson, moduleTitle, moduleCode)[5];
      |line| >= 15 && line[..14] == "description: \"" && line[|line| - 1] == '"'
      && Unescape(line[14..|line| - 1]) == lesson.description
  {
    var ls := FrontMatterLines(lesson, moduleTitle, moduleCode);
    assert ls[2][8..|ls[2]| - 1] == EscapeYaml(lesson.title);
    assert ls[3][9..|ls[3]| - 1] == EscapeYaml(moduleTitle);
    assert ls[5][14..|ls[5]| - 1] == EscapeYaml(lesson.description);
    UnescapeEscapeYaml(lesson.title);
    UnescapeEscapeYaml(moduleTitle);
    UnescapeEscapeYaml(lesson.description);
  }

  /**
   * Backslashes are not escaped: a title ending in a backslash leaves a
   * backslash right before the closing quote of its line, which a YAML
   * reader takes as an escaped quote.
   */
  lemma TrailingBackslashTitle()
    ensures var line := "title: \"" + EscapeYaml("a\\") + "\"";
      line == "title: \"a\\\"" && line[|line| - 2] == '\\'
  {
    assert EscapeYaml("\\") == "\\" by { assert "\\"[1..] == ""; }
    assert "a\\"[1..] == "\\";
  }

  /** A title `a"b` is written as `a\"b` between the quotes. */
  lemma QuotedTitleExample()
    ensures EscapeYaml("a\"b") == "a\\\"b"
  {
    assert EscapeYaml("b") == "b";
    assert EscapeYaml("\"b") == "\\\"b" by { assert "\"b"[1..] == "b"; }
    assert "a\"b"[1..] == "\"b";
  }

  lemma {:induction false} EscapeSplit(a: string, b: string)
    ensures EscapeYaml(a + b) == EscapeYaml(a) + EscapeYaml(b)
    decreases a
  {
    if a != [] {
      assert (a + b)[0] == a[0];
      assert (a + b)[1..] == a[1..] + b;
      EscapeSplit(a[1..], b);
      var head := if a[0] == '"' then "\\\"" else [a[0]];
      Regroup(head, EscapeYaml(a[1..]), EscapeYaml(b));
    } else {
      assert a + b == b;
    }
  }

  /** A lesson file: the front matter, a newline, and the rendered body. */
  function LessonMarkdown(lesson: Lesson, moduleTitle: string, moduleCode: string): (r: string)
    ensures var fm := FrontMatter(lesson, moduleTitle, moduleCode);
      |r| > |fm| && r[..|fm|] == fm && r[|fm|] == '\n'
      && r[|fm| + 1..] == ContentParser.ParseContent(lesson.contentJson)
  {
    FrontMatter(lesson, moduleTitle, moduleCode) + "\n" + ContentParser.ParseContent(lesson.contentJson)
  }

  /** A lesson without a body is its front matter and one blank line. */
  lemma LessonWithoutBody(lesson: Lesson, moduleTitle: string, moduleCode: string)
    requires lesson.contentJson.None? || lesson.contentJson.value.content.Absent?
    ensures LessonMarkdown(lesson, moduleTitle, moduleCode) == FrontMatter(lesson, moduleTitle, moduleCode) + "\n"
  {
  }

  /** The file name of the lesson at 1-based position `index`: its number, then `.md`. */
  function LessonFilename(index: nat): string {
    NatToString(index) + ".md"
  }

  /** A lesson's file name is `.md` after a number that reads back as the lesson's position. */
  lemma LessonFilenameReadsBack(index: nat)
    ensures var r := LessonFilename(index);
      |r| > 3 && r[|r| - 3..] == ".md" && AllDigits(r[..|r| - 3]) && ParseNat(r[..|r| - 3]) == index
  {
    var r := LessonFilename(index);
    assert r[..|r| - 3] == NatToString(index);
    ParseNatToString(index);
  }

  /** Different positions give different file names. */
  lemma LessonFilenameInjective(a: nat, b: nat)
    ensures LessonFilename(a) == LessonFilename(b) ==> a == b
  {
    LessonFilenameReadsBack(a);
    LessonFilenameReadsBack(b);
  }

  function IndexFilename(): string {
    "index.md"
  }

  /** The index file never takes the name of a lesson file. */
  lemma IndexFilenameDistinct(index: nat)
    ensures IndexFilename() != LessonFilename(index)
  {
    var s := NatToString(index);
    NatToStringDigits(index);
    assert IsDigit(s[0]);
    assert (s + ".md")[0] == s[0];
  }

  /** `pat` occurs in `s` at position `j`. */
  predicate OccursAt(s: string, pat: string, j: nat) {
    j + |pat| <= |s| && s[j..j + |pat|] == pat
  }

  /** The first occurrence of `pat` in `s` at or after `from`. */
  function FindFrom(s: string, pat: string, from: nat): (r: Option<nat>)
    ensures r.Some? ==> from <= r.value && OccursAt(s, pat, r.value)
    ensures forall j :: from <= j && (r.None? || j < r.value) ==> !OccursAt(s, pat, j)
    decreases |s| - from
  {
    if from + |pat| > |s| then None
    else if s[from..from + |pat|] == pat then Some(from)
    else FindFrom(s, pat, from + 1)
  }

  /** `s.replace(pat, '')` with a string pattern: only the first occurrence goes. */
  function RemoveFirst(s: string, pat: string): string {
    match FindFrom(s, pat, 0)
    case None => s
    case Some(k) => s[..k] + s[k + |pat|..]
  }

  /** Removing `.md` from a lesson's file name leaves exactly its number. */
  lemma StripLessonExtension(number: nat)
    ensures RemoveFirst(LessonFilename(number), ".md") == NatToString(number)
  {
    var digits := NatToString(number);
    NatToStringDigits(number);
    var s := LessonFilename(number);
    assert s == digits + ".md";
    assert OccursAt(s, ".md", |digits|);
    var found := FindFrom(s, ".md", 0);
    assert found.Some?;
    var k := found.value;
    assert k <= |digits|;
    forall j: nat | j < |digits|
      ensures !OccursAt(s, ".md", j)
    {
      assert s[j..j + 3][0] == s[j] == digits[j];
      assert IsDigit(digits[j]);
    }
    assert k >= |digits|;
  }

  /** The fixed header of a module index, reporting the number of lessons. */
  function IndexHeader(moduleTitle: string, moduleCode: string, lessonCount: nat): string {
    "---\n"
    + "moduleTitle: \"" + moduleTitle + "\"\n"
    + "moduleCode: \"" + moduleCode + "\"\n"
    + "lessonCount: " + NatToString(lessonCount) + "\n"
    + "---\n\n# " + moduleTitle + "\n\nModule Code: " + moduleCode + "\n\n## Lessons\n\n"
  }

  /**
   * The index line of the lesson with 1-based number `number`: the number,
   * then a link to the file named after that number, shown as the title.
   */
  function IndexLine(number: nat, title: string): string {
    NatToString(number) + ". [[" + NatToString(number) + "|" + title + "]]\n"
  }

  /** One index line per lesson, in lesson order, numbered on from `base`. */
  function IndexEntries(lessons: seq<Lesson>, base: nat): seq<string> {
    seq(|lessons|, i requires 0 <= i < |lessons| => IndexLine(base + i + 1, lessons[i].title))
  }

  /** The index lines of `lessons`, numbered on from `base`, laid end to end. */
  function IndexLines(lessons: seq<Lesson>, base: nat): string {
    Join(IndexEntries(lessons, base))
  }

  /** What the index loop produces. */
  function ModuleIndex(m: ModuleResponse): string {
    IndexHeader(m.moduleTitle, m.moduleCode, |m.lessons|) + IndexLines(m.lessons, 0)
  }

  /** The index loop: the header, then one appended line per lesson. */
  method GenerateModuleIndex(m: ModuleResponse) returns (markdown: string)
    ensures markdown == ModuleIndex(m)
  {
    var lessons := m.lessons;
    markdown := IndexHeader(m.moduleTitle, m.moduleCode, |lessons|);
    for index := 0 to |lessons|
      invariant markdown == IndexHeader(m.moduleTitle, m.moduleCode, |lessons|) + IndexLines(lessons[..index], 0)
    {
      var lessonNumber := index + 1;
      var filename := LessonFilename(lessonNumber);
      var line := NatToString(lessonNumber) + ". [[" + RemoveFirst(filename, ".md") + "|" + lessons[index].title + "]]\n";
      StripLessonExtension(lessonNumber);
      assert line == IndexLine(lessonNumber, lessons[index].title);
      IndexLinesExtend(lessons, index);
      Regroup(IndexHeader(m.moduleTitle, m.moduleCode, |lessons|), IndexLines(lessons[..index], 0), line);
      markdown := markdown + line;
    }
    assert lessons[..|lessons|] == lessons;
  }

  lemma IndexLinesAppend(a: seq<Lesson>, b: seq<Lesson>, base: nat)
    ensures IndexLines(a + b, base) == IndexLines(a, base) + IndexLines(b, base + |a|)
  {
    assert IndexEntries(a + b, base) == IndexEntries(a, base) + IndexEntries(b, base + |a|);
    JoinAppend(IndexEntries(a, base), IndexEntries(b, base + |a|));
  }

  /** Each turn of the index loop appends the line of the next lesson. */
  lemma IndexLinesExtend(lessons: seq<Lesson>, index: nat)
    requires index < |lessons|
    ensures IndexLines(lessons[..index + 1], 0)
         == IndexLines(lessons[..index], 0) + IndexLine(index + 1, lessons[index].title)
  {
    assert lessons[..index + 1] == lessons[..index] + [lessons[index]];
    IndexLinesAppend(lessons[..index], [lessons[index]], 0);
    assert IndexEntries([lessons[index]], index) == [IndexLine(index + 1, lessons[index].title)];
    JoinSingle(IndexLine(index + 1, lessons[index].title));
  }

  /**
   * The index holds one line per lesson in source order: line `k` (counting
   * from 0) is the line numbered `k + 1`, between the lines of the lessons
   * before it and those after it.
   */
  lemma IndexLinesAt(lessons: seq<Lesson>, k: nat)
    requires k < |lessons|
    ensures IndexLines(lessons, 0)
         == IndexLines(lessons[..k], 0) + IndexLine(k + 1, lessons[k].title) + IndexLines(lessons[k + 1..], k + 1)
  {
    var es := IndexEntries(lessons, 0);
    assert IndexEntries(lessons[..k], 0) == es[..k];
    assert IndexEntries(lessons[k + 1..], k + 1) == es[k + 1..];
    JoinAt(es, k);
  }

  /** With titles on one line each, the lesson list has exactly one line per lesson. */
  lemma {:induction false} IndexLinesCount(lessons: seq<Lesson>, base: nat)
    requires forall i :: 0 <= i < |lessons| ==> Count(lessons[i].title, '\n') == 0
    ensures Count(IndexLines(lessons, base), '\n') == |lessons|
    decreases |lessons|
  {
    if lessons != [] {
      var es := IndexEntries(lessons, base);
      assert es[1..] == IndexEntries(lessons[1..], base + 1);
      IndexLinesCount(lessons[1..], base + 1);
      IndexLineCount(base + 1, lessons[0].title);
      CountAppend(es[0], Join(es[1..]), '\n');
    }
  }

  /** An index line for a one-line title holds exactly one line break, its last character. */
  lemma IndexLineCount(number: nat, title: string)
    requires Count(title, '\n') == 0
    ensures Count(IndexLine(number, title), '\n') == 1
  {
    var digits := NatToString(number);
    NatToStringDigits(number);
    NoNewlineInDigits(digits);
    CountAppend(digits + ". [[" + digits + "|" + title, "]]\n", '\n');
    CountAppend(digits + ". [[" + digits + "|", title, '\n');
    CountAppend(digits + ". [[" + digits, "|", '\n');
    CountAppend(digits + ". [[", digits, '\n');
    CountAppend(digits, ". [[", '\n');
    assert Count("]]\n", '\n') == 1;
  }

  lemma {:induction false} NoNewlineInDigits(s: string)
    requires AllDigits(s)
    ensures Count(s, '\n') == 0
    decreases s
  {
    if s != [] {
      assert IsDigit(s[0]);
      NoNewlineInDigits(s[1..]);
    }
  }

  /**
   * The index depends on the lessons' titles and positions only: ids,
   * descriptions and bodies do not change it.
   */
  lemma IndexIgnoresLessonIds(a: seq<Lesson>, b: seq<Lesson>, base: nat)
    requires |a| == |b|
    requires forall i :: 0 <= i < |a| ==> a[i].title == b[i].title
    ensures IndexLines(a, base) == IndexLines(b, base)
  {
    assert IndexEntries(a, base) == IndexEntries(b, base);
  }

  /** A module without lessons has only the fixed header, which ends with the Lessons heading. */
  lemma EmptyModuleIndex(m: ModuleResponse)
    requires m.lessons == []
    ensures ModuleIndex(m) == IndexHeader(m.moduleTitle, m.moduleCode, 0)
    ensures |ModuleIndex(m)| >= 12 && ModuleIndex(m)[|ModuleIndex(m)| - 12..] == "## Lessons\n\n"
  {
    var h := IndexHeader(m.moduleTitle, m.moduleCode, 0);
    var front := "---\n"
      + "moduleTitle: \"" + m.moduleTitle + "\"\n"
      + "moduleCode: \"" + m.moduleCode + "\"\n"
      + "lessonCount: " + NatToString(0) + "\n"
      + "---\n\n# " + m.moduleTitle + "\n\nModule Code: " + m.moduleCode + "\n\n";
    assert h == front + "## Lessons\n\n";
    assert ModuleIndex(m) == h;
  }

  /** Whatever the lessons, the index starts with the header that reports their number. */
  lemma IndexStartsWithHeader(m: ModuleResponse)
    ensures var h := IndexHeader(m.moduleTitle, m.moduleCode, |m.lessons|);
      |ModuleIndex(m)| >= |h| && ModuleIndex(m)[..|h|] == h
  {
  }
}
