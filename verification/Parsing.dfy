/** From decoded text to sections: paragraphs of plain text, and Markdown blocks under headings. */
module Parsing {
  import opened Wrappers
  import opened Text

  datatype Section = Section(ref: Option<string>, text: string)

  /** All words of a list of texts, in order. */
  function AllWords(texts: seq<string>): seq<string>
    decreases |texts|
  {
    if texts == [] then [] else Words(texts[0]) + AllWords(texts[1..])
  }

  function Texts(sections: seq<Section>): seq<string> {
    seq(|sections|, i requires 0 <= i < |sections| => sections[i].text)
  }

  /** `s.split("\n\n")`, with `part` read so far. */
  function SplitBlank(s: string, part: string): seq<string>
    decreases |s|
  {
    if |s| < 2 then [part + s]
    else if s[0] == '\n' && s[1] == '\n' then [part] + SplitBlank(s[2..], "")
    else SplitBlank(s[1..], part + [s[0]])
  }

  lemma {:induction false} AllWordsConcat(a: seq<string>, b: seq<string>)
    ensures AllWords(a + b) == AllWords(a) + AllWords(b)
    decreases |a|
  {
    if a == [] { assert a + b == b; }
    else {
      assert (a + b)[0] == a[0] && (a + b)[1..] == a[1..] + b;
      AllWordsConcat(a[1..], b);
    }
  }

  lemma AllWordsCons(t: string, rest: seq<string>)
    ensures AllWords([t] + rest) == Words(t) + AllWords(rest)
  {
    assert ([t] + rest)[1..] == rest;
  }

  lemma AllWordsSnoc(front: seq<string>, t: string)
    ensures AllWords(front + [t]) == AllWords(front) + Words(t)
  {
    AllWordsConcat(front, [t]);
    AllWordsCons(t, []);
    assert [t] + [] == [t];
  }

  /** Splitting at blank lines loses no words. */
  lemma {:induction false} SplitBlankKeepsWords(s: string, part: string)
    ensures AllWords(SplitBlank(s, part)) == Words(part + s)
    decreases |s|
  {
    if |s| < 2 {
      AllWordsCons(part + s, []);
    } else if s[0] == '\n' && s[1] == '\n' {
      AllWordsCons(part, SplitBlank(s[2..], ""));
      SplitBlankKeepsWords(s[2..], "");
      assert "" + s[2..] == s[2..];
      assert part + s == part + "\n\n" + s[2..];
      WordsOfConcat(part, "\n\n", s[2..]);
    } else {
      SplitBlankKeepsWords(s[1..], part + [s[0]]);
      assert part + s == part + [s[0]] + s[1..];
    }
  }

  // ---------------------------------------------------------------- plain text

  /** `[p.strip() for p in parts if p.strip()]`. */
  function Paragraphs(parts: seq<string>): seq<string>
    decreases |parts|
  {
    if parts == [] then []
    else (if Strip(parts[0]) == "" then [] else [Strip(parts[0])]) + Paragraphs(parts[1..])
  }

  function Untitled(texts: seq<string>): seq<Section> {
    seq(|texts|, i requires 0 <= i < |texts| => Section(None, texts[i]))
  }

  /** The sections of a plain-text document. */
  function ParseTxt(text: string): seq<Section> {
    var paragraphs := Paragraphs(SplitBlank(text, ""));
    if paragraphs == [] then [Section(None, text)] else Untitled(paragraphs)
  }

  lemma {:induction false} ParagraphsKeepWords(parts: seq<string>)
    ensures AllWords(Paragraphs(parts)) == AllWords(parts)
    decreases |parts|
  {
    if parts != [] {
      StripKeepsWords(parts[0]);
      ParagraphsKeepWords(parts[1..]);
      var head := if Strip(parts[0]) == "" then [] else [Strip(parts[0])];
      AllWordsConcat(head, Paragraphs(parts[1..]));
      if head != [] { AllWordsCons(Strip(parts[0]), []); }
      assert Words("") == [];
    }
  }

  /** A plain-text document has at least one section, and the sections hold its words, all of
      them, in order. */
  lemma TxtKeepsWords(text: string)
    ensures ParseTxt(text) != [] && AllWords(Texts(ParseTxt(text))) == Words(text)
  {
    SplitBlankKeepsWords(text, "");
    assert "" + text == text;
    ParagraphsKeepWords(SplitBlank(text, ""));
    var paragraphs := Paragraphs(SplitBlank(text, ""));
    if paragraphs == [] {
      assert Texts(ParseTxt(text)) == [text];
      AllWordsCons(text, []);
    } else {
      assert Texts(Untitled(paragraphs)) == paragraphs;
    }
  }

  predicate NoBlankLine(s: string) {
    forall i | 0 <= i < |s| - 1 :: !(s[i] == '\n' && s[i + 1] == '\n')
  }

  lemma {:induction false} PartsHaveNoBlankLine(s: string, part: string)
    requires NoBlankLine(part) && (part != "" && s != "" ==> !(part[|part| - 1] == '\n' && s[0] == '\n'))
    ensures forall p | p in SplitBlank(s, part) :: NoBlankLine(p)
    decreases |s|
  {
    if |s| >= 2 {
      if s[0] == '\n' && s[1] == '\n' { PartsHaveNoBlankLine(s[2..], ""); }
      else { PartsHaveNoBlankLine(s[1..], part + [s[0]]); }
    }
  }

  /** A paragraph: not empty, no blanks around it and no blank line in it. */
  predicate IsParagraph(s: string) {
    s != "" && !IsSpace(s[0]) && !IsSpace(s[|s| - 1]) && NoBlankLine(s)
  }

  lemma {:induction false} ParagraphsAre(parts: seq<string>)
    requires forall p | p in parts :: NoBlankLine(p)
    ensures forall p | p in Paragraphs(parts) :: IsParagraph(p)
    decreases |parts|
  {
    if parts != [] {
      ParagraphsAre(parts[1..]);
      if Strip(parts[0]) != "" { StrippedIsParagraph(parts[0]); }
      assert Paragraphs(parts) == (if Strip(parts[0]) == "" then [] else [Strip(parts[0])]) + Paragraphs(parts[1..]);
    }
  }

  lemma StrippedIsParagraph(p: string)
    requires NoBlankLine(p) && Strip(p) != ""
    ensures IsParagraph(Strip(p))
  {
    var i, j := StripIs(p);
    assert forall k | 0 <= k < j - i :: Strip(p)[k] == p[i + k];
  }

  /** The sections of a text are paragraphs without a title, or the whole of a blank text. */
  lemma TxtSections(text: string)
    ensures forall s | s in ParseTxt(text) :: s.ref == None
    ensures ParseTxt(text) == [Section(None, text)] || forall s | s in ParseTxt(text) :: IsParagraph(s.text)
  {
    PartsHaveNoBlankLine(text, "");
    ParagraphsAre(SplitBlank(text, ""));
  }

  // ---------------------------------------------------------------- Markdown

  predicate IsLineEnd(c: char) {
    '\n' <= c <= '\r' || '\U{1C}' <= c <= '\U{1E}' || c == '\U{85}' || c == '\U{2028}' || c == '\U{2029}'
  }

  /** `s.splitlines()`, with `line` read so far. */
  function Lines(s: string, line: string): seq<string>
    decreases |s|
  {
    if s == "" then if line == "" then [] else [line]
    else if |s| >= 2 && s[0] == '\r' && s[1] == '\n' then [line] + Lines(s[2..], "")
    else if IsLineEnd(s[0]) then [line] + Lines(s[1..], "")
    else Lines(s[1..], line + [s[0]])
  }

  lemma LineEndIsSpace(c: char)
    requires IsLineEnd(c)
    ensures IsSpace(c)
  {
    if '\n' <= c <= '\r' {
      assert c == '\n' || c == '\U{0B}' || c == '\U{0C}' || c == '\r';
    }
  }

  /** A line ends before the first of these characters, or with the text. */
  lemma {:induction false} FirstLineIs(s: string, line: string) returns (k: nat)
    requires line + s != ""
    ensures k <= |s| && Lines(s, line) != [] && Lines(s, line)[0] == line + s[..k]
    ensures forall i | 0 <= i < k :: (s[i] as int) !in {10, 11, 12, 13, 28, 29, 30, 133, 8232, 8233}
    ensures k < |s| ==> (s[k] as int) in {10, 11, 12, 13, 28, 29, 30, 133, 8232, 8233}
    decreases |s|
  {
    k := 0;
    if s != "" && !IsLineEnd(s[0]) {
      k := FirstLineIs(s[1..], line + [s[0]]);
      k := k + 1;
      assert line + [s[0]] + s[1..][..k - 1] == line + s[..k];
    }
  }

  lemma LineKeepsWords(line: string, end: string, rest: string)
    requires AllWords(Lines(rest, "")) == Words("" + rest) && end != "" && AllSpace(end)
    ensures AllWords([line] + Lines(rest, "")) == Words(line + end + rest)
  {
    AllWordsCons(line, Lines(rest, ""));
    assert "" + rest == rest;
    WordsOfConcat(line, end, rest);
  }

  lemma {:induction false} LinesKeepWords(s: string, line: string)
    ensures AllWords(Lines(s, line)) == Words(line + s)
    decreases |s|
  {
    if s == "" {
      assert line + s == line;
      if line != "" { AllWordsCons(line, []); }
    } else if |s| >= 2 && s[0] == '\r' && s[1] == '\n' {
      LinesKeepWords(s[2..], "");
      LineKeepsWords(line, "\r\n", s[2..]);
      assert line + s == line + "\r\n" + s[2..];
    } else if IsLineEnd(s[0]) {
      LinesKeepWords(s[1..], "");
      LineEndIsSpace(s[0]);
      LineKeepsWords(line, [s[0]], s[1..]);
      assert line + s == line + [s[0]] + s[1..];
    } else {
      LinesKeepWords(s[1..], line + [s[0]]);
      assert line + s == line + [s[0]] + s[1..];
    }
  }

  lemma {:induction false} LinesOfText(s: string, line: string)
    requires line + s != ""
    ensures Lines(s, line) != []
    decreases |s|
  {
    if s != "" && !(|s| >= 2 && s[0] == '\r' && s[1] == '\n') && !IsLineEnd(s[0]) {
      LinesOfText(s[1..], line + [s[0]]);
    }
  }

  lemma {:induction false} JoinLinesKeepsWords(lines: seq<string>)
    ensures Words(Join(lines, "\n")) == AllWords(lines)
    decreases |lines|
  {
    if |lines| == 1 {
      AllWordsCons(lines[0], []);
      assert lines == [lines[0]] + [];
    } else if lines != [] {
      WordsOfConcat(lines[0], "\n", Join(lines[1..], "\n"));
      JoinLinesKeepsWords(lines[1..]);
    }
  }

  /** `s.lstrip("# ")`. */
  function StripMarks(s: string): string
    decreases |s|
  {
    if s != "" && (s[0] == '#' || s[0] == ' ') then StripMarks(s[1..]) else s
  }

  function FirstLine(block: string): string
    requires block != ""
  {
    LinesOfText(block, "");
    Lines(block, "")[0]
  }

  predicate IsHeading(block: string)
    requires block != ""
  {
    var line := StripLeft(FirstLine(block));
    line != "" && line[0] == '#'
  }

  function Title(block: string): string
    requires block != ""
  {
    Strip(StripMarks(FirstLine(block)))
  }

  /** The text a block contributes: a heading block without its first line, any other as it is. */
  function Body(block: string): string
    requires block != ""
  {
    LinesOfText(block, "");
    if IsHeading(block) then Strip(Join(Lines(block, "")[1..], "\n")) else block
  }

  predicate NonEmpty(blocks: seq<string>) {
    forall i | 0 <= i < |blocks| :: blocks[i] != ""
  }

  /** The nearest non-empty heading among the blocks, the last one counting as nearest. */
  function NearestTitle(blocks: seq<string>): Option<string>
    requires NonEmpty(blocks)
    decreases |blocks|
  {
    if blocks == [] then None
    else
      var last := blocks[|blocks| - 1];
      if IsHeading(last) && Title(last) != "" then Some(Title(last)) else NearestTitle(blocks[..|blocks| - 1])
  }

  /** The sections the first `n` blocks give, each under the nearest heading at or before it. */
  function SectionsUpTo(blocks: seq<string>, n: nat): seq<Section>
    requires NonEmpty(blocks) && n <= |blocks|
  {
    if n == 0 then []
    else SectionsUpTo(blocks, n - 1) +
         if Body(blocks[n - 1]) == "" then [] else [Section(NearestTitle(blocks[..n]), Body(blocks[n - 1]))]
  }

  function Blocks(text: string): seq<string> {
    Paragraphs(SplitBlank(text, ""))
  }

  lemma {:induction false} ParagraphsNonEmpty(parts: seq<string>)
    ensures NonEmpty(Paragraphs(parts))
    decreases |parts|
  {
    if parts != [] { ParagraphsNonEmpty(parts[1..]); }
  }

  /** The sections of a Markdown document; one without any body text is kept whole. */
  function MarkdownSections(text: string): seq<Section> {
    ParagraphsNonEmpty(SplitBlank(text, ""));
    var sections := SectionsUpTo(Blocks(text), |Blocks(text)|);
    if sections == [] then [Section(None, text)] else sections
  }

  /** The title in force after a block. */
  function Under(ref: Option<string>, block: string): Option<string>
    requires block != ""
  {
    if IsHeading(block) && Title(block) != "" then Some(Title(block)) else ref
  }

  /** One block: the heading it leaves in force, and the text it contributes. */
  method ReadBlock(block: string, ref: Option<string>) returns (after: Option<string>, body: string)
    requires block != ""
    ensures after == Under(ref, block) && body == Body(block)
  {
    LinesOfText(block, "");
    var lines := Lines(block, "");
    var marked := StripLeft(lines[0]);
    if marked == "" || marked[0] != '#' { return ref, block; }
    var title := Strip(StripMarks(lines[0]));
    after := if title != "" then Some(title) else ref;
    body := Strip(Join(lines[1..], "\n"));
  }

  /** The next part is the next block, unless it is blank. */
  lemma NextBlock(blocks: seq<string>, n: nat, parts: seq<string>, i: nat)
    requires i < |parts| && n <= |blocks| && blocks[n..] == Paragraphs(parts[i..])
    ensures if Strip(parts[i]) == "" then blocks[n..] == Paragraphs(parts[i + 1..])
            else n < |blocks| && blocks[n] == Strip(parts[i]) && blocks[n + 1..] == Paragraphs(parts[i + 1..])
  {
    assert parts[i..][0] == parts[i] && parts[i..][1..] == parts[i + 1..];
    if Strip(parts[i]) != "" { assert blocks[n..][0] == blocks[n] && blocks[n..][1..] == blocks[n + 1..]; }
  }

  lemma BlockStep(blocks: seq<string>, n: nat)
    requires NonEmpty(blocks) && n < |blocks|
    ensures var title, body := NearestTitle(blocks[..n + 1]), Body(blocks[n]);
            && title == Under(NearestTitle(blocks[..n]), blocks[n])
            && SectionsUpTo(blocks, n + 1) ==
               SectionsUpTo(blocks, n) + if body == "" then [] else [Section(title, body)]
  {
    assert blocks[..n + 1][..n] == blocks[..n];
  }

  lemma BlocksOf(text: string, parts: seq<string>) returns (blocks: seq<string>)
    requires parts == SplitBlank(text, "")
    ensures blocks == Blocks(text) == Paragraphs(parts) && NonEmpty(blocks)
  {
    ParagraphsNonEmpty(parts);
    blocks := Blocks(text);
  }

  lemma MarkdownIs(text: string, blocks: seq<string>, sections: seq<Section>)
    requires blocks == Blocks(text) && NonEmpty(blocks) && sections == SectionsUpTo(blocks, |blocks|)
    ensures MarkdownSections(text) == if sections == [] then [Section(None, text)] else sections
  {
  }

  /** The loop over the blocks carries one variable, the current heading; what it appends is what
      the nearest-heading rule says. */
  method SectionsFromMarkdown(text: string) returns (sections: seq<Section>)
    ensures sections == MarkdownSections(text)
  {
    var parts := SplitBlank(text, "");
    ghost var blocks := BlocksOf(text, parts);
    ghost var n := 0;
    sections := [];
    var currentRef: Option<string> := None;
    var i := 0;
    while i < |parts|
      invariant 0 <= i <= |parts|
      invariant n <= |blocks| && blocks[n..] == Paragraphs(parts[i..])
      invariant currentRef == NearestTitle(blocks[..n])
      invariant sections == SectionsUpTo(blocks, n)
    {
      var block := Strip(parts[i]);
      NextBlock(blocks, n, parts, i);
      i := i + 1;
      if block != "" {
        BlockStep(blocks, n);
        var body: string;
        currentRef, body := ReadBlock(block, currentRef);
        if body != "" { sections := sections + [Section(currentRef, body)]; }
        n := n + 1;
      }
    }
    assert blocks[n..] == [];
    MarkdownIs(text, blocks, sections);
    if sections == [] { sections := [Section(None, text)]; }
  }

  /** The words of the first `n` blocks without their heading lines. */
  function BodyWords(blocks: seq<string>, n: nat): seq<string>
    requires NonEmpty(blocks) && n <= |blocks|
  {
    if n == 0 then [] else BodyWords(blocks, n - 1) + Words(Body(blocks[n - 1]))
  }

  /** Sections hold the body words of their blocks, all of them, in order. */
  lemma {:induction false} MarkdownKeepsBodyWords(blocks: seq<string>, n: nat)
    requires NonEmpty(blocks) && n <= |blocks|
    ensures AllWords(Texts(SectionsUpTo(blocks, n))) == BodyWords(blocks, n)
  {
    if n == 0 { NoBodyWords(blocks); }
    else {
      MarkdownKeepsBodyWords(blocks, n - 1);
      LastBodyWords(blocks, n);
    }
  }

  lemma NoBodyWords(blocks: seq<string>)
    requires NonEmpty(blocks)
    ensures AllWords(Texts(SectionsUpTo(blocks, 0))) == BodyWords(blocks, 0)
  {
    assert Texts([]) == [];
  }

  lemma LastSection(blocks: seq<string>, n: nat) returns (before: seq<Section>, body: string, after: seq<Section>)
    requires NonEmpty(blocks) && 0 < n <= |blocks|
    ensures before == SectionsUpTo(blocks, n - 1) && after == SectionsUpTo(blocks, n) && body == Body(blocks[n - 1])
    ensures if body == "" then after == before else Texts(after) == Texts(before) + [body]
  {
    before, body, after := SectionsUpTo(blocks, n - 1), Body(blocks[n - 1]), SectionsUpTo(blocks, n);
    if body != "" { assert after == before + [Section(NearestTitle(blocks[..n]), body)]; }
  }

  lemma LastBodyWords(blocks: seq<string>, n: nat)
    requires NonEmpty(blocks) && 0 < n <= |blocks|
    requires AllWords(Texts(SectionsUpTo(blocks, n - 1))) == BodyWords(blocks, n - 1)
    ensures AllWords(Texts(SectionsUpTo(blocks, n))) == BodyWords(blocks, n)
  {
    var before, body, after := LastSection(blocks, n);
    if body == "" { assert Words(body) == []; } else { AllWordsSnoc(Texts(before), body); }
  }

  /** A block loses nothing but its heading line. */
  lemma BlockWords(block: string)
    requires block != ""
    ensures Words(block) == (if IsHeading(block) then Words(FirstLine(block)) else []) + Words(Body(block))
  {
    if IsHeading(block) {
      LinesKeepWords(block, "");
      assert "" + block == block;
      LinesOfText(block, "");
      var lines := Lines(block, "");
      assert lines == [lines[0]] + lines[1..];
      AllWordsCons(lines[0], lines[1..]);
      JoinLinesKeepsWords(lines[1..]);
      StripKeepsWords(Join(lines[1..], "\n"));
    }
  }

  /** The title a block sets: none if it is no heading, or one without text. */
  function TitleOf(block: string): Option<string>
    requires block != ""
  {
    if IsHeading(block) && Title(block) != "" then Some(Title(block)) else None
  }

  function Titles(blocks: seq<string>): (titles: seq<Option<string>>)
    requires NonEmpty(blocks)
    ensures |titles| == |blocks|
  {
    if blocks == [] then [] else Titles(blocks[..|blocks| - 1]) + [TitleOf(blocks[|blocks| - 1])]
  }

  lemma {:induction false} TitlesAt(blocks: seq<string>, k: nat)
    requires NonEmpty(blocks) && k < |blocks|
    ensures Titles(blocks)[k] == TitleOf(blocks[k])
    decreases |blocks|
  {
    if k < |blocks| - 1 { TitlesAt(blocks[..|blocks| - 1], k); }
  }

  /** The last one set. */
  predicate IsLastSet(titles: seq<Option<string>>, h: nat) {
    h < |titles| && titles[h].Some? && forall g | h < g < |titles| :: titles[g].None?
  }

  lemma NearestStep(blocks: seq<string>) returns (front: seq<string>, last: Option<string>, nearest: Option<string>)
    requires NonEmpty(blocks) && blocks != []
    ensures front == blocks[..|blocks| - 1] && Titles(blocks) == Titles(front) + [last]
    ensures nearest == NearestTitle(blocks) == if last.Some? then last else NearestTitle(front)
  {
    front, last, nearest := blocks[..|blocks| - 1], TitleOf(blocks[|blocks| - 1]), NearestTitle(blocks);
  }

  lemma {:induction false} NearestIsLast(blocks: seq<string>) returns (h: nat)
    requires NonEmpty(blocks) && NearestTitle(blocks).Some?
    ensures IsLastSet(Titles(blocks), h) && Titles(blocks)[h] == NearestTitle(blocks)
    decreases |blocks|
  {
    var front, last, nearest := NearestStep(blocks);
    h := |front|;
    if last.None? { h := NearestIsLast(front); }
  }

  /** The section that block `m` would give. */
  function SectionAt(blocks: seq<string>): nat -> Section
    requires NonEmpty(blocks)
  {
    (m: nat) => if m < |blocks| then Section(NearestTitle(blocks[..m + 1]), Body(blocks[m])) else Section(None, "")
  }

  lemma {:induction false} SectionOfBlock(at: nat -> Section, blocks: seq<string>, n: nat, i: nat,
                                          sections: seq<Section>)
    returns (b: nat)
    requires NonEmpty(blocks) && at == SectionAt(blocks)
    requires n <= |blocks| && sections == SectionsUpTo(blocks, n) && i < |sections|
    ensures b < n && sections[i] == at(b)
    decreases n
  {
    var before := LastSectionAt(at, blocks, n, sections);
    if i < |before| { b := SectionOfBlock(at, blocks, n - 1, i, before); } else { b := n - 1; }
  }

  lemma LastSectionAt(at: nat -> Section, blocks: seq<string>, n: nat, sections: seq<Section>)
    returns (before: seq<Section>)
    requires NonEmpty(blocks) && at == SectionAt(blocks)
    requires n <= |blocks| && sections == SectionsUpTo(blocks, n) && sections != []
    ensures 0 < n && before == SectionsUpTo(blocks, n - 1) && (sections == before || sections == before + [at(n - 1)])
  {
    before := SectionsUpTo(blocks, n - 1);
  }

  /** A section with a title is the body of a block, under the last title that the blocks up to it set. */
  lemma SectionHeading(text: string, i: nat) returns (h: nat, b: nat)
    requires i < |MarkdownSections(text)| && MarkdownSections(text)[i].ref.Some?
    ensures NonEmpty(Blocks(text)) && b < |Blocks(text)| && IsLastSet(Titles(Blocks(text)[..b + 1]), h)
    ensures MarkdownSections(text)[i] == Section(Titles(Blocks(text)[..b + 1])[h], Body(Blocks(text)[b]))
  {
    ParagraphsNonEmpty(SplitBlank(text, ""));
    b := SectionOfBlock(SectionAt(Blocks(text)), Blocks(text), |Blocks(text)|, i, MarkdownSections(text));
    h := NearestIsLast(Blocks(text)[..b + 1]);
  }

  predicate IsMark(c: char) {
    c == '#' || c == ' '
  }

  predicate AllMarks(s: string) {
    forall k | 0 <= k < |s| :: IsMark(s[k])
  }

  lemma {:induction false} MarksStripped(s: string) returns (marks: string)
    ensures s == marks + StripMarks(s) && AllMarks(marks) && (StripMarks(s) != "" ==> !IsMark(StripMarks(s)[0]))
    decreases |s|
  {
    marks := "";
    if s != "" && IsMark(s[0]) {
      var more := MarksStripped(s[1..]);
      marks := [s[0]] + more;
    }
  }

  /** A line is marks, all there are in front, then blanks, the title, and blanks. */
  lemma TitleOfLine(line: string) returns (marks: string, pre: string, title: string, post: string)
    ensures line == marks + (pre + title + post) && title == Strip(StripMarks(line))
    ensures AllMarks(marks) && (pre + title + post != "" ==> !IsMark((pre + title + post)[0]))
    ensures AllSpace(pre) && AllSpace(post)
    ensures title != "" ==> !IsSpace(title[0]) && !IsSpace(title[|title| - 1])
  {
    marks := MarksStripped(line);
    var tail := StripMarks(line);
    var i, j := StripIs(tail);
    pre, title, post := tail[..i], Strip(tail), tail[j..];
    assert tail == pre + title + post;
  }

  /** A title is its heading line without the marks in front and the blanks around it. */
  lemma TitleIs(block: string) returns (marks: string, pre: string, post: string)
    requires block != ""
    ensures Lines(block, "") != [] && Lines(block, "")[0] == marks + (pre + Title(block) + post)
    ensures AllMarks(marks) && (pre + Title(block) + post != "" ==> !IsMark((pre + Title(block) + post)[0]))
    ensures AllSpace(pre) && AllSpace(post)
    ensures Title(block) != "" ==> !IsSpace(Title(block)[0]) && !IsSpace(Title(block)[|Title(block)| - 1])
  {
    LinesOfText(block, "");
    var title: string;
    marks, pre, title, post := TitleOfLine(FirstLine(block));
  }

  /** A block is a heading if the first character of its first line that is no blank is a number sign. */
  lemma HeadingIff(block: string) returns (line: string, i: nat)
    requires block != ""
    ensures Lines(block, "") != [] && line == Lines(block, "")[0] && i <= |line| && AllSpace(line[..i])
    ensures i < |line| ==> !IsSpace(line[i])
    ensures IsHeading(block) <==> i < |line| && line[i] == '#'
  {
    LinesOfText(block, "");
    line := FirstLine(block);
    i := StripLeftIs(line);
  }

  function HeadingWords(block: string): seq<string>
    requires block != ""
  {
    if IsHeading(block) then Words(FirstLine(block)) else []
  }

  /** Block by block, the words of the heading line and those of the body. */
  function HeadingsAndBodies(blocks: seq<string>, n: nat): seq<string>
    requires NonEmpty(blocks) && n <= |blocks|
  {
    if n == 0 then []
    else HeadingsAndBodies(blocks, n - 1) + HeadingWords(blocks[n - 1]) + Words(Body(blocks[n - 1]))
  }

  lemma PrefixWords(texts: seq<string>, n: nat)
    requires 0 < n <= |texts|
    ensures AllWords(texts[..n]) == AllWords(texts[..n - 1]) + Words(texts[n - 1])
  {
    assert texts[..n] == texts[..n - 1] + [texts[n - 1]];
    AllWordsSnoc(texts[..n - 1], texts[n - 1]);
  }

  lemma LastBlock(blocks: seq<string>, n: nat) returns (before: seq<string>, words: seq<string>)
    requires NonEmpty(blocks) && 0 < n <= |blocks|
    ensures before == HeadingsAndBodies(blocks, n - 1) && before + words == HeadingsAndBodies(blocks, n)
    ensures AllWords(blocks[..n]) == AllWords(blocks[..n - 1]) + words
  {
    before, words := HeadingsAndBodies(blocks, n - 1), Words(blocks[n - 1]);
    BlockWords(blocks[n - 1]);
    PrefixWords(blocks, n);
  }

  lemma {:induction false} BlocksHoldWords(blocks: seq<string>, n: nat)
    requires NonEmpty(blocks) && n <= |blocks|
    ensures AllWords(blocks[..n]) == HeadingsAndBodies(blocks, n)
  {
    if n > 0 {
      BlocksHoldWords(blocks, n - 1);
      var before, words := LastBlock(blocks, n);
    }
  }

  /** The words of a document that its sections are to hold. */
  function MarkdownWords(text: string): seq<string> {
    ParagraphsNonEmpty(SplitBlank(text, ""));
    if SectionsUpTo(Blocks(text), |Blocks(text)|) == [] then Words(text) else BodyWords(Blocks(text), |Blocks(text)|)
  }

  /** A Markdown document is heading lines and bodies, and its sections hold the words of all its bodies in
      order, or, if no body has any, of the whole text. */
  lemma MarkdownKeepsWords(text: string)
    ensures MarkdownSections(text) != [] && AllWords(Texts(MarkdownSections(text))) == MarkdownWords(text)
    ensures NonEmpty(Blocks(text)) && Words(text) == HeadingsAndBodies(Blocks(text), |Blocks(text)|)
  {
    var blocks := Blocks(text);
    ParagraphsNonEmpty(SplitBlank(text, ""));
    SplitBlankKeepsWords(text, "");
    assert "" + text == text;
    ParagraphsKeepWords(SplitBlank(text, ""));
    BlocksHoldWords(blocks, |blocks|);
    assert blocks[..|blocks|] == blocks;
    MarkdownKeepsBodyWords(blocks, |blocks|);
    if SectionsUpTo(blocks, |blocks|) == [] {
      assert Texts(MarkdownSections(text)) == [text];
      AllWordsCons(text, []);
    }
  }
}
