/**
 * The older `.docx` reader of the `core` package: every paragraph becomes
 * at most one content block by a fixed precedence (image, blank, phase
 * header, heading, box keyword, list style, body), the tables follow the
 * paragraphs, and the metadata comes from the core properties.
 *
 * Opening the package is not part of this model: the paragraphs (style
 * name, runs, text, whether a `w:drawing` element is a direct child of the
 * paragraph element), the tables as cell texts and the core properties are
 * parameters.
 */
module LegacyDocxParser {
  import opened Text
  import ImageRecords

  /** A run: its bold flag (an inherited `None` counts as not bold) and its size in half-points, 0 when unset. */
  datatype Run = Run(bold: bool, sizeHalfPts: nat)

  /**
   * A paragraph; `styleName` is "" when the paragraph has no style, and
   * `hasDrawing` is the `_has_image` test: a `w:drawing` element among the
   * direct children of the paragraph element (one inside a run is not seen).
   */
  datatype Paragraph = Paragraph(styleName: string, runs: seq<Run>, text: string, hasDrawing: bool)

  datatype Level = H1 | H2 | H3

  datatype BoxKind = TipBox | CautionBox | InsightBox | WarningBox | QuoteBox

  /** One entry of `content`. */
  datatype Block =
    | ImageRef(imageId: string, caption: string)
    | ChapterHeader(phase: string)                // title and subtitle are always ""
    | NumberedH1(number: string, text: string)
    | Heading(level: Level, text: string)
    | Box(kind: BoxKind, text: string)
    | Bullet(text: string)
    | Body(text: string)
    | Table(headers: seq<string>, rows: seq<seq<string>>)

  datatype Meta = Meta(title: string, author: string, sourceFile: string)

  datatype LegacyDoc = LegacyDoc(meta: Meta, content: seq<Block>)

  // ---------------------------------------------------------------------
  // box keywords

  /** `BOX_PATTERNS`, in table order. */
  const BoxPatterns: seq<(BoxKind, seq<string>)> := [
    (TipBox, ["Tip ", "TIP ", "팁 "]),
    (CautionBox, ["주의 ", "주의:", "⚠ ", "Warning"]),
    (InsightBox, ["인사이트", "핵심 포인트", "핵심:", "결론:"]),
    (WarningBox, ["⚠  의학적", "⚠  법적", "고지:", "경고:"]),
    (QuoteBox, ["AI 답변", "\""])]

  predicate AnyPrefix(keywords: seq<string>, s: string) {
    exists i :: 0 <= i < |keywords| && StartsWith(s, keywords[i])
  }

  /** The first category whose keywords include a prefix of `s`. */
  function FirstBox(patterns: seq<(BoxKind, seq<string>)>, s: string): Option<BoxKind> {
    if patterns == [] then None
    else if AnyPrefix(patterns[0].1, s) then Some(patterns[0].0)
    else FirstBox(patterns[1..], s)
  }

  /** `_detect_box_type`. */
  function DetectBox(text: string): Option<BoxKind> {
    FirstBox(BoxPatterns, Strip(text))
  }

  /** The category of the first row that matches is chosen, whatever later rows match. */
  lemma {:induction false} FirstBoxFirst(patterns: seq<(BoxKind, seq<string>)>, s: string, i: nat)
    requires i < |patterns| && AnyPrefix(patterns[i].1, s)
    requires forall j :: 0 <= j < i ==> !AnyPrefix(patterns[j].1, s)
    ensures FirstBox(patterns, s) == Some(patterns[i].0)
  {
    if i > 0 {
      forall j | 0 <= j < i - 1 ensures !AnyPrefix(patterns[1..][j].1, s) {
        assert patterns[1..][j] == patterns[j + 1];
      }
      FirstBoxFirst(patterns[1..], s, i - 1);
    }
  }

  /** No category at all exactly when no keyword of any row matches. */
  lemma {:induction false} FirstBoxNone(patterns: seq<(BoxKind, seq<string>)>, s: string)
    ensures FirstBox(patterns, s) == None <==> forall j :: 0 <= j < |patterns| ==> !AnyPrefix(patterns[j].1, s)
  {
    if patterns != [] {
      FirstBoxNone(patterns[1..], s);
      if !AnyPrefix(patterns[0].1, s) {
        forall j | 0 < j < |patterns| ensures patterns[j] == patterns[1..][j - 1] {}
      }
    }
  }

  /**
   * A text starting with the medical-warning keyword also starts with the
   * caution keyword `⚠ `, and caution comes first in the table: it is a
   * caution box although a warning keyword matches too.
   */
  lemma CautionBeforeWarning(text: string)
    requires StartsWith(Strip(text), "⚠  의학적")
    ensures AnyPrefix(BoxPatterns[3].1, Strip(text))
    ensures DetectBox(text) == Some(CautionBox)
  {
    var s := Strip(text);
    assert StartsWith(s, BoxPatterns[3].1[0]);
    assert s[..2] == "⚠ " by {
      assert s[..2] == s[..|"⚠  의학적"|][..2];
    }
    assert StartsWith(s, BoxPatterns[1].1[2]);
    forall j | 0 <= j < 1 ensures !AnyPrefix(BoxPatterns[j].1, s) {
      forall k | 0 <= k < |BoxPatterns[0].1| ensures !StartsWith(s, BoxPatterns[0].1[k]) {
        assert s[0] == '⚠';
        assert BoxPatterns[0].1[k][0] != '⚠';
      }
    }
    FirstBoxFirst(BoxPatterns, s, 1);
  }

  // ---------------------------------------------------------------------
  // heading level

  /** The level a heading style names; "Heading 1" is tested first, so "Heading 10" is level 1. */
  function StyleLevel(style: string): Option<Level> {
    if Contains(style, "Heading 1") then Some(H1)
    else if Contains(style, "Heading 2") then Some(H2)
    else if Contains(style, "Heading 3") then Some(H3)
    else None
  }

  /** A bold run of at least 13 pt (26 half-points) decides the level. */
  predicate Decides(r: Run) {
    r.bold && r.sizeHalfPts >= 26
  }

  /** 16 pt and up is level 1, 14 pt and up level 2, 13 pt and up level 3. */
  function LevelOfSize(halfPts: nat): Level
    requires halfPts >= 26
  {
    if halfPts >= 32 then H1 else if halfPts >= 28 then H2 else H3
  }

  /** The run loop of `_get_heading_level`: bold runs too small to decide are skipped. */
  function RunLevel(runs: seq<Run>): Option<Level> {
    if runs == [] then None
    else if Decides(runs[0]) then Some(LevelOfSize(runs[0].sizeHalfPts))
    else RunLevel(runs[1..])
  }

  /** `_get_heading_level`: the style first, then the runs. */
  function HeadingLevel(p: Paragraph): Option<Level> {
    if StyleLevel(p.styleName).Some? then StyleLevel(p.styleName) else RunLevel(p.runs)
  }

  /** The first deciding run gives the level. */
  lemma {:induction false} RunLevelFirst(runs: seq<Run>, i: nat)
    requires i < |runs| && Decides(runs[i])
    requires forall j :: 0 <= j < i ==> !Decides(runs[j])
    ensures RunLevel(runs) == Some(LevelOfSize(runs[i].sizeHalfPts))
  {
    if i > 0 {
      assert runs[1..][i - 1] == runs[i];
      forall j | 0 <= j < i - 1 ensures !Decides(runs[1..][j]) {
        assert runs[1..][j] == runs[j + 1];
      }
      RunLevelFirst(runs[1..], i - 1);
    }
  }

  /** Without a deciding run the runs give no level. */
  lemma {:induction false} RunLevelNone(runs: seq<Run>)
    ensures RunLevel(runs) == None <==> forall j :: 0 <= j < |runs| ==> !Decides(runs[j])
  {
    if runs != [] {
      RunLevelNone(runs[1..]);
      if !Decides(runs[0]) {
        forall j | 0 < j < |runs| ensures runs[j] == runs[1..][j - 1] {}
      }
    }
  }

  // ---------------------------------------------------------------------
  // the two patterns

  /** Where `Phase` must start: after an optional `[`, an optional `\` and an optional `[`. */
  function PhaseStart(s: string): (c: nat)
    ensures c <= |s|
  {
    var a := if StartsWith(s, "[") then 1 else 0;
    var b := if StartsWith(s[a..], "\\") then a + 1 else a;
    if StartsWith(s[b..], "[") then b + 1 else b
  }

  /** `PHASE_PATTERN.match`: `Phase` in any case, optional whitespace, at least one digit. */
  predicate IsPhase(s: string) {
    var c := PhaseStart(s);
    c + 5 <= |s| && Lower(s[c..c + 5]) == "phase" &&
    var rest := LStrip(s[c + 5..]);
    rest != [] && IsDigit(rest[0])
  }

  /**
   * The position `.+` starts at after a whitespace run of length `w` at
   * the front of `ws`: the longest run the regex can give back to, leaving
   * at least one whitespace character and a character other than a newline.
   */
  function TitleStart(ws: string, w: nat): (r: Option<nat>)
    ensures r.Some? ==> 1 <= r.value <= w && r.value < |ws| && ws[r.value] != '\n'
  {
    if w == 0 then None
    else if w < |ws| && ws[w] != '\n' then Some(w)
    else TitleStart(ws, w - 1)
  }

  /**
   * `NUMBER_PATTERN.match`, `^(\d+)\.\s+(.+)` without an end anchor: the
   * numeral and the rest of the line after the dot and the whitespace.
   */
  function NumberSplit(text: string): Option<(string, string)> {
    var d := DigitRun(text);
    if d == 0 || d >= |text| || text[d] != '.' then None
    else
      var ws := text[d + 1..];
      match TitleStart(ws, |ws| - |LStrip(ws)|)
      case None => None
      case Some(l) =>
        var t := ws[l..];
        Some((text[..d], t[..IndexOf(t, '\n')]))
  }

  /** A split gives a numeral, the dot after it, and a non-empty title within one line. */
  lemma NumberSplitSound(text: string, n: string, t: string)
    requires NumberSplit(text) == Some((n, t))
    ensures AllDigits(n) && StartsWith(text, n + ".") && t != [] && '\n' !in t
  {
    var d := DigitRun(text);
    NumberSplitNumeral(text);
    NumberSplitTitle(text);
    assert AllDigits(n);
    assert text[..d + 1] == n + ".";
  }

  /** A split takes the digit run, which is followed by a dot. */
  lemma NumberSplitNumeral(text: string)
    requires NumberSplit(text).Some?
    ensures var d := DigitRun(text);
      0 < d < |text| && text[d] == '.' && NumberSplit(text).value.0 == text[..d]
  {
  }

  /** A split's title is not empty and stays within one line. */
  lemma NumberSplitTitle(text: string)
    requires NumberSplit(text).Some?
    ensures var t := NumberSplit(text).value.1; t != [] && '\n' !in t
  {
    var d := DigitRun(text);
    var ws := text[d + 1..];
    var start := TitleStart(ws, |ws| - |LStrip(ws)|);
    var rest := ws[start.value..];
    assert NumberSplit(text).value.1 == rest[..IndexOf(rest, '\n')];
    assert rest[0] != '\n';
    IndexOfSpec(rest, '\n');
  }

  /** `N. Title` followed by nothing or another line splits back into `N` and `Title`. */
  lemma NumberSplitRoundTrip(num: string, title: string, tail: string)
    requires AllDigits(num) && title != [] && !IsSpace(title[0]) && '\n' !in title
    requires tail == [] || tail[0] == '\n'
    ensures NumberSplit(num + ". " + title + tail) == Some((num, title))
  {
    var text := num + ". " + title + tail;
    assert text == num + (". " + title + tail);
    DigitRunStops(num, ". " + title + tail);
    var ws := text[|num| + 1..];
    assert ws == " " + (title + tail);
    SpacedTitleStart(title + tail);
    TitleLine(title, tail);
    assert text[..|num|] == num;
  }

  /** After one space before a non-blank first character, `.+` starts at that character. */
  lemma SpacedTitleStart(rest: string)
    requires rest != [] && !IsSpace(rest[0]) && rest[0] != '\n'
    ensures var ws := " " + rest; |ws| - |LStrip(ws)| == 1 && TitleStart(ws, 1) == Some(1) && ws[1..] == rest
  {
    var ws := " " + rest;
    assert ws[1..] == rest;
  }

  /** The line the title starts is the title itself, whether a newline or nothing follows it. */
  lemma TitleLine(title: string, tail: string)
    requires '\n' !in title
    requires tail == [] || tail[0] == '\n'
    ensures var rest := title + tail; rest[..IndexOf(rest, '\n')] == title
  {
    if tail == [] {
      IndexOfSpec(title, '\n');
      assert title + tail == title;
    } else {
      assert title + tail == title + ['\n'] + tail[1..];
      IndexOfAfter(title, '\n', tail[1..]);
    }
  }

  // ---------------------------------------------------------------------
  // paragraphs and tables

  /**
   * The block of one paragraph, `n` being the image number it gets if it
   * has a drawing: image, blank (no block), phase header, heading, box,
   * list item, body, in that order of precedence.
   */
  function ParaBlock(p: Paragraph, n: nat): (r: seq<Block>)
    ensures |r| <= 1
  {
    BlockOf(p, Strip(p.text), n)
  }

  /** The block of a paragraph whose stripped text is `text`. */
  function BlockOf(p: Paragraph, text: string, n: nat): (r: seq<Block>)
    ensures |r| <= 1
  {
    if p.hasDrawing then [ImageRef("image" + NatToString(n), text)]
    else if text == [] then []
    else if IsPhase(text) then [ChapterHeader(text)]
    else if HeadingLevel(p).Some? then
      var level := HeadingLevel(p).value;
      if level == H1 && NumberSplit(text).Some? then [NumberedH1(NumberSplit(text).value.0, NumberSplit(text).value.1)]
      else [Heading(level, text)]
    else if DetectBox(text).Some? then [Box(DetectBox(text).value, text)]
    else if Contains(p.styleName, "List") then [Bullet(text)]
    else [Body(text)]
  }

  function DrawingCount(paras: seq<Paragraph>): (n: nat)
    ensures n <= |paras|
  {
    if paras == [] then 0
    else DrawingCount(paras[..|paras| - 1]) + if paras[|paras| - 1].hasDrawing then 1 else 0
  }

  /** The paragraph loop of `parse_docx`: a drawing paragraph gets the next image number. */
  function Blocks(paras: seq<Paragraph>): (r: seq<Block>)
    ensures |r| <= |paras|
  {
    if paras == [] then []
    else
      var front := paras[..|paras| - 1];
      Blocks(front) + ParaBlock(paras[|paras| - 1], DrawingCount(front) + 1)
  }

  /** `_extract_table` for a table with rows: the first row is the header, the rest are data. */
  function TableBlock(rows: seq<seq<string>>): Block
    requires rows != []
  {
    Table(StripAll(rows[0]), seq(|rows| - 1, k requires 0 <= k < |rows| - 1 => StripAll(rows[k + 1])))
  }

  /** The table loop: a table without rows gives an empty dict and is skipped. */
  function TableBlocks(tables: seq<seq<seq<string>>>): (r: seq<Block>)
    ensures |r| <= |tables|
  {
    if tables == [] then []
    else
      var last := tables[|tables| - 1];
      TableBlocks(tables[..|tables| - 1]) + if last == [] then [] else [TableBlock(last)]
  }

  /** `parse_docx`. `coreTitle` and `coreAuthor` are "" when the property is empty or unset. */
  function Parsed(paras: seq<Paragraph>, tables: seq<seq<seq<string>>>, coreTitle: string, coreAuthor: string, path: string)
    : LegacyDoc
  {
    var title := if coreTitle != "" then coreTitle else Stem(PathName(path));
    LegacyDoc(Meta(title, coreAuthor, AfterLastSlash(path)), Blocks(paras) + TableBlocks(tables))
  }

  lemma BlocksLast(paras: seq<Paragraph>)
    requires paras != []
    ensures var front := paras[..|paras| - 1];
      Blocks(paras) == Blocks(front) + ParaBlock(paras[|paras| - 1], DrawingCount(front) + 1)
  {
    var front := paras[..|paras| - 1];
    var last := ParaBlock(paras[|paras| - 1], DrawingCount(front) + 1);
    assert Blocks(paras) == Blocks(front) + last;
  }

  /** One paragraph more: its block, under the next image number, is appended. */
  lemma BlocksStep(paras: seq<Paragraph>, i: nat, content: seq<Block>, count: nat)
    requires i < |paras| && content == Blocks(paras[..i]) && count == DrawingCount(paras[..i])
    ensures content + ParaBlock(paras[i], count + 1) == Blocks(paras[..i + 1])
    ensures count + (if paras[i].hasDrawing then 1 else 0) == DrawingCount(paras[..i + 1])
  {
    var next := paras[..i + 1];
    assert next[..|next| - 1] == paras[..i] && next[|next| - 1] == paras[i];
    BlocksLast(next);
  }

  /** The paragraph loop of `parse_docx`. */
  method ParagraphLoop(paras: seq<Paragraph>) returns (content: seq<Block>)
    ensures content == Blocks(paras)
  {
    content := [];
    var imageIndex := 0;
    var i := 0;
    while i < |paras|
      invariant 0 <= i <= |paras|
      invariant content == Blocks(paras[..i]) && imageIndex == DrawingCount(paras[..i])
    {
      BlocksStep(paras, i, content, imageIndex);
      var p := paras[i];
      var n := imageIndex + 1;
      if p.hasDrawing {
        imageIndex := n;
      }
      content := content + ParaBlock(p, n);
      i := i + 1;
    }
    assert paras[..i] == paras;
  }

  /** The table loop of `parse_docx`. */
  method TableLoop(tables: seq<seq<seq<string>>>) returns (content: seq<Block>)
    ensures content == TableBlocks(tables)
  {
    content := [];
    var j := 0;
    while j < |tables|
      invariant 0 <= j <= |tables|
      invariant content == TableBlocks(tables[..j])
    {
      assert tables[..j + 1][..j] == tables[..j];
      if tables[j] != [] {
        content := content + [TableBlock(tables[j])];
      }
      j := j + 1;
    }
    assert tables[..j] == tables;
  }

  /** `parse_docx`: the paragraph loop, the table loop, then the metadata. */
  method ParseDocx(paras: seq<Paragraph>, tables: seq<seq<seq<string>>>, coreTitle: string, coreAuthor: string, path: string)
    returns (doc: LegacyDoc)
    ensures doc == Parsed(paras, tables, coreTitle, coreAuthor, path)
  {
    var content := ParagraphLoop(paras);
    var tableBlocks := TableLoop(tables);
    var title := if coreTitle != "" then coreTitle else Stem(PathName(path));
    doc := LegacyDoc(Meta(title, coreAuthor, AfterLastSlash(path)), content + tableBlocks);
  }

  // ---------------------------------------------------------------------
  // properties

  /**
   * What kind of block a paragraph gives: an image reference exactly when
   * it has a drawing, nothing exactly when it has none and its text is
   * blank; any other block carries the stripped text (split for a
   * numbered h1), and a list item is a list-styled paragraph that is no
   * phase header, heading or box.
   */
  lemma ParaBlockShape(p: Paragraph, n: nat)
    ensures var r := ParaBlock(p, n);
      (r != [] && r[0].ImageRef? <==> p.hasDrawing) &&
      (r == [] <==> !p.hasDrawing && Strip(p.text) == []) &&
      (r != [] && (r[0].Heading? || r[0].Box? || r[0].Bullet? || r[0].Body?) ==> r[0].text == Strip(p.text)) &&
      (r != [] && r[0].ChapterHeader? ==> r[0].phase == Strip(p.text) && IsPhase(Strip(p.text))) &&
      (r != [] && r[0].Bullet? <==>
        !p.hasDrawing && Strip(p.text) != [] && !IsPhase(Strip(p.text)) && HeadingLevel(p).None? &&
        DetectBox(Strip(p.text)).None? && Contains(p.styleName, "List"))
  {
    StripTwice(p.text);
  }

  /** Stripping twice strips nothing more. */
  lemma StripTwice(s: string)
    ensures Strip(Strip(s)) == Strip(s)
  {
    StripFacts(s);
    StripOfClean(Strip(s));
  }

  function RefCount(blocks: seq<Block>): nat {
    if blocks == [] then 0
    else RefCount(blocks[..|blocks| - 1]) + if blocks[|blocks| - 1].ImageRef? then 1 else 0
  }

  lemma RefCountAppend(a: seq<Block>, b: seq<Block>)
    requires |b| <= 1
    ensures RefCount(a + b) == RefCount(a) + RefCount(b)
  {
    if b != [] {
      assert (a + b)[..|a + b| - 1] == a;
    } else {
      assert a + b == a;
    }
  }

  /** A paragraph gives an image reference, under the number it is given, exactly when it has a drawing. */
  lemma ParaBlockImage(p: Paragraph, n: nat)
    ensures RefCount(ParaBlock(p, n)) == if p.hasDrawing then 1 else 0
    ensures forall j :: 0 <= j < |ParaBlock(p, n)| && ParaBlock(p, n)[j].ImageRef? ==>
      ParaBlock(p, n)[j].imageId == "image" + NatToString(n)
  {
    var r := ParaBlock(p, n);
    if r != [] {
      assert r[..0] == [];
    }
  }

  /** Blocks whose image references carry number `count + 1` carry the id of position `count`. */
  lemma NumberedNext(b: seq<Block>, n: nat, count: nat)
    requires n == count + 1
    requires forall j :: 0 <= j < |b| && b[j].ImageRef? ==> b[j].imageId == "image" + NatToString(n)
    ensures forall j :: 0 <= j < |b| && b[j].ImageRef? ==> b[j].imageId == ImageRecords.ImageId(count)
  {
  }

  /** Image ids numbered by count stay so when one more block, numbered next, is appended. */
  predicate RefsNumbered(c: seq<Block>) {
    forall j :: 0 <= j < |c| && c[j].ImageRef? ==> c[j].imageId == ImageRecords.ImageId(RefCount(c[..j]))
  }

  lemma RefsNumberedSnoc(bf: seq<Block>, b: seq<Block>)
    requires RefsNumbered(bf) && |b| <= 1
    requires forall j :: 0 <= j < |b| && b[j].ImageRef? ==> b[j].imageId == ImageRecords.ImageId(RefCount(bf))
    ensures RefsNumbered(bf + b)
  {
    var c := bf + b;
    forall j | 0 <= j < |c| && c[j].ImageRef?
      ensures c[j].imageId == ImageRecords.ImageId(RefCount(c[..j]))
    {
      if j < |bf| {
        assert c[..j] == bf[..j];
        assert c[j] == bf[j];
      } else {
        assert c[..j] == bf;
      }
    }
  }

  /**
   * Image references are numbered `image1, image2, ...` in paragraph
   * order, one per drawing paragraph, the same ids the extractor gives the
   * sorted media files.
   */
  lemma {:induction false} BlocksImageIds(paras: seq<Paragraph>)
    ensures RefCount(Blocks(paras)) == DrawingCount(paras)
    ensures RefsNumbered(Blocks(paras))
  {
    if paras != [] {
      var front := paras[..|paras| - 1];
      var p := paras[|paras| - 1];
      BlocksImageIds(front);
      var bf := Blocks(front);
      var b := ParaBlock(p, DrawingCount(front) + 1);
      BlocksLast(paras);
      RefCountAppend(bf, b);
      ParaBlockImage(p, DrawingCount(front) + 1);
      NumberedNext(b, DrawingCount(front) + 1, RefCount(bf));
      RefsNumberedSnoc(bf, b);
    }
  }

  /** The paragraph blocks contain no table: every table block follows all of them. */
  lemma {:induction false} BlocksHaveNoTables(paras: seq<Paragraph>)
    ensures forall j :: 0 <= j < |Blocks(paras)| ==> !Blocks(paras)[j].Table?
  {
    if paras != [] {
      BlocksHaveNoTables(paras[..|paras| - 1]);
    }
  }

  /** The indices of the tables that have rows, in increasing order. */
  function WithRows(tables: seq<seq<seq<string>>>): (idx: seq<nat>)
    ensures forall j :: 0 <= j < |idx| ==> idx[j] < |tables| && tables[idx[j]] != []
    ensures forall j, j' :: 0 <= j < j' < |idx| ==> idx[j] < idx[j']
    ensures forall k :: 0 <= k < |tables| && tables[k] != [] ==> k in idx
  {
    if tables == [] then []
    else
      var front := WithRows(tables[..|tables| - 1]);
      assert forall k :: 0 <= k < |tables| - 1 ==> tables[..|tables| - 1][k] == tables[k];
      front + if tables[|tables| - 1] == [] then [] else [|tables| - 1]
  }

  /**
   * One table block per table with rows, in order: block j is built from the
   * j-th table that has rows, and every table with rows has its block.
   */
  lemma {:induction false} TableBlocksSpec(tables: seq<seq<seq<string>>>)
    ensures |TableBlocks(tables)| == |WithRows(tables)| == |tables| - Empties(tables)
    ensures forall j :: 0 <= j < |TableBlocks(tables)| ==>
      TableBlocks(tables)[j] == TableBlock(tables[WithRows(tables)[j]])
  {
    if tables != [] {
      var front := tables[..|tables| - 1];
      TableBlocksSpec(front);
      var r := TableBlocks(tables);
      var idx := WithRows(tables);
      forall j | 0 <= j < |r|
        ensures r[j] == TableBlock(tables[idx[j]])
      {
        if j < |TableBlocks(front)| {
          assert idx[j] == WithRows(front)[j];
          assert tables[idx[j]] == front[idx[j]];
        }
      }
    }
  }

  lemma TableBlocksAreTables(tables: seq<seq<seq<string>>>)
    ensures forall j :: 0 <= j < |TableBlocks(tables)| ==> TableBlocks(tables)[j].Table?
  {
    TableBlocksSpec(tables);
  }

  /** The number of tables without rows. */
  function Empties(tables: seq<seq<seq<string>>>): (n: nat)
    ensures n <= |tables|
  {
    if tables == [] then 0
    else Empties(tables[..|tables| - 1]) + if tables[|tables| - 1] == [] then 1 else 0
  }

  /**
   * The content is the paragraph blocks followed by the table blocks, the
   * title falls back to the file stem when the core title is empty, and
   * the source file is the base name of the path.
   */
  lemma ParsedLayout(paras: seq<Paragraph>, tables: seq<seq<seq<string>>>, coreTitle: string, coreAuthor: string, path: string)
    ensures var doc := Parsed(paras, tables, coreTitle, coreAuthor, path);
      var k := |doc.content| - |TableBlocks(tables)|;
      0 <= k <= |paras| &&
      (forall j :: 0 <= j < k ==> !doc.content[j].Table?) &&
      (forall j :: k <= j < |doc.content| ==> doc.content[j].Table?) &&
      (coreTitle == "" ==> doc.meta.title + Suffix(PathName(path)) == PathName(path)) &&
      (coreTitle != "" ==> doc.meta.title == coreTitle) &&
      '/' !in doc.meta.sourceFile
  {
    var doc := Parsed(paras, tables, coreTitle, coreAuthor, path);
    BlocksHaveNoTables(paras);
    TableBlocksAreTables(tables);
    var bp := Blocks(paras);
    assert doc.content == bp + TableBlocks(tables);
    forall j | 0 <= j < |bp| ensures doc.content[j] == bp[j] {}
    forall j | |bp| <= j < |doc.content| ensures doc.content[j] == TableBlocks(tables)[j - |bp|] {}
    AfterLastSlashFacts(path);
  }
}
