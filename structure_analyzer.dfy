/**
 * The `.docx` structure analyser: a first-match classifier from paragraph
 * features to elements, the table classifier, and the four passes that
 * rewrite the classified element list (bullet runs, conclusion runs,
 * caption absorption, prompt-label absorption).
 */
module StructureAnalyzer {
  import opened Text
  import opened Models

  // ---------------------------------------------------------------------
  // paragraph features

  /** A run: its explicit size in half-points (0 when unset) and its bold flag. */
  datatype Run = Run(sizeHalfPoints: nat, bold: bool)

  /** The first inline drawing of a paragraph: relationship id and extent in EMU. */
  datatype Drawing = Drawing(relId: string, cx: int, cy: int)

  /**
   * What the classifier reads from a paragraph: style name, text, runs, the
   * `w:sz` value of the paragraph mark (half-points), the left indent as
   * stored (EMU), whether it carries numbering, and its first drawing.
   */
  datatype Paragraph = Paragraph(
    styleName: string,
    rawText: string,
    runs: seq<Run>,
    markSize: Option<int>,
    leftIndentEmu: int,
    numbered: bool,
    drawing: Option<Drawing>)

  /** The style name, lower-cased and trimmed. */
  function StyleKey(p: Paragraph): string {
    Strip(Lower(p.styleName))
  }

  /** Every maximal run of whitespace replaced by one space. */
  function Collapse(s: string): (r: string)
    ensures |r| <= |s|
    decreases |s|
  {
    if s == [] then []
    else if IsSpace(s[0]) then " " + Collapse(LStrip(s[1..]))
    else [s[0]] + Collapse(s[1..])
  }

  /** The paragraph text with whitespace runs collapsed, then trimmed. */
  function CleanText(s: string): string {
    Strip(Collapse(s))
  }

  lemma {:induction false} CollapseBlank(s: string)
    ensures AllSpace(Collapse(s)) <==> AllSpace(s)
    decreases |s|
  {
    if s != [] {
      if IsSpace(s[0]) {
        var t := LStrip(s[1..]);
        LStripSpec(s[1..]);
        CollapseBlank(t);
        assert AllSpace(s) <==> AllSpace(t) by {
          assert s == [s[0]] + s[1..][..|s| - 1 - |t|] + t;
        }
        assert Collapse(s) == " " + Collapse(t);
      } else {
        assert !AllSpace(s) by { assert !IsSpace(s[0]); }
        assert Collapse(s)[0] == s[0];
      }
    }
  }

  /** After collapsing, the only whitespace is single spaces. */
  lemma {:induction false} CollapseShape(s: string)
    ensures var r := Collapse(s);
      forall i :: 0 <= i < |r| && IsSpace(r[i]) ==> r[i] == ' ' && (i + 1 < |r| ==> !IsSpace(r[i + 1]))
    decreases |s|
  {
    if s != [] {
      var r := Collapse(s);
      if IsSpace(s[0]) {
        var t := LStrip(s[1..]);
        LStripSpec(s[1..]);
        CollapseShape(t);
        assert r == " " + Collapse(t);
        if t != [] {
          assert Collapse(t)[0] == t[0];
        }
      } else {
        CollapseShape(s[1..]);
        assert r == [s[0]] + Collapse(s[1..]);
      }
    }
  }

  /** A paragraph's clean text is empty exactly when its text is all whitespace. */
  lemma CleanTextEmpty(s: string)
    ensures CleanText(s) == [] <==> AllSpace(s)
  {
    var c := Collapse(s);
    CollapseBlank(s);
    RStripSpec(c);
    var m := RStrip(c);
    LStripSpec(m);
    if !AllSpace(c) {
      var i :| 0 <= i < |c| && !IsSpace(c[i]);
      assert m[i] == c[i];
    }
  }

  // ---------------------------------------------------------------------
  // font size and boldness

  /** The explicit run sizes, in order. */
  function RunSizes(runs: seq<Run>): seq<int> {
    if runs == [] then []
    else
      var last := runs[|runs| - 1];
      RunSizes(runs[..|runs| - 1]) + (if last.sizeHalfPoints > 0 then [last.sizeHalfPoints as int] else [])
  }

  /** The sizes the font-size rule considers. */
  function SizeList(p: Paragraph): seq<int> {
    RunSizes(p.runs) + (if p.markSize.Some? then [p.markSize.value] else [])
  }

  function Largest(xs: seq<int>): int
    requires xs != []
  {
    if |xs| == 1 then xs[0]
    else var m := Largest(xs[..|xs| - 1]); if xs[|xs| - 1] > m then xs[|xs| - 1] else m
  }

  /** The largest explicit size in half-points, or 0 when there is none. */
  function FontSize(p: Paragraph): int {
    var xs := SizeList(p);
    if xs == [] then 0 else Largest(xs)
  }

  lemma {:induction false} LargestIsMaximum(xs: seq<int>)
    requires xs != []
    ensures Largest(xs) in xs
    ensures forall x :: x in xs ==> x <= Largest(xs)
  {
    if |xs| > 1 {
      LargestIsMaximum(xs[..|xs| - 1]);
      assert xs == xs[..|xs| - 1] + [xs[|xs| - 1]];
    }
  }

  /** The paragraph's font size is its largest explicit size, or 0. */
  lemma FontSizeIsMaximum(p: Paragraph)
    ensures SizeList(p) == [] ==> FontSize(p) == 0
    ensures SizeList(p) != [] ==> FontSize(p) in SizeList(p)
    ensures forall x :: x in SizeList(p) ==> x <= FontSize(p)
  {
    if SizeList(p) != [] {
      LargestIsMaximum(SizeList(p));
    }
  }

  /** `_font_size_pt`, in half-points: collects the explicit sizes and takes their maximum. */
  method FontSizeHalfPoints(p: Paragraph) returns (size: int)
    ensures size == FontSize(p)
  {
    var sizes: seq<int> := [];
    var i := 0;
    while i < |p.runs|
      invariant 0 <= i <= |p.runs|
      invariant sizes == RunSizes(p.runs[..i])
    {
      assert p.runs[..i + 1][..i] == p.runs[..i];
      if p.runs[i].sizeHalfPoints > 0 {
        sizes := sizes + [p.runs[i].sizeHalfPoints as int];
      }
      i := i + 1;
    }
    assert p.runs[..i] == p.runs;
    if p.markSize.Some? {
      sizes := sizes + [p.markSize.value];
    }
    assert sizes == SizeList(p);
    if sizes == [] {
      return 0;
    }
    size := sizes[0];
    var j := 1;
    while j < |sizes|
      invariant 1 <= j <= |sizes|
      invariant size == Largest(sizes[..j])
    {
      assert sizes[..j + 1][..j] == sizes[..j];
      if sizes[j] > size {
        size := sizes[j];
      }
      j := j + 1;
    }
    assert sizes[..j] == sizes;
  }

  /** At least one run, and every run bold. */
  predicate AllBold(p: Paragraph) {
    |p.runs| > 0 && forall i :: 0 <= i < |p.runs| ==> p.runs[i].bold
  }

  /** A list paragraph: a style name containing "list", or numbering. */
  predicate IsListPara(p: Paragraph) {
    Contains(StyleKey(p), "list") || p.numbered
  }

  // ---------------------------------------------------------------------
  // style tables

  /** The `ds-*` style names and their tags. */
  function DsStyle(style: string): (r: Option<ElementType>)
    ensures r == Some(Caption) ==> style == "ds-caption"
  {
    if style == "ds-chaptertitle" then Some(ChapterTitle)
    else if style == "ds-insight" then Some(Insight)
    else if style == "ds-tip" then Some(Tip)
    else if style == "ds-warning" then Some(Warning)
    else if style == "ds-quote" then Some(Quote)
    else if style == "ds-qa-question" then Some(Qa)
    else if style == "ds-qa-answer" then Some(Qa)
    else if style == "ds-prompt" then Some(Prompt)
    else if style == "ds-conclusion" then Some(Conclusion)
    else if style == "ds-caption" then Some(Caption)
    else None
  }

  /** The heading level a style name denotes, or 0. */
  function HeadingStyle(style: string): (level: nat)
    ensures level <= 3
  {
    if Contains(style, "heading 1") || style == "제목 1" || style == "heading1" then 1
    else if Contains(style, "heading 2") || style == "제목 2" || style == "heading2" then 2
    else if Contains(style, "heading 3") || style == "제목 3" || style == "heading3" then 3
    else 0
  }

  function HeadingType(level: nat): ElementType
    requires 1 <= level <= 3
  {
    if level == 1 then H1 else if level == 2 then H2 else H3
  }

  // ---------------------------------------------------------------------
  // prompt labels

  predicate IsColon(c: char) { c == ':' || c == '\U{FF1A}' }

  /**
   * The stripped second group when `rest` matches `\s*(.+)$`: `.` excludes a
   * newline and `$` also matches before a final newline.
   */
  function BodyMatch(rest: string): Option<string> {
    var t := DropFinalNewline(rest);
    var m := LineStart(t);
    if m < |t| && AllSpace(t[..m]) then Some(Strip(t[m..])) else None
  }

  function DropFinalNewline(s: string): (r: string)
    ensures |r| <= |s|
  {
    if |s| > 0 && s[|s| - 1] == '\n' then s[..|s| - 1] else s
  }

  lemma {:induction false} LineStartOfLine(s: string)
    requires '\n' !in s
    ensures LineStart(s) == 0
  {
    if s != [] {
      LineStartOfLine(s[..|s| - 1]);
    }
  }

  /** The index just after the last newline, or 0. */
  function LineStart(s: string): (m: nat)
    ensures m <= |s|
  {
    if s == [] then 0
    else if s[|s| - 1] == '\n' then |s|
    else LineStart(s[..|s| - 1])
  }

  /** `^(.{1,30})[:：]\s*(.+)$` matches with the colon at index `k`. */
  predicate LabelColonAt(text: string, k: int) {
    1 <= k <= 30 && k < |text| && IsColon(text[k]) && '\n' !in text[..k] && BodyMatch(text[k + 1..]).Some?
  }

  /** The largest `k <= from` at which the label pattern matches, or 0. */
  function LabelColon(text: string, from: int): (k: int)
    ensures 0 <= k
    ensures k == 0 || (k <= from && LabelColonAt(text, k))
    decreases from
  {
    if from < 1 then 0
    else if LabelColonAt(text, from) then from
    else LabelColon(text, from - 1)
  }

  /** `LabelColon` finds the largest matching index, the greedy choice of `.{1,30}`. */
  lemma {:induction false} LabelColonMax(text: string, from: int, j: int)
    requires LabelColon(text, from) < j <= from
    ensures !LabelColonAt(text, j)
    decreases from
  {
    assert !LabelColonAt(text, from) by {
      assert LabelColon(text, from) != from;
    }
    if j < from {
      LabelColonMax(text, from - 1, j);
    }
  }

  /** `_parse_prompt_label`: a label before the colon and the body after it, or `("", text)`. */
  function ParsePromptLabel(text: string): (r: (string, string))
    ensures r.0 == [] && r.1 == text <== LabelColon(text, 30) == 0
    ensures LabelColon(text, 30) > 0 ==> |r.0| <= 30
  {
    var k := LabelColon(text, 30);
    if k == 0 then ("", text)
    else
      StripFacts(text[..k]);
      (Strip(text[..k]), BodyMatch(text[k + 1..]).value)
  }

  lemma StripSpaceBefore(b: string)
    requires b != [] && Strip(b) == b
    ensures Strip(" " + b) == b
  {
    StripFacts(b);
    assert RStrip(" " + b) == " " + b;
    assert LStrip(" " + b) == LStrip(b);
    StripOfClean(b);
    RStripSpec(b);
  }

  /** With no colon after a matching index, the search stops there. */
  lemma LabelColonIsLastColon(text: string, k: int)
    requires LabelColonAt(text, k)
    requires forall j :: k < j < |text| ==> !IsColon(text[j])
    ensures LabelColon(text, 30) == k
  {
    var found := LabelColon(text, 30);
    if found < k {
      LabelColonMax(text, 30, k);
    }
  }

  lemma BodyMatchOfSpaced(body: string)
    requires body != [] && Strip(body) == body
    requires forall i :: 0 <= i < |body| ==> body[i] != '\n'
    ensures BodyMatch(" " + body) == Some(body)
  {
    var rest := " " + body;
    assert rest[|rest| - 1] == body[|body| - 1];
    assert DropFinalNewline(rest) == rest;
    assert '\n' !in rest;
    LineStartOfLine(rest);
    assert rest[..0] == [];
    assert rest[0..] == rest;
    StripSpaceBefore(body);
  }

  /**
   * A label of at most 30 characters written as `label: body` reads back as
   * that label and body, provided neither holds a colon or a newline and
   * both are already trimmed.
   */
  lemma PromptLabelRoundTrip(lbl: string, body: string)
    requires 1 <= |lbl| <= 30 && Strip(lbl) == lbl
    requires body != [] && Strip(body) == body
    requires forall i :: 0 <= i < |lbl| ==> !IsColon(lbl[i]) && lbl[i] != '\n'
    requires forall i :: 0 <= i < |body| ==> !IsColon(body[i]) && body[i] != '\n'
    ensures ParsePromptLabel(lbl + ": " + body) == (lbl, body)
  {
    var text := lbl + ": " + body;
    var k := |lbl|;
    PromptLabelPieces(lbl, body);
    PromptLabelColon(lbl, body);
    LabelColonIsLastColon(text, k);
  }

  /** In `label: body` the label and the text after the colon are where they were put. */
  lemma PromptLabelPieces(lbl: string, body: string)
    requires 1 <= |lbl| <= 30
    requires body != [] && Strip(body) == body
    requires forall i :: 0 <= i < |lbl| ==> lbl[i] != '\n'
    requires forall i :: 0 <= i < |body| ==> body[i] != '\n'
    ensures var text := lbl + ": " + body;
      text[..|lbl|] == lbl && text[|lbl| + 1..] == " " + body && BodyMatch(text[|lbl| + 1..]) == Some(body)
  {
    var text := lbl + ": " + body;
    var k := |lbl|;
    assert text[..k] == lbl;
    assert text[k + 1..] == " " + body;
    BodyMatchOfSpaced(body);
  }

  /** In `label: body` the label pattern matches at the colon, and no colon follows it. */
  lemma PromptLabelColon(lbl: string, body: string)
    requires 1 <= |lbl| <= 30
    requires body != [] && Strip(body) == body
    requires forall i :: 0 <= i < |lbl| ==> lbl[i] != '\n'
    requires forall i :: 0 <= i < |body| ==> !IsColon(body[i]) && body[i] != '\n'
    ensures var text := lbl + ": " + body;
      LabelColonAt(text, |lbl|) && forall j :: |lbl| < j < |text| ==> !IsColon(text[j])
  {
    var text := lbl + ": " + body;
    var k := |lbl|;
    PromptLabelPieces(lbl, body);
    assert '\n' !in text[..k];
    assert IsColon(text[k]);
    NoColonAfterLabel(lbl, body);
  }

  lemma NoColonAfterLabel(lbl: string, body: string)
    requires forall i :: 0 <= i < |body| ==> !IsColon(body[i])
    ensures var text := lbl + ": " + body;
      forall j :: |lbl| < j < |text| ==> !IsColon(text[j])
  {
    var text := lbl + ": " + body;
    var k := |lbl|;
    forall j | k < j < |text| ensures !IsColon(text[j]) {
      if j > k + 1 {
        assert text[j] == body[j - k - 2];
      }
    }
  }

  /**
   * `^(.{1,30})[:：]\s*$` on a body paragraph's text: the stripped label when
   * the last colon has 1 to 30 newline-free characters before it and only
   * whitespace after it.
   */
  function LabelLine(text: string): (r: Option<string>)
    ensures r.Some? ==> |r.value| <= 30
  {
    var k := LastColon(text);
    if 1 <= k <= 30 && '\n' !in text[..k] && AllSpace(text[k + 1..]) then
      StripFacts(text[..k]);
      Some(Strip(text[..k]))
    else None
  }

  /** Index of the last colon (ASCII or full-width), or -1. */
  function LastColon(s: string): (i: int)
    ensures -1 <= i < |s|
    ensures i >= 0 ==> IsColon(s[i])
    ensures forall j :: i < j < |s| ==> !IsColon(s[j])
  {
    if s == [] then -1
    else if IsColon(s[|s| - 1]) then |s| - 1
    else LastColon(s[..|s| - 1])
  }

  /** A label line is recognised whatever whitespace follows its colon. */
  lemma LabelLineOfLabel(lbl: string, trailing: string)
    requires 1 <= |lbl| <= 30 && Strip(lbl) == lbl
    requires forall i :: 0 <= i < |lbl| ==> !IsColon(lbl[i]) && lbl[i] != '\n'
    requires AllSpace(trailing)
    ensures LabelLine(lbl + ":" + trailing) == Some(lbl)
  {
    var text := lbl + ":" + trailing;
    var k := LastColon(text);
    assert IsColon(text[|lbl|]);
    assert k == |lbl|;
    assert text[..k] == lbl;
    assert text[k + 1..] == trailing;
  }

  // ---------------------------------------------------------------------
  // paragraph classification

  /** What classifying one paragraph does to the element list. */
  datatype Outcome =
    | Emit(element: Element)     // append a new element
    | Skip                       // append nothing
    | AppendAnswer(answer: string)  // add an answer to the preceding QA element

  const ImageFallbackText := "이미지"

  /** The left indent from which a paragraph counts as a quote, as the code compares it. */
  const QuoteIndentAsWritten := 720

  /** 720 twips (half an inch) in EMU: 635 EMU per twip. */
  const QuoteIndentEmu := 720 * 635

  function Get(m: map<string, string>, k: string): string {
    if k in m then m[k] else ""
  }

  /** The `ds-*` branch, for a non-empty clean text. */
  function DsOutcome(style: string, text: string, prev: Option<Element>): (r: Outcome)
    requires DsStyle(style).Some?
    ensures !r.Skip?
    ensures r.AppendAnswer? <==> style == "ds-qa-answer" && prev.Some? && prev.value.QaEl?
    ensures r.AppendAnswer? ==> r.answer == text
    ensures r.Emit? ==> TypeOf(r.element) == DsStyle(style).value
  {
    if style == "ds-qa-question" then Emit(QaEl(text, []))
    else if style == "ds-qa-answer" then
      if prev.Some? && prev.value.QaEl? then AppendAnswer(text) else Emit(QaEl("", [text]))
    else if style == "ds-prompt" then
      var (lbl, body) := ParsePromptLabel(text);
      Emit(PromptEl(lbl, body))
    else Emit(TextOf(DsStyle(style).value, text))
  }

  /**
   * `classify_paragraph` with the quote threshold as a parameter: drawing,
   * empty text, `ds-*` style, heading style, list, font size, bold and
   * short, left indent, and otherwise body, first match wins.
   */
  function ClassifyWith(quoteIndent: int, p: Paragraph, imageMap: map<string, string>,
                        relMap: map<string, string>, prev: Option<Element>): (r: Outcome)
    ensures r.Skip? <==> p.drawing.None? && CleanText(p.rawText) == []
    ensures r.AppendAnswer? <==>
      p.drawing.None? && CleanText(p.rawText) != [] && StyleKey(p) == "ds-qa-answer" &&
      prev.Some? && prev.value.QaEl?
    ensures r.AppendAnswer? ==> r.answer == CleanText(p.rawText)
    ensures r.Emit? ==> TypeOf(r.element) != Caption || StyleKey(p) == "ds-caption"
  {
    var style := StyleKey(p);
    var text := CleanText(p.rawText);
    var size := FontSize(p);
    if p.drawing.Some? then
      var d := p.drawing.value;
      var filename := Get(relMap, d.relId);
      var localPath := Get(imageMap, filename);
      if localPath != [] then Emit(ImageEl(filename, localPath, d.cx, d.cy, text))
      else Emit(TextOf(ImagePlaceholder, if text != [] then text else ImageFallbackText))
    else if text == [] then Skip
    else if DsStyle(style).Some? then DsOutcome(style, text, prev)
    else if HeadingStyle(style) > 0 then Emit(TextOf(HeadingType(HeadingStyle(style)), text))
    else if IsListPara(p) then Emit(TextOf(Bullets, text))
    else if size >= 56 then Emit(TextOf(H1, text))
    else if size >= 48 then Emit(TextOf(H2, text))
    else if size >= 40 then Emit(TextOf(H3, text))
    else if AllBold(p) && |text| <= 60 then Emit(TextOf(H3, text))
    else if p.leftIndentEmu >= quoteIndent then Emit(TextOf(Quote, text))
    else Emit(TextOf(Body, text))
  }

  /** The classifier exactly as written: indent compared with 720 in EMU. */
  function ClassifyAsWritten(p: Paragraph, imageMap: map<string, string>, relMap: map<string, string>,
                             prev: Option<Element>): Outcome {
    ClassifyWith(QuoteIndentAsWritten, p, imageMap, relMap, prev)
  }

  /** The classifier with the indent threshold at 720 twips; the rest of the model uses this one. */
  function Classify(p: Paragraph, imageMap: map<string, string>, relMap: map<string, string>,
                    prev: Option<Element>): Outcome {
    ClassifyWith(QuoteIndentEmu, p, imageMap, relMap, prev)
  }

  /** None of the rungs before the font-size rule applies. */
  predicate PlainStyled(p: Paragraph) {
    p.drawing.None? && CleanText(p.rawText) != [] && DsStyle(StyleKey(p)).None? &&
    HeadingStyle(StyleKey(p)) == 0 && !IsListPara(p)
  }

  /** A drawing wins over everything, even without text; it is an image only when its file was staged. */
  lemma DrawingFirst(p: Paragraph, imageMap: map<string, string>, relMap: map<string, string>, prev: Option<Element>)
    requires p.drawing.Some?
    ensures var r := Classify(p, imageMap, relMap, prev);
      var staged := Get(imageMap, Get(relMap, p.drawing.value.relId));
      r.Emit? &&
      (staged != [] ==> r.element == ImageEl(Get(relMap, p.drawing.value.relId), staged,
                                             p.drawing.value.cx, p.drawing.value.cy, CleanText(p.rawText))) &&
      (staged == [] ==> r.element == TextOf(ImagePlaceholder,
                                            if CleanText(p.rawText) != [] then CleanText(p.rawText) else ImageFallbackText))
  {
  }

  /** A `ds-*` style decides the tag before headings, lists, sizes, boldness and indent. */
  lemma DsStyleWins(p: Paragraph, imageMap: map<string, string>, relMap: map<string, string>, prev: Option<Element>)
    requires p.drawing.None? && CleanText(p.rawText) != [] && DsStyle(StyleKey(p)).Some?
    ensures var r := Classify(p, imageMap, relMap, prev);
      (r.Emit? && TypeOf(r.element) == DsStyle(StyleKey(p)).value) ||
      (r.AppendAnswer? && DsStyle(StyleKey(p)).value == Qa)
  {
  }

  /** `ds-qa-answer` after a QA element extends it; otherwise it opens a QA with no question. */
  lemma AnswerMerges(p: Paragraph, imageMap: map<string, string>, relMap: map<string, string>, prev: Option<Element>)
    requires p.drawing.None? && CleanText(p.rawText) != [] && StyleKey(p) == "ds-qa-answer"
    ensures prev.Some? && prev.value.QaEl? ==> Classify(p, imageMap, relMap, prev) == AppendAnswer(CleanText(p.rawText))
    ensures !(prev.Some? && prev.value.QaEl?) ==> Classify(p, imageMap, relMap, prev) == Emit(QaEl("", [CleanText(p.rawText)]))
  {
  }

  /** A heading style decides the level whatever the size, boldness or indent. */
  lemma HeadingStyleWins(p: Paragraph, imageMap: map<string, string>, relMap: map<string, string>, prev: Option<Element>)
    requires p.drawing.None? && CleanText(p.rawText) != [] && DsStyle(StyleKey(p)).None?
    requires HeadingStyle(StyleKey(p)) > 0
    ensures Classify(p, imageMap, relMap, prev) ==
      Emit(TextOf(HeadingType(HeadingStyle(StyleKey(p))), CleanText(p.rawText)))
  {
  }

  /**
   * Past the style and list rungs, the tag is H1/H2/H3 by size (28/24/20 pt),
   * H3 for short all-bold text, quote for a deep indent, else body.
   */
  lemma UnstyledRungs(p: Paragraph, imageMap: map<string, string>, relMap: map<string, string>, prev: Option<Element>)
    requires PlainStyled(p)
    ensures var r := Classify(p, imageMap, relMap, prev);
      var text := CleanText(p.rawText);
      var size := FontSize(p);
      r.Emit? && r.element.TextEl? && r.element == TextOf(r.element.kind, text) &&
      (r.element.kind == H1 <==> size >= 56) &&
      (r.element.kind == H2 <==> 48 <= size < 56) &&
      (r.element.kind == H3 <==> size < 48 && (size >= 40 || (AllBold(p) && |text| <= 60))) &&
      (r.element.kind == Quote <==> size < 40 && !(AllBold(p) && |text| <= 60) && p.leftIndentEmu >= QuoteIndentEmu) &&
      (r.element.kind == Body <==> size < 40 && !(AllBold(p) && |text| <= 60) && p.leftIndentEmu < QuoteIndentEmu)
  {
  }

  /** A list paragraph is a bullet fragment unless a style rung applies first. */
  lemma ListBeforeSize(p: Paragraph, imageMap: map<string, string>, relMap: map<string, string>, prev: Option<Element>)
    requires p.drawing.None? && CleanText(p.rawText) != [] && DsStyle(StyleKey(p)).None?
    requires HeadingStyle(StyleKey(p)) == 0 && IsListPara(p)
    ensures Classify(p, imageMap, relMap, prev) == Emit(TextOf(Bullets, CleanText(p.rawText)))
  {
  }

  /**
   * A paragraph indented by one point (12700 EMU, 20 twips), neither sized,
   * bold nor styled, is a quote as written and body text with the threshold
   * at 720 twips.
   */
  lemma IndentThresholdFinding()
    ensures var p := Paragraph("", "x", [], None, 12700, false, None);
      ClassifyAsWritten(p, map[], map[], None) == Emit(TextOf(Quote, "x")) &&
      Classify(p, map[], map[], None) == Emit(TextOf(Body, "x"))
  {
    var p := Paragraph("", "x", [], None, 12700, false, None);
    assert Collapse("x") == "x";
    assert CleanText("x") == "x";
    assert StyleKey(p) == "";
    assert !Contains("", "list") && !Contains("", "heading 1") && !Contains("", "heading 2") && !Contains("", "heading 3");
    assert SizeList(p) == [];
  }

  // ---------------------------------------------------------------------
  // tables

  /** The number of cells of the widest row. */
  function MaxColumns(rows: seq<seq<string>>): (n: nat)
    ensures forall i :: 0 <= i < |rows| ==> |rows[i]| <= n
    ensures rows != [] ==> exists i :: 0 <= i < |rows| && |rows[i]| == n
  {
    if rows == [] then 0
    else
      var m := MaxColumns(rows[..|rows| - 1]);
      var last := |rows[|rows| - 1]|;
      assert forall i :: 0 <= i < |rows| - 1 ==> rows[i] == rows[..|rows| - 1][i];
      if last > m then last else m
  }

  /** The table element for rows of trimmed cells. */
  function TableFrom(raw: seq<seq<string>>): (t: Element)
    ensures t.TableEl?
  {
    if raw == [] then TableEl(Table2, "", "", [], [])
    else if MaxColumns(raw) <= 2 then
      var header := raw[0];
      TableEl(Table2, if |header| > 0 then header[0] else "", if |header| > 1 then header[1] else "", [], raw[1..])
    else TableEl(Table3, "", "", raw[0], raw[1..])
  }

  /** The rows a table element describes, its header row first. */
  function TableRows(t: Element): seq<seq<string>>
    requires t.TableEl?
  {
    if t.kind == Table2 then [[t.col1, t.col2]] + t.rows else [t.headers] + t.rows
  }

  /**
   * A table is TABLE2 exactly when it has no row wider than two cells, and
   * its header row and data rows give back the trimmed cells whenever the
   * header row is complete.
   */
  lemma TableFromKeepsRows(raw: seq<seq<string>>)
    ensures TableFrom(raw).kind == Table2 <==> MaxColumns(raw) <= 2
    ensures raw != [] && (MaxColumns(raw) > 2 || |raw[0]| == 2) ==> TableRows(TableFrom(raw)) == raw
    ensures raw != [] ==> TableFrom(raw).rows == raw[1..]
  {
    if raw != [] && MaxColumns(raw) <= 2 && |raw[0]| == 2 {
      assert [raw[0][0], raw[0][1]] == raw[0];
    }
  }

  /** Every cell of every row trimmed. */
  function StrippedCells(cells: seq<seq<string>>): (r: seq<seq<string>>)
    ensures |r| == |cells|
  {
    seq(|cells|, i requires 0 <= i < |cells| => StripAll(cells[i]))
  }

  /** `classify_table`: trims every cell, then picks the layout. */
  method ClassifyTable(cells: seq<seq<string>>) returns (t: Element)
    ensures t == TableFrom(StrippedCells(cells))
  {
    var raw: seq<seq<string>> := [];
    var i := 0;
    while i < |cells|
      invariant 0 <= i <= |cells|
      invariant raw == seq(i, k requires 0 <= k < i => StripAll(cells[k]))
    {
      raw := raw + [StripAll(cells[i])];
      i := i + 1;
    }
    t := TableFrom(raw);
  }

  // ---------------------------------------------------------------------
  // pass 1 and 2: bullet and conclusion runs

  predicate IsFragment(e: Element, kind: ElementType) {
    e.TextEl? && e.kind == kind
  }

  function TextOfElement(e: Element): string {
    if e.TextEl? then e.text else ""
  }

  /** The texts of the elements, in order. */
  function Texts(els: seq<Element>): (r: seq<string>)
    ensures |r| == |els|
  {
    seq(|els|, i requires 0 <= i < |els| => TextOfElement(els[i]))
  }

  /** The element one run of fragments becomes. */
  function Wrap(kind: ElementType, texts: seq<string>): Element {
    if kind == Bullets then BulletsEl(texts) else ConclusionEl(texts)
  }

  /** The length of the longest prefix of fragments of `kind`. */
  function RunLength(els: seq<Element>, kind: ElementType): (n: nat)
    ensures n <= |els|
    ensures els != [] && IsFragment(els[0], kind) ==> n >= 1
    decreases |els|
  {
    if els != [] && IsFragment(els[0], kind) then 1 + RunLength(els[1..], kind) else 0
  }

  lemma {:induction false} RunLengthExact(els: seq<Element>, kind: ElementType, j: nat)
    requires j <= |els|
    requires forall k :: 0 <= k < j ==> IsFragment(els[k], kind)
    requires j == |els| || !IsFragment(els[j], kind)
    ensures RunLength(els, kind) == j
    decreases j
  {
    if j > 0 {
      RunLengthExact(els[1..], kind, j - 1);
    }
  }

  lemma {:induction false} RunLengthFragments(els: seq<Element>, kind: ElementType)
    ensures forall k :: 0 <= k < RunLength(els, kind) ==> IsFragment(els[k], kind)
    decreases |els|
  {
    if els != [] && IsFragment(els[0], kind) {
      RunLengthFragments(els[1..], kind);
      assert forall k :: 1 <= k < RunLength(els, kind) ==> els[k] == els[1..][k - 1];
    }
  }

  /** Each maximal run of fragments of `kind` replaced by one wrapped element. */
  function MergedRuns(els: seq<Element>, kind: ElementType): seq<Element>
    decreases |els|
  {
    if els == [] then []
    else if IsFragment(els[0], kind) then
      var n := RunLength(els, kind);
      [Wrap(kind, Texts(els[..n]))] + MergedRuns(els[n..], kind)
    else [els[0]] + MergedRuns(els[1..], kind)
  }

  /** `merge_bullet_runs` (`kind` = Bullets) and `merge_conclusion_runs` (`kind` = Conclusion). */
  method MergeRuns(elements: seq<Element>, kind: ElementType) returns (merged: seq<Element>)
    requires kind == Bullets || kind == Conclusion
    ensures merged == MergedRuns(elements, kind)
  {
    merged := [];
    var i := 0;
    while i < |elements|
      invariant 0 <= i <= |elements|
      invariant merged + MergedRuns(elements[i..], kind) == MergedRuns(elements, kind)
    {
      var el := elements[i];
      if el.TextEl? && el.kind == kind {
        var items, stop := CollectRun(elements, kind, i);
        MergeStep(elements, kind, i, stop, merged);
        merged := merged + [Wrap(kind, items)];
        i := stop;
      } else {
        MergeOtherStep(elements, kind, i, merged);
        merged := merged + [el];
        i := i + 1;
      }
    }
  }

  /** The inner loop of the merge passes: the texts of the run of fragments starting at `start`. */
  method CollectRun(elements: seq<Element>, kind: ElementType, start: nat) returns (items: seq<string>, stop: nat)
    requires start < |elements| && IsFragment(elements[start], kind)
    ensures start < stop <= |elements|
    ensures forall j :: start <= j < stop ==> IsFragment(elements[j], kind)
    ensures stop == |elements| || !IsFragment(elements[stop], kind)
    ensures items == Texts(elements[start..stop])
  {
    var i := start;
    items := [elements[start].text];
    assert items == Texts(elements[start..i + 1]);
    while i + 1 < |elements| && elements[i + 1].TextEl? && elements[i + 1].kind == kind
      invariant start <= i < |elements|
      invariant items == Texts(elements[start..i + 1])
      invariant forall j :: start <= j <= i ==> IsFragment(elements[j], kind)
    {
      TextsSnoc(elements, start, i + 1);
      items := items + [elements[i + 1].text];
      i := i + 1;
    }
    stop := i + 1;
  }

  lemma TextsSnoc(els: seq<Element>, start: nat, stop: nat)
    requires start <= stop < |els|
    ensures Texts(els[start..stop + 1]) == Texts(els[start..stop]) + [TextOfElement(els[stop])]
  {
  }

  /** A run of fragments from `i` to `stop` becomes one wrapped element. */
  lemma MergeStep(elements: seq<Element>, kind: ElementType, i: nat, stop: nat, merged: seq<Element>)
    requires i < stop <= |elements|
    requires forall k :: i <= k < stop ==> IsFragment(elements[k], kind)
    requires stop == |elements| || !IsFragment(elements[stop], kind)
    requires merged + MergedRuns(elements[i..], kind) == MergedRuns(elements, kind)
    ensures merged + [Wrap(kind, Texts(elements[i..stop]))] + MergedRuns(elements[stop..], kind) == MergedRuns(elements, kind)
  {
    var ls := elements[i..];
    var j := stop - i;
    assert ls[..j] == elements[i..stop];
    assert ls[j..] == elements[stop..];
    MergedRunsRun(ls, kind, j);
  }

  /** A run of exactly `j` fragments at the front becomes one wrapped element. */
  lemma MergedRunsRun(ls: seq<Element>, kind: ElementType, j: nat)
    requires 0 < j <= |ls|
    requires forall k :: 0 <= k < j ==> IsFragment(ls[k], kind)
    requires j == |ls| || !IsFragment(ls[j], kind)
    ensures MergedRuns(ls, kind) == [Wrap(kind, Texts(ls[..j]))] + MergedRuns(ls[j..], kind)
  {
    RunLengthExact(ls, kind, j);
  }

  /** Any other element at `i` is kept. */
  lemma MergeOtherStep(elements: seq<Element>, kind: ElementType, i: nat, merged: seq<Element>)
    requires i < |elements| && !IsFragment(elements[i], kind)
    requires merged + MergedRuns(elements[i..], kind) == MergedRuns(elements, kind)
    ensures merged + [elements[i]] + MergedRuns(elements[i + 1..], kind) == MergedRuns(elements, kind)
  {
    var ls := elements[i..];
    assert ls[1..] == elements[i + 1..];
    MergedRunsKeepsHead(ls, kind);
    ConcatAssoc(merged, [elements[i]], MergedRuns(elements[i + 1..], kind));
  }

  lemma MergedRunsKeepsHead(ls: seq<Element>, kind: ElementType)
    requires ls != [] && !IsFragment(ls[0], kind)
    ensures MergedRuns(ls, kind) == [ls[0]] + MergedRuns(ls[1..], kind)
  {
  }

  /** No fragment of `kind` survives the merge. */
  lemma {:induction false} MergedRunsLeaveNoFragment(els: seq<Element>, kind: ElementType)
    ensures forall e :: e in MergedRuns(els, kind) ==> !IsFragment(e, kind)
    decreases |els|
  {
    if els != [] {
      if IsFragment(els[0], kind) {
        MergedRunsLeaveNoFragment(els[RunLength(els, kind)..], kind);
      } else {
        MergedRunsLeaveNoFragment(els[1..], kind);
      }
    }
  }

  /** A list without fragments of `kind` is left as it is. */
  lemma {:induction false} MergedRunsNoop(els: seq<Element>, kind: ElementType)
    requires forall e :: e in els ==> !IsFragment(e, kind)
    ensures MergedRuns(els, kind) == els
    decreases |els|
  {
    if els != [] {
      assert els[0] in els;
      MergedRunsNoop(els[1..], kind);
      assert els == [els[0]] + els[1..];
    }
  }

  /** Merging twice changes nothing more. */
  lemma MergedRunsIdempotent(els: seq<Element>, kind: ElementType)
    ensures MergedRuns(MergedRuns(els, kind), kind) == MergedRuns(els, kind)
  {
    MergedRunsLeaveNoFragment(els, kind);
    MergedRunsNoop(MergedRuns(els, kind), kind);
  }

  predicate IsWrapped(e: Element, kind: ElementType) {
    (kind == Bullets && e.BulletsEl?) || (kind != Bullets && e.ConclusionEl?)
  }

  /** A wrapped element expanded back into fragments; any other element kept. */
  function Unwrap(e: Element, kind: ElementType): seq<Element> {
    if IsWrapped(e, kind) then
      var texts := if e.BulletsEl? then e.items else e.lines;
      seq(|texts|, i requires 0 <= i < |texts| => TextOf(kind, texts[i]))
    else [e]
  }

  function Unmerge(els: seq<Element>, kind: ElementType): seq<Element> {
    if els == [] then [] else Unwrap(els[0], kind) + Unmerge(els[1..], kind)
  }

  lemma {:induction false} UnmergeAppend(a: seq<Element>, b: seq<Element>, kind: ElementType)
    ensures Unmerge(a + b, kind) == Unmerge(a, kind) + Unmerge(b, kind)
  {
    if a != [] {
      assert (a + b)[1..] == a[1..] + b;
      UnmergeAppend(a[1..], b, kind);
    } else {
      assert a + b == b;
    }
  }

  /**
   * When every fragment is a plain text element (as the classifier makes
   * them) and no wrapped element was there before, expanding the merged
   * elements gives back the input: the items are the fragment texts in
   * order and the other elements keep their order.
   */
  lemma {:induction false} MergedRunsUnmerge(els: seq<Element>, kind: ElementType)
    requires kind == Bullets || kind == Conclusion
    requires PlainFragments(els, kind)
    ensures Unmerge(MergedRuns(els, kind), kind) == els
    decreases |els|
  {
    if els != [] {
      var n := if IsFragment(els[0], kind) then RunLength(els, kind) else 1;
      var head := if IsFragment(els[0], kind) then Wrap(kind, Texts(els[..n])) else els[0];
      MergedRunsHead(els, kind, n, head);
      PlainFragmentsSuffix(els, kind, n);
      MergedRunsUnmerge(els[n..], kind);
      UnmergeHead(els, kind, n, head);
      UnmergeJoin(head, MergedRuns(els[n..], kind), els, n, kind);
    }
  }

  /** The merge emits `head` for the first `n` elements and goes on after them. */
  lemma MergedRunsHead(els: seq<Element>, kind: ElementType, n: nat, head: Element)
    requires els != []
    requires n == (if IsFragment(els[0], kind) then RunLength(els, kind) else 1)
    requires head == (if IsFragment(els[0], kind) then Wrap(kind, Texts(els[..n])) else els[0])
    ensures n <= |els| && MergedRuns(els, kind) == [head] + MergedRuns(els[n..], kind)
  {
  }

  lemma UnmergeJoin(head: Element, tail: seq<Element>, els: seq<Element>, n: nat, kind: ElementType)
    requires n <= |els|
    requires Unmerge([head], kind) == els[..n] && Unmerge(tail, kind) == els[n..]
    ensures Unmerge([head] + tail, kind) == els
  {
    UnmergeAppend([head], tail, kind);
    assert els[..n] + els[n..] == els;
  }

  /**
   * Every fragment is a plain text element of `kind` (as the classifier
   * makes them) and no element is already a wrapped run.
   */
  predicate PlainFragments(els: seq<Element>, kind: ElementType) {
    forall i :: 0 <= i < |els| ==>
      !IsWrapped(els[i], kind) && (IsFragment(els[i], kind) ==> els[i] == TextOf(kind, els[i].text))
  }

  lemma PlainFragmentsSuffix(els: seq<Element>, kind: ElementType, n: nat)
    requires PlainFragments(els, kind) && n <= |els|
    ensures PlainFragments(els[n..], kind)
  {
    assert forall i :: 0 <= i < |els| - n ==> els[n..][i] == els[n + i];
  }

  lemma UnmergeHead(els: seq<Element>, kind: ElementType, n: nat, head: Element)
    requires kind == Bullets || kind == Conclusion
    requires els != []
    requires PlainFragments(els, kind)
    requires n == (if IsFragment(els[0], kind) then RunLength(els, kind) else 1)
    requires head == (if IsFragment(els[0], kind) then Wrap(kind, Texts(els[..n])) else els[0])
    ensures n <= |els| && Unmerge([head], kind) == els[..n]
  {
    assert Unmerge([head], kind) == Unwrap(head, kind) + Unmerge([], kind);
    if IsFragment(els[0], kind) {
      RunLengthFragments(els, kind);
      forall k | 0 <= k < n ensures Unwrap(head, kind)[k] == els[k] {
      }
    } else {
      assert els[..1] == [els[0]];
    }
  }

  // ---------------------------------------------------------------------
  // pass 3: captions

  predicate IsImageLike(e: Element) {
    e.ImageEl? || IsFragment(e, ImagePlaceholder)
  }

  /** The caption of an image, or the text of a placeholder, set to `text`. */
  function WithCaption(e: Element, text: string): Element
    requires IsImageLike(e)
  {
    if e.ImageEl? then ImageEl(e.filename, e.localPath, e.widthEmu, e.heightEmu, text)
    else TextEl(e.kind, text, e.num, e.sub, e.phase, e.indent, e.bold, e.italic)
  }

  /** Each image or placeholder directly followed by a caption fragment takes its text; the fragment goes. */
  function Absorbed(els: seq<Element>): seq<Element>
    decreases |els|
  {
    if els == [] then []
    else if |els| >= 2 && IsImageLike(els[0]) && IsFragment(els[1], Caption) then
      [WithCaption(els[0], els[1].text)] + Absorbed(els[2..])
    else [els[0]] + Absorbed(els[1..])
  }

  /** `absorb_captions`. */
  method AbsorbCaptions(elements: seq<Element>) returns (result: seq<Element>)
    ensures result == Absorbed(elements)
  {
    result := [];
    var i := 0;
    while i < |elements|
      invariant 0 <= i <= |elements|
      invariant result + Absorbed(elements[i..]) == Absorbed(elements)
    {
      var el := elements[i];
      var isImg := el.ImageEl? || (el.TextEl? && el.kind == ImagePlaceholder);
      if isImg && i + 1 < |elements| && elements[i + 1].TextEl? && elements[i + 1].kind == Caption {
        AbsorbPairStep(elements[i..], result, Absorbed(elements));
        assert elements[i..][2..] == elements[i + 2..];
        result := result + [WithCaption(el, elements[i + 1].text)];
        i := i + 2;
      } else {
        AbsorbKeepStep(elements[i..], result, Absorbed(elements));
        assert elements[i..][1..] == elements[i + 1..];
        result := result + [el];
        i := i + 1;
      }
    }
  }

  /** An image and the caption after it become one element. */
  lemma AbsorbPairStep(ls: seq<Element>, result: seq<Element>, target: seq<Element>)
    requires |ls| >= 2 && IsImageLike(ls[0]) && IsFragment(ls[1], Caption)
    requires result + Absorbed(ls) == target
    ensures result + [WithCaption(ls[0], ls[1].text)] + Absorbed(ls[2..]) == target
  {
    var w := WithCaption(ls[0], ls[1].text);
    var rest := Absorbed(ls[2..]);
    assert Absorbed(ls) == [w] + rest;
  }

  /** Any other element at the front is kept as it is. */
  lemma AbsorbKeepStep(ls: seq<Element>, result: seq<Element>, target: seq<Element>)
    requires ls != [] && !(|ls| >= 2 && IsImageLike(ls[0]) && IsFragment(ls[1], Caption))
    requires result + Absorbed(ls) == target
    ensures result + [ls[0]] + Absorbed(ls[1..]) == target
  {
    AbsorbedKeepsHead(ls);
    ConcatAssoc(result, [ls[0]], Absorbed(ls[1..]));
  }

  lemma ConcatAssoc<T>(a: seq<T>, b: seq<T>, c: seq<T>)
    ensures a + b + c == a + (b + c)
  {
  }

  lemma AbsorbedKeepsHead(ls: seq<Element>)
    requires ls != [] && !(|ls| >= 2 && IsImageLike(ls[0]) && IsFragment(ls[1], Caption))
    ensures Absorbed(ls) == [ls[0]] + Absorbed(ls[1..])
  {
  }

  /** The caption of an image-like element cleared; other elements as they are. */
  function Uncaptioned(e: Element): Element {
    if IsImageLike(e) then WithCaption(e, "") else e
  }

  /** The elements other than caption fragments, with their captions cleared. */
  function Skeleton(els: seq<Element>): seq<Element> {
    if els == [] then []
    else (if IsFragment(els[0], Caption) then [] else [Uncaptioned(els[0])]) + Skeleton(els[1..])
  }

  /**
   * Absorption only removes caption fragments and changes captions: with
   * those ignored, the elements are the same and in the same order.
   */
  lemma {:induction false} AbsorbedKeepsSkeleton(els: seq<Element>)
    ensures Skeleton(Absorbed(els)) == Skeleton(els)
    decreases |els|
  {
    if els != [] {
      if |els| >= 2 && IsImageLike(els[0]) && IsFragment(els[1], Caption) {
        AbsorbedKeepsSkeleton(els[2..]);
        var w := WithCaption(els[0], els[1].text);
        assert ([w] + Absorbed(els[2..]))[1..] == Absorbed(els[2..]);
        assert Skeleton(els[1..]) == Skeleton(els[2..]);
        assert Uncaptioned(w) == Uncaptioned(els[0]);
      } else {
        AbsorbedKeepsSkeleton(els[1..]);
        assert ([els[0]] + Absorbed(els[1..]))[1..] == Absorbed(els[1..]);
      }
    }
  }

  /** Each absorption removes one element: the length drops by the number of absorbed captions. */
  function AbsorbedCount(els: seq<Element>): nat
    decreases |els|
  {
    if els == [] then 0
    else if |els| >= 2 && IsImageLike(els[0]) && IsFragment(els[1], Caption) then 1 + AbsorbedCount(els[2..])
    else AbsorbedCount(els[1..])
  }

  lemma {:induction false} AbsorbedLength(els: seq<Element>)
    ensures |Absorbed(els)| + AbsorbedCount(els) == |els|
    decreases |els|
  {
    if els != [] {
      if |els| >= 2 && IsImageLike(els[0]) && IsFragment(els[1], Caption) {
        AbsorbedLength(els[2..]);
      } else {
        AbsorbedLength(els[1..]);
      }
    }
  }

  /**
   * One pass absorbs one caption per image: an image followed by two
   * captions keeps the second, which a second pass then absorbs, so the
   * pass is not idempotent.
   */
  lemma AbsorbCaptionsOnePerImage()
    ensures var img := ImageEl("a.png", "/s/a.png", 0, 0, "");
      var els := [img, TextOf(Caption, "one"), TextOf(Caption, "two")];
      Absorbed(els) == [img.(caption := "one"), TextOf(Caption, "two")] &&
      Absorbed(Absorbed(els)) == [img.(caption := "two")] &&
      Absorbed(Absorbed(els)) != Absorbed(els)
  {
    var img := ImageEl("a.png", "/s/a.png", 0, 0, "");
    var els := [img, TextOf(Caption, "one"), TextOf(Caption, "two")];
    assert els[2..] == [TextOf(Caption, "two")];
    assert Absorbed([TextOf(Caption, "two")]) == [TextOf(Caption, "two")];
    var once := [img.(caption := "one"), TextOf(Caption, "two")];
    assert Absorbed(els) == once;
    assert once[2..] == [];
  }

  // ---------------------------------------------------------------------
  // pass 4: prompt labels

  /** The result list after taking one more element. */
  function LabelStep(result: seq<Element>, el: Element): seq<Element> {
    if el.PromptEl? && el.promptLabel == [] && result != [] &&
       IsFragment(result[|result| - 1], Body) && LabelLine(result[|result| - 1].text).Some?
    then result[..|result| - 1] + [el.(promptLabel := LabelLine(result[|result| - 1].text).value)]
    else result + [el]
  }

  function LabelsAbsorbed(els: seq<Element>): seq<Element> {
    if els == [] then [] else LabelStep(LabelsAbsorbed(els[..|els| - 1]), els[|els| - 1])
  }

  /**
   * `absorb_prompt_labels` is not idempotent either: a label line whose
   * label strips to nothing is removed, yet the prompt stays unlabelled, so
   * a second pass finds the body line before it and takes its label. This
   * is a fact about the pass on arbitrary lists: `_clean_text` strips every
   * body text, so a text such as "  :", whose label strips to nothing,
   * cannot come out of `parse`.
   */
  lemma LabelsAbsorbedNotIdempotent(a: Element, blank: Element, pr: Element)
    requires a == TextOf(Body, "A:") && blank == TextOf(Body, "  :") && pr == PromptEl("", "t")
    ensures LabelsAbsorbed([a, blank, pr]) == [a, pr]
    ensures LabelsAbsorbed(LabelsAbsorbed([a, blank, pr])) == [PromptEl("A", "t")]
  {
    BlankLabelStep(a, blank, pr);
    LabelledStep(a, pr);
    LabelsAbsorbedSnoc([], a);
    assert [] + [a] == [a];
    LabelsAbsorbedSnoc([a], blank);
    assert [a] + [blank] == [a, blank];
    LabelsAbsorbedSnoc([a, blank], pr);
    assert [a, blank] + [pr] == [a, blank, pr];
    LabelsAbsorbedSnoc([a], pr);
    assert [a] + [pr] == [a, pr];
  }

  lemma LabelsAbsorbedSnoc(els: seq<Element>, e: Element)
    ensures LabelsAbsorbed(els + [e]) == LabelStep(LabelsAbsorbed(els), e)
  {
    assert (els + [e])[..|els + [e]| - 1] == els;
  }

  /** The blank label line is dropped and the prompt keeps its empty label. */
  lemma BlankLabelStep(a: Element, blank: Element, pr: Element)
    requires a == TextOf(Body, "A:") && blank == TextOf(Body, "  :") && pr == PromptEl("", "t")
    ensures LabelStep([a], blank) == [a, blank]
    ensures LabelStep([a, blank], pr) == [a, pr]
  {
    BlankLabelLine();
    assert [a, blank][..1] == [a];
  }

  /** After `A:` the prompt takes the label `A`. */
  lemma LabelledStep(a: Element, pr: Element)
    requires a == TextOf(Body, "A:") && pr == PromptEl("", "t")
    ensures LabelStep([a], pr) == [PromptEl("A", "t")]
  {
    LabelLineOfLabel("A", "");
    assert "A" + ":" + "" == "A:";
    assert [a][..0] == [];
  }

  /** A colon after blanks is a label line with the empty label. */
  lemma BlankLabelLine()
    ensures LabelLine("  :") == Some("")
  {
    var text := "  :";
    assert IsColon(text[2]);
    assert LastColon(text) == 2;
    assert text[..2] == "  " && text[3..] == "";
    assert Strip("  ") == "" by {
      assert LStrip("  ") == LStrip(" ") == LStrip("");
    }
  }

  /** `absorb_prompt_labels`. */
  method AbsorbPromptLabels(elements: seq<Element>) returns (result: seq<Element>)
    ensures result == LabelsAbsorbed(elements)
  {
    result := [];
    var i := 0;
    while i < |elements|
      invariant 0 <= i <= |elements|
      invariant result == LabelsAbsorbed(elements[..i])
    {
      assert elements[..i + 1][..i] == elements[..i];
      var el := elements[i];
      if el.PromptEl? && el.promptLabel == [] && result != [] {
        var prev := result[|result| - 1];
        if prev.TextEl? && prev.kind == Body {
          var m := LabelLine(prev.text);
          if m.Some? {
            el := el.(promptLabel := m.value);
            result := result[..|result| - 1];
          }
        }
      }
      result := result + [el];
      i := i + 1;
    }
    assert elements[..i] == elements;
  }

  /** A prompt with its label cleared; any other element as it is. */
  function Unlabelled(e: Element): Element {
    if e.PromptEl? then e.(promptLabel := "") else e
  }

  /** The elements other than body fragments, with prompt labels cleared. */
  function PromptSkeleton(els: seq<Element>): seq<Element> {
    if els == [] then []
    else
      var last := els[|els| - 1];
      PromptSkeleton(els[..|els| - 1]) + (if IsFragment(last, Body) then [] else [Unlabelled(last)])
  }

  lemma PromptSkeletonSnoc(a: seq<Element>, e: Element)
    ensures PromptSkeleton(a + [e]) ==
      PromptSkeleton(a) + (if IsFragment(e, Body) then [] else [Unlabelled(e)])
  {
    assert (a + [e])[..|a + [e]| - 1] == a;
  }

  /**
   * Label absorption only removes body fragments and sets prompt labels:
   * with those ignored, the elements are the same and in the same order.
   */
  lemma {:induction false} LabelsAbsorbedKeepsSkeleton(els: seq<Element>)
    ensures PromptSkeleton(LabelsAbsorbed(els)) == PromptSkeleton(els)
    decreases |els|
  {
    if els != [] {
      var init := els[..|els| - 1];
      var e := els[|els| - 1];
      LabelsAbsorbedKeepsSkeleton(init);
      assert els == init + [e];
      PromptSkeletonSnoc(init, e);
      LabelStepKeepsSkeleton(LabelsAbsorbed(init), e);
    }
  }

  /** One label step adds the skeleton of the new element and nothing else. */
  lemma LabelStepKeepsSkeleton(r: seq<Element>, e: Element)
    ensures PromptSkeleton(LabelStep(r, e)) ==
      PromptSkeleton(r) + (if IsFragment(e, Body) then [] else [Unlabelled(e)])
  {
    if e.PromptEl? && e.promptLabel == [] && r != [] &&
       IsFragment(r[|r| - 1], Body) && LabelLine(r[|r| - 1].text).Some? {
      var e2 := e.(promptLabel := LabelLine(r[|r| - 1].text).value);
      assert r == r[..|r| - 1] + [r[|r| - 1]];
      PromptSkeletonSnoc(r[..|r| - 1], r[|r| - 1]);
      PromptSkeletonSnoc(r[..|r| - 1], e2);
      assert Unlabelled(e2) == Unlabelled(e);
    } else {
      PromptSkeletonSnoc(r, e);
    }
  }

  /** An unlabelled prompt after a `label:` body line takes the label and the line goes. */
  lemma PromptTakesLabel(before: seq<Element>, lbl: string, trailing: string, text: string)
    requires 1 <= |lbl| <= 30 && Strip(lbl) == lbl
    requires forall i :: 0 <= i < |lbl| ==> !IsColon(lbl[i]) && lbl[i] != '\n'
    requires AllSpace(trailing)
    ensures LabelStep(before + [TextOf(Body, lbl + ":" + trailing)], PromptEl("", text)) ==
      before + [PromptEl(lbl, text)]
  {
    LabelLineOfLabel(lbl, trailing);
    var r := before + [TextOf(Body, lbl + ":" + trailing)];
    assert r[..|r| - 1] == before;
  }
}
