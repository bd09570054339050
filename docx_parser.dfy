/**
 * The `.docx` parsing orchestrator: the image relationship map, the
 * classification loop over body blocks in document order, the fixed order
 * of the four rewriting passes, and the metadata enrichment from the first
 * chapter title and the first H1.
 *
 * Opening the archive and staging its images happen before this model
 * starts: the core properties, the relationships, the body blocks and the
 * staged image map are parameters.
 */
module DocxParser {
  import opened Text
  import opened Models
  import opened StructureAnalyzer

  /** One relationship of the main document part. */
  datatype Relationship = Relationship(rId: string, relType: string, targetRef: string)

  /** A child of the document body: a paragraph or a table given by its cell texts. */
  datatype Block = Para(p: Paragraph) | Tbl(cells: seq<seq<string>>)

  // ---------------------------------------------------------------------
  // relationship map

  predicate IsImageRel(r: Relationship) {
    Contains(r.relType, "image")
  }

  /** The map with one more relationship recorded, if it is an image relationship. */
  function WithRel(m: map<string, string>, r: Relationship): map<string, string> {
    if IsImageRel(r) then m[r.rId := PathName(r.targetRef)] else m
  }

  /** rId → file name of the target, for image relationships; a later entry replaces an earlier one. */
  function RelMapOf(rels: seq<Relationship>): map<string, string> {
    if rels == [] then map[] else WithRel(RelMapOf(rels[..|rels| - 1]), rels[|rels| - 1])
  }

  /** `_build_rel_map`. */
  method BuildRelMap(rels: seq<Relationship>) returns (relMap: map<string, string>)
    ensures relMap == RelMapOf(rels)
  {
    relMap := map[];
    var i := 0;
    while i < |rels|
      invariant 0 <= i <= |rels|
      invariant relMap == RelMapOf(rels[..i])
    {
      assert rels[..i + 1][..i] == rels[..i];
      ghost var before := relMap;
      var r := rels[i];
      if IsImageRel(r) {
        relMap := relMap[r.rId := PathName(r.targetRef)];
      }
      assert relMap == WithRel(before, r);
      i := i + 1;
    }
    assert rels[..i] == rels;
  }

  /** The index of the last image relationship with id `k`, or -1 when there is none. */
  function LastImageRel(rels: seq<Relationship>, k: string): (i: int)
    ensures -1 <= i < |rels|
    ensures i >= 0 ==> IsImageRel(rels[i]) && rels[i].rId == k
    ensures forall j :: i < j < |rels| ==> !(IsImageRel(rels[j]) && rels[j].rId == k)
  {
    if rels == [] then -1
    else if IsImageRel(rels[|rels| - 1]) && rels[|rels| - 1].rId == k then |rels| - 1
    else
      var i := LastImageRel(rels[..|rels| - 1], k);
      assert forall j :: i < j < |rels| - 1 ==> rels[j] == rels[..|rels| - 1][j];
      i
  }

  /**
   * An id is mapped exactly when some image relationship has it, and it maps
   * to the target file name of the last such relationship.
   */
  lemma {:induction false} RelMapLookup(rels: seq<Relationship>, k: string)
    ensures var i := LastImageRel(rels, k);
      (k in RelMapOf(rels) <==> i >= 0) && (i >= 0 ==> RelMapOf(rels)[k] == PathName(rels[i].targetRef))
  {
    if rels != [] {
      var n := |rels| - 1;
      var front := rels[..n];
      RelMapLookup(front, k);
      var m := RelMapOf(front);
      assert RelMapOf(rels) == WithRel(m, rels[n]);
      if IsImageRel(rels[n]) && rels[n].rId == k {
        assert LastImageRel(rels, k) == n;
      } else {
        var i := LastImageRel(front, k);
        assert LastImageRel(rels, k) == i;
        assert k in RelMapOf(rels) <==> k in m;
        if i >= 0 {
          assert front[i] == rels[i];
          assert RelMapOf(rels)[k] == m[k];
        }
      }
    }
  }

  // ---------------------------------------------------------------------
  // the classification loop

  /** The element appended last, which is the `prev_element` of the loop. */
  function LastElement(raw: seq<Element>): (r: Option<Element>)
    ensures r.Some? <==> raw != []
  {
    if raw == [] then None else Some(raw[|raw| - 1])
  }

  /** The element list after one more body block. */
  function BlockStep(raw: seq<Element>, b: Block, imageMap: map<string, string>,
                     relMap: map<string, string>): seq<Element>
  {
    match b
    case Tbl(cells) => raw + [TableFrom(StrippedCells(cells))]
    case Para(p) =>
      match Classify(p, imageMap, relMap, LastElement(raw))
      case Emit(e) => raw + [e]
      case Skip => raw
      case AppendAnswer(a) =>
        var q := raw[|raw| - 1];
        raw[..|raw| - 1] + [QaEl(q.question, q.answers + [a])]
  }

  /** The element list after the blocks, starting from `raw`. */
  function Steps(raw: seq<Element>, blocks: seq<Block>, imageMap: map<string, string>,
                 relMap: map<string, string>): seq<Element>
    decreases |blocks|
  {
    if blocks == [] then raw
    else Steps(BlockStep(raw, blocks[0], imageMap, relMap), blocks[1..], imageMap, relMap)
  }

  /** The raw elements of a document, before the rewriting passes. */
  function RawElements(blocks: seq<Block>, imageMap: map<string, string>,
                       relMap: map<string, string>): seq<Element> {
    Steps([], blocks, imageMap, relMap)
  }

  /** A paragraph that classifies as a QA answer. */
  predicate IsAnswerPara(b: Block) {
    b.Para? && b.p.drawing.None? && CleanText(b.p.rawText) != [] && StyleKey(b.p) == "ds-qa-answer"
  }

  /** A paragraph without a drawing and without text. */
  predicate IsBlankPara(b: Block) {
    b.Para? && b.p.drawing.None? && CleanText(b.p.rawText) == []
  }

  /** The answer texts of the answer paragraphs among the blocks, in order. */
  function AnswersIn(blocks: seq<Block>): seq<string> {
    if blocks == [] then []
    else (if IsAnswerPara(blocks[0]) then [CleanText(blocks[0].p.rawText)] else []) + AnswersIn(blocks[1..])
  }

  /** An answer paragraph right after a QA element adds its text to that element. */
  lemma AnswerJoins(raw: seq<Element>, question: string, answers: seq<string>, b: Block,
                    imageMap: map<string, string>, relMap: map<string, string>)
    requires raw != [] && raw[|raw| - 1] == QaEl(question, answers)
    requires IsAnswerPara(b)
    ensures BlockStep(raw, b, imageMap, relMap) ==
      raw[..|raw| - 1] + [QaEl(question, answers + [CleanText(b.p.rawText)])]
  {
    assert LastElement(raw) == Some(QaEl(question, answers));
  }

  /** An answer paragraph after anything but a QA element opens a new QA element without a question. */
  lemma AnswerOpens(raw: seq<Element>, b: Block, imageMap: map<string, string>, relMap: map<string, string>)
    requires raw == [] || !raw[|raw| - 1].QaEl?
    requires IsAnswerPara(b)
    ensures BlockStep(raw, b, imageMap, relMap) == raw + [QaEl("", [CleanText(b.p.rawText)])]
  {
    assert DsStyle(StyleKey(b.p)).Some?;
  }

  /** A blank paragraph adds nothing and leaves the previous element as it is. */
  lemma BlankSkips(raw: seq<Element>, b: Block, imageMap: map<string, string>, relMap: map<string, string>)
    requires IsBlankPara(b)
    ensures BlockStep(raw, b, imageMap, relMap) == raw
  {
  }

  /** Every block is an answer paragraph or a blank paragraph. */
  predicate AnswersOrBlanks(blocks: seq<Block>) {
    forall i :: 0 <= i < |blocks| ==> IsAnswerPara(blocks[i]) || IsBlankPara(blocks[i])
  }

  lemma AnswersOrBlanksTail(blocks: seq<Block>)
    requires blocks != [] && AnswersOrBlanks(blocks)
    ensures IsAnswerPara(blocks[0]) || IsBlankPara(blocks[0])
    ensures AnswersOrBlanks(blocks[1..])
  {
    assert forall i :: 0 <= i < |blocks| - 1 ==> blocks[1..][i] == blocks[i + 1];
  }

  /**
   * Answer paragraphs after a QA element, with blank paragraphs between
   * them, all land in that same QA element, in order, and nothing is
   * appended.
   */
  lemma {:induction false} AnswersMerge(raw: seq<Element>, question: string, answers: seq<string>,
                                        blocks: seq<Block>, imageMap: map<string, string>,
                                        relMap: map<string, string>)
    requires raw != [] && raw[|raw| - 1] == QaEl(question, answers)
    requires AnswersOrBlanks(blocks)
    ensures Steps(raw, blocks, imageMap, relMap) ==
      raw[..|raw| - 1] + [QaEl(question, answers + AnswersIn(blocks))]
    decreases |blocks|
  {
    if blocks == [] {
      assert answers + [] == answers;
      assert raw == raw[..|raw| - 1] + [raw[|raw| - 1]];
    } else {
      var b := blocks[0];
      var rest := blocks[1..];
      AnswersOrBlanksTail(blocks);
      if IsAnswerPara(b) {
        var a := CleanText(b.p.rawText);
        var next := raw[..|raw| - 1] + [QaEl(question, answers + [a])];
        AnswersMerge(next, question, answers + [a], rest, imageMap, relMap);
        var target := next[..|next| - 1] + [QaEl(question, answers + [a] + AnswersIn(rest))];
        AnswerJoinsSteps(raw, question, answers, blocks, imageMap, relMap, target);
        assert next[..|next| - 1] == raw[..|raw| - 1];
        assert AnswersIn(blocks) == [a] + AnswersIn(rest);
        assert answers + [a] + AnswersIn(rest) == answers + AnswersIn(blocks);
      } else {
        AnswersMerge(raw, question, answers, rest, imageMap, relMap);
        BlankSkipsSteps(raw, blocks, imageMap, relMap, Steps(raw, rest, imageMap, relMap));
        assert AnswersIn(blocks) == AnswersIn(rest);
      }
    }
  }

  lemma AnswerJoinsSteps(raw: seq<Element>, question: string, answers: seq<string>, blocks: seq<Block>,
                         imageMap: map<string, string>, relMap: map<string, string>, target: seq<Element>)
    requires raw != [] && raw[|raw| - 1] == QaEl(question, answers)
    requires blocks != [] && IsAnswerPara(blocks[0])
    requires Steps(raw[..|raw| - 1] + [QaEl(question, answers + [CleanText(blocks[0].p.rawText)])],
                   blocks[1..], imageMap, relMap) == target
    ensures Steps(raw, blocks, imageMap, relMap) == target
  {
    AnswerJoins(raw, question, answers, blocks[0], imageMap, relMap);
  }

  lemma BlankSkipsSteps(raw: seq<Element>, blocks: seq<Block>, imageMap: map<string, string>,
                        relMap: map<string, string>, target: seq<Element>)
    requires blocks != [] && IsBlankPara(blocks[0])
    requires Steps(raw, blocks[1..], imageMap, relMap) == target
    ensures Steps(raw, blocks, imageMap, relMap) == target
  {
    BlankSkips(raw, blocks[0], imageMap, relMap);
  }

  /** A table is appended and becomes the previous element, so an answer right after it opens a new QA. */
  lemma AnswerAfterTable(raw: seq<Element>, cells: seq<seq<string>>, b: Block,
                         imageMap: map<string, string>, relMap: map<string, string>)
    requires IsAnswerPara(b)
    ensures Steps(raw, [Tbl(cells), b], imageMap, relMap) ==
      raw + [TableFrom(StrippedCells(cells)), QaEl("", [CleanText(b.p.rawText)])]
  {
    var t := TableFrom(StrippedCells(cells));
    var next := raw + [t];
    assert BlockStep(raw, Tbl(cells), imageMap, relMap) == next;
    AnswerOpens(next, b, imageMap, relMap);
    var last := next + [QaEl("", [CleanText(b.p.rawText)])];
    assert [Tbl(cells), b][1..] == [b];
    assert Steps(next, [b], imageMap, relMap) == Steps(last, [], imageMap, relMap);
  }

  /** One block changes at most the last element and appends at most one. */
  lemma BlockStepKeepsFront(raw: seq<Element>, b: Block, imageMap: map<string, string>,
                            relMap: map<string, string>)
    requires raw != []
    ensures var next := BlockStep(raw, b, imageMap, relMap);
      next != [] && raw[..|raw| - 1] <= next[..|next| - 1] && |next| <= |raw| + 1
  {
    var next := BlockStep(raw, b, imageMap, relMap);
    if |next| == |raw| + 1 {
      assert next[..|next| - 1] == raw;
    }
  }

  /**
   * Every element but the last is final once the next element is appended:
   * the loop only ever changes the element it appended last, and it appends
   * at most one element per block.
   */
  lemma {:induction false} StepsKeepFront(raw: seq<Element>, blocks: seq<Block>,
                                          imageMap: map<string, string>, relMap: map<string, string>)
    requires raw != []
    ensures var r := Steps(raw, blocks, imageMap, relMap);
      r != [] && raw[..|raw| - 1] <= r && |r| <= |raw| + |blocks|
    decreases |blocks|
  {
    if blocks != [] {
      var next := BlockStep(raw, blocks[0], imageMap, relMap);
      BlockStepKeepsFront(raw, blocks[0], imageMap, relMap);
      StepsKeepFront(next, blocks[1..], imageMap, relMap);
    }
  }

  /** The raw list never has more elements than the document has blocks. */
  lemma RawElementsBound(blocks: seq<Block>, imageMap: map<string, string>, relMap: map<string, string>)
    ensures |RawElements(blocks, imageMap, relMap)| <= |blocks|
  {
    if blocks != [] {
      var next := BlockStep([], blocks[0], imageMap, relMap);
      assert |next| <= 1;
      if next != [] {
        StepsKeepFront(next, blocks[1..], imageMap, relMap);
      } else {
        StepsEmptyBound(blocks[1..], imageMap, relMap);
      }
    }
  }

  lemma {:induction false} StepsEmptyBound(blocks: seq<Block>, imageMap: map<string, string>, relMap: map<string, string>)
    ensures |Steps([], blocks, imageMap, relMap)| <= |blocks|
    decreases |blocks|
  {
    if blocks != [] {
      var next := BlockStep([], blocks[0], imageMap, relMap);
      if next != [] {
        StepsKeepFront(next, blocks[1..], imageMap, relMap);
      } else {
        StepsEmptyBound(blocks[1..], imageMap, relMap);
      }
    }
  }

  // ---------------------------------------------------------------------
  // post-processing

  /** The four passes, always in this order: bullets, conclusions, captions, prompt labels. */
  function PostProcessed(raw: seq<Element>): seq<Element> {
    LabelsAbsorbed(Absorbed(MergedRuns(MergedRuns(raw, Bullets), Conclusion)))
  }

  // ---------------------------------------------------------------------
  // metadata enrichment

  predicate IsText(e: Element, kind: ElementType) {
    e.TextEl? && e.kind == kind
  }

  /** The index of the first text element of the kind, or the length when there is none. */
  function FirstOfKind(els: seq<Element>, kind: ElementType): (i: nat)
    ensures i <= |els|
    ensures i < |els| ==> IsText(els[i], kind)
    ensures forall j :: 0 <= j < i ==> !IsText(els[j], kind)
    decreases |els|
  {
    if els == [] then 0
    else if IsText(els[0], kind) then 0
    else
      var k := 1 + FirstOfKind(els[1..], kind);
      assert forall j :: 1 <= j < k ==> els[j] == els[1..][j - 1];
      k
  }

  function WithSub(e: Element, sub: string): Element
    requires e.TextEl?
  {
    TextEl(e.kind, e.text, e.num, sub, e.phase, e.indent, e.bold, e.italic)
  }

  /**
   * The first chapter title fills an empty title with its first part and
   * an empty chapter with its second, and gives its third part to the
   * element's `sub`.
   */
  function TitleFilled(meta: DocMeta, els: seq<Element>): (DocMeta, seq<Element>) {
    var t := FirstOfKind(els, ChapterTitle);
    if t == |els| then (meta, els)
    else
      var parts := BarFields(els[t].text);
      var title := if meta.title == "" then parts[0] else meta.title;
      var chapter := if |parts| >= 2 && meta.chapter == "" then parts[1] else meta.chapter;
      var es := if |parts| >= 3 then els[t := WithSub(els[t], parts[2])] else els;
      (DocMeta(title, meta.author, chapter, meta.sub), es)
  }

  /** `_enrich_meta_from_elements`: the chapter title first, then the first H1 for a chapter still empty. */
  function Enriched(meta: DocMeta, els: seq<Element>): (DocMeta, seq<Element>) {
    var (m, es) := TitleFilled(meta, els);
    var h := FirstOfKind(es, H1);
    if m.chapter == "" && h < |es| then (DocMeta(m.title, m.author, es[h].text, m.sub), es)
    else (m, es)
  }

  /** `_enrich_meta_from_elements`, returning the updated metadata and elements. */
  method EnrichMeta(meta: DocMeta, elements: seq<Element>) returns (m: DocMeta, els: seq<Element>)
    ensures (m, els) == Enriched(meta, elements)
  {
    m, els := meta, elements;
    var i := 0;
    while i < |els|
      invariant 0 <= i <= |els| && els == elements && m == meta
      invariant forall j :: 0 <= j < i ==> !IsText(els[j], ChapterTitle)
      decreases |els| - i
    {
      if IsText(els[i], ChapterTitle) {
        var parts := BarFields(els[i].text);
        if m.title == "" {
          m := DocMeta(parts[0], m.author, m.chapter, m.sub);
        }
        if |parts| >= 2 && m.chapter == "" {
          m := DocMeta(m.title, m.author, parts[1], m.sub);
        }
        if |parts| >= 3 {
          els := els[i := WithSub(els[i], parts[2])];
        }
        break;
      }
      i := i + 1;
    }
    FirstOfKindUnique(elements, ChapterTitle, i);
    assert (m, els) == TitleFilled(meta, elements);
    if m.chapter == "" {
      var k := 0;
      while k < |els|
        invariant 0 <= k <= |els|
        invariant forall j :: 0 <= j < k ==> !IsText(els[j], H1)
      {
        if IsText(els[k], H1) {
          m := DocMeta(m.title, m.author, els[k].text, m.sub);
          break;
        }
        k := k + 1;
      }
      FirstOfKindUnique(els, H1, k);
    }
  }

  /** The first index with the kind, or the length when no index has it, is `FirstOfKind`. */
  lemma FirstOfKindUnique(els: seq<Element>, kind: ElementType, i: int)
    requires 0 <= i <= |els|
    requires i < |els| ==> IsText(els[i], kind)
    requires forall j :: 0 <= j < i ==> !IsText(els[j], kind)
    ensures FirstOfKind(els, kind) == i
  {
  }

  /**
   * Enrichment never overwrites a non-empty title or chapter, never touches
   * the author or the subtitle, keeps every element's kind and text, and
   * changes no element but the first chapter title.
   */
  lemma EnrichedKeeps(meta: DocMeta, els: seq<Element>)
    ensures var (m, es) := Enriched(meta, els);
      (meta.title != "" ==> m.title == meta.title) &&
      (meta.chapter != "" ==> m.chapter == meta.chapter) &&
      m.author == meta.author && m.sub == meta.sub &&
      |es| == |els| &&
      (forall i :: 0 <= i < |els| && i != FirstOfKind(els, ChapterTitle) ==> es[i] == els[i]) &&
      (forall i :: 0 <= i < |els| ==> TypeOf(es[i]) == TypeOf(els[i]) && es[i].TextEl? == els[i].TextEl?) &&
      (forall i :: 0 <= i < |els| && els[i].TextEl? ==> es[i].kind == els[i].kind && es[i].text == els[i].text)
  {
    TitleFilledKeeps(meta, els);
    var (m1, es1) := TitleFilled(meta, els);
    assert Enriched(meta, els).1 == es1;
  }

  /** The chapter-title stage alone keeps what `EnrichedKeeps` states. */
  lemma TitleFilledKeeps(meta: DocMeta, els: seq<Element>)
    ensures var (m, es) := TitleFilled(meta, els);
      (meta.title != "" ==> m.title == meta.title) &&
      (meta.chapter != "" ==> m.chapter == meta.chapter) &&
      m.author == meta.author && m.sub == meta.sub &&
      |es| == |els| &&
      (forall i :: 0 <= i < |els| && i != FirstOfKind(els, ChapterTitle) ==> es[i] == els[i]) &&
      (forall i :: 0 <= i < |els| ==> TypeOf(es[i]) == TypeOf(els[i]) && es[i].TextEl? == els[i].TextEl?) &&
      (forall i :: 0 <= i < |els| && els[i].TextEl? ==> es[i].kind == els[i].kind && es[i].text == els[i].text)
  {
  }

  /**
   * With a chapter title present, an empty title becomes its first trimmed
   * part, and its third part, if any, becomes that element's `sub`.
   */
  lemma EnrichedTitle(meta: DocMeta, els: seq<Element>)
    requires FirstOfKind(els, ChapterTitle) < |els|
    ensures var t := FirstOfKind(els, ChapterTitle);
      var parts := BarFields(els[t].text);
      var (m, es) := Enriched(meta, els);
      (meta.title == "" ==> m.title == parts[0]) &&
      (|parts| >= 3 ==> es[t].sub == parts[2]) &&
      (|parts| < 3 ==> es[t] == els[t])
  {
  }

  /**
   * An empty chapter takes the chapter title's second part when that part
   * is non-empty; failing that, the text of the first H1; failing that, it
   * stays empty.
   */
  lemma EnrichedChapter(meta: DocMeta, els: seq<Element>)
    requires meta.chapter == ""
    ensures var t := FirstOfKind(els, ChapterTitle);
      var fromTitle := if t < |els| && |BarFields(els[t].text)| >= 2 then BarFields(els[t].text)[1] else "";
      var h := FirstOfKind(els, H1);
      var m := Enriched(meta, els).0;
      m.chapter == (if fromTitle != "" then fromTitle else if h < |els| then els[h].text else "")
  {
    var (m1, es) := TitleFilled(meta, els);
    TitleFilledKeepsH1(meta, els);
    assert Enriched(meta, els).0.chapter == if m1.chapter == "" && FirstOfKind(es, H1) < |es| then es[FirstOfKind(es, H1)].text else m1.chapter;
  }

  /** The chapter-title stage leaves the first H1 where it was, and as it was. */
  lemma TitleFilledKeepsH1(meta: DocMeta, els: seq<Element>)
    ensures var es := TitleFilled(meta, els).1;
      var h := FirstOfKind(els, H1);
      |es| == |els| && FirstOfKind(es, H1) == h && (h < |els| ==> es[h] == els[h])
  {
    var es := TitleFilled(meta, els).1;
    var t := FirstOfKind(els, ChapterTitle);
    TitleFilledKeeps(meta, els);
    if t < |els| && |BarFields(els[t].text)| >= 3 {
      FirstOfKindUnique(es, H1, FirstOfKind(els, H1));
    }
  }

  // ---------------------------------------------------------------------
  // the orchestrator

  /** What `parse` returns for the given document contents. */
  function Parsed(blocks: seq<Block>, coreTitle: string, coreAuthor: string, rels: seq<Relationship>,
                  imageMap: map<string, string>, imageBaseDir: string, chapterOverride: string): ParsedDocument
  {
    var elements := PostProcessed(RawElements(blocks, imageMap, RelMapOf(rels)));
    var meta := DocMeta(coreTitle, coreAuthor, chapterOverride, "");
    var (m, es) := Enriched(meta, elements);
    ParsedDocument(m, es, imageMap, imageBaseDir)
  }

  /**
   * `parse`: the relationship map, the block loop (a paragraph that
   * classifies to nothing leaves the list and the previous element as they
   * are), the four passes, the chapter override, then enrichment. The staged
   * images come in as `imageMap` and `imageBaseDir`.
   */
  method Parse(blocks: seq<Block>, coreTitle: string, coreAuthor: string, rels: seq<Relationship>,
               imageMap: map<string, string>, imageBaseDir: string, chapterOverride: string)
    returns (doc: ParsedDocument)
    ensures doc == Parsed(blocks, coreTitle, coreAuthor, rels, imageMap, imageBaseDir, chapterOverride)
  {
    var relMap := BuildRelMap(rels);
    var meta := DocMeta(coreTitle, coreAuthor, "", "");
    var raw: seq<Element> := [];
    var prev: Option<Element> := None;
    var i := 0;
    while i < |blocks|
      invariant 0 <= i <= |blocks|
      invariant prev == LastElement(raw)
      invariant Steps(raw, blocks[i..], imageMap, relMap) == RawElements(blocks, imageMap, relMap)
    {
      assert blocks[i..][0] == blocks[i] && blocks[i..][1..] == blocks[i + 1..];
      var b := blocks[i];
      if b.Para? {
        var outcome := Classify(b.p, imageMap, relMap, prev);
        if outcome.Emit? {
          raw := raw + [outcome.element];
          prev := Some(outcome.element);
        } else if outcome.AppendAnswer? {
          var q := prev.value;
          var merged := QaEl(q.question, q.answers + [outcome.answer]);
          raw := raw[..|raw| - 1] + [merged];
          prev := Some(merged);
        }
      } else {
        var t := ClassifyTable(b.cells);
        raw := raw + [t];
        prev := Some(t);
      }
      i := i + 1;
    }
    var result := MergeRuns(raw, Bullets);
    result := MergeRuns(result, Conclusion);
    result := AbsorbCaptions(result);
    result := AbsorbPromptLabels(result);
    if chapterOverride != "" {
      meta := DocMeta(meta.title, meta.author, chapterOverride, meta.sub);
    }
    var es;
    meta, es := EnrichMeta(meta, result);
    doc := ParsedDocument(meta, es, imageMap, imageBaseDir);
  }

  /** A chapter override is applied before enrichment, which fills only an empty chapter, so it always survives. */
  lemma OverrideWins(blocks: seq<Block>, coreTitle: string, coreAuthor: string, rels: seq<Relationship>,
                     imageMap: map<string, string>, imageBaseDir: string, chapterOverride: string)
    requires chapterOverride != ""
    ensures Parsed(blocks, coreTitle, coreAuthor, rels, imageMap, imageBaseDir, chapterOverride).meta.chapter
      == chapterOverride
  {
    var elements := PostProcessed(RawElements(blocks, imageMap, RelMapOf(rels)));
    EnrichedKeeps(DocMeta(coreTitle, coreAuthor, chapterOverride, ""), elements);
  }

  /** A non-empty core title is kept, the author is the core author, and the staged images pass through. */
  lemma ParsedKeepsCore(blocks: seq<Block>, coreTitle: string, coreAuthor: string, rels: seq<Relationship>,
                        imageMap: map<string, string>, imageBaseDir: string, chapterOverride: string)
    ensures var doc := Parsed(blocks, coreTitle, coreAuthor, rels, imageMap, imageBaseDir, chapterOverride);
      (coreTitle != "" ==> doc.meta.title == coreTitle) && doc.meta.author == coreAuthor &&
      doc.meta.sub == "" && doc.imageMap == imageMap && doc.imageBaseDir == imageBaseDir
  {
    var elements := PostProcessed(RawElements(blocks, imageMap, RelMapOf(rels)));
    EnrichedKeeps(DocMeta(coreTitle, coreAuthor, chapterOverride, ""), elements);
  }
}
