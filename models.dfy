/**
 * The element model shared by the parsers, the post-processing passes and
 * the JSON serialiser: a tagged union of element records plus document
 * metadata.
 */
module Models {
  import opened Text

  /** The twenty element tags. `Caption` is internal to the `.docx` parser. */
  datatype ElementType =
    | ChapterTitle | H1 | H2 | H3 | Body | Quote | Insight | Tip | Warning | Qa
    | Prompt | Conclusion | Bullets | Image | ImagePlaceholder | Table2 | Table3
    | Hr | Empty | Caption

  /** The string value of each tag, as the layout engine receives it. */
  function TypeName(t: ElementType): string {
    match t
    case ChapterTitle => "chapter_title"
    case H1 => "h1"
    case H2 => "h2"
    case H3 => "h3"
    case Body => "body"
    case Quote => "quote"
    case Insight => "insight"
    case Tip => "tip"
    case Warning => "warning"
    case Qa => "qa"
    case Prompt => "prompt"
    case Conclusion => "conclusion"
    case Bullets => "bullets"
    case Image => "image"
    case ImagePlaceholder => "image_placeholder"
    case Table2 => "table2"
    case Table3 => "table3"
    case Hr => "hr"
    case Empty => "empty"
    case Caption => "caption"
  }

  const AllTypes: seq<ElementType> :=
    [ChapterTitle, H1, H2, H3, Body, Quote, Insight, Tip, Warning, Qa,
     Prompt, Conclusion, Bullets, Image, ImagePlaceholder, Table2, Table3,
     Hr, Empty, Caption]

  /**
   * `AllTypes` lists every tag once, so there are exactly twenty, and their
   * values are pairwise distinct.
   */
  lemma TagsAreTwentyAndDistinct()
    ensures |AllTypes| == 20
    ensures forall t: ElementType :: t in AllTypes
    ensures forall i, j :: 0 <= i < j < |AllTypes| ==> TypeName(AllTypes[i]) != TypeName(AllTypes[j])
  {
    forall t: ElementType ensures t in AllTypes {
      match t
      case ChapterTitle => case H1 => case H2 => case H3 => case Body =>
      case Quote => case Insight => case Tip => case Warning => case Qa =>
      case Prompt => case Conclusion => case Bullets => case Image =>
      case ImagePlaceholder => case Table2 => case Table3 => case Hr =>
      case Empty => case Caption =>
    }
  }

  /**
   * The element records. A text element carries its tag in `kind`; a table
   * carries `Table2` or `Table3`; every other record has one fixed tag.
   */
  datatype Element =
    | TextEl(kind: ElementType, text: string, num: string, sub: string, phase: string,
             indent: int, bold: bool, italic: bool)
    | QaEl(question: string, answers: seq<string>)
    | PromptEl(promptLabel: string, text: string)
    | ConclusionEl(lines: seq<string>)
    | BulletsEl(items: seq<string>)
    | ImageEl(filename: string, localPath: string, widthEmu: int, heightEmu: int, caption: string)
    | TableEl(kind: ElementType, col1: string, col2: string, headers: seq<string>, rows: seq<seq<string>>)
    | HrEl(size: int)
    | EmptyEl(height: int)

  /** The `type` field of an element. */
  function TypeOf(e: Element): ElementType {
    match e
    case TextEl(k, _, _, _, _, _, _, _) => k
    case QaEl(_, _) => Qa
    case PromptEl(_, _) => Prompt
    case ConclusionEl(_) => Conclusion
    case BulletsEl(_) => Bullets
    case ImageEl(_, _, _, _, _) => Image
    case TableEl(k, _, _, _, _) => k
    case HrEl(_) => Hr
    case EmptyEl(_) => Empty
  }

  /** `TextElement(type=kind, text=text)` with every other field at its default. */
  function TextOf(kind: ElementType, text: string): Element {
    TextEl(kind, text, "", "", "", 0, false, false)
  }

  /**
   * The record built for tag `t` when no field is given: a text element for
   * the text tags and the dedicated record for the others.
   */
  function DefaultOf(t: ElementType): (e: Element)
    ensures TypeOf(e) == t
    ensures IsBlank(e)
  {
    match t
    case Qa => QaEl("", [])
    case Prompt => PromptEl("", "")
    case Conclusion => ConclusionEl([])
    case Bullets => BulletsEl([])
    case Image => ImageEl("", "", 0, 0, "")
    case Table2 => TableEl(Table2, "", "", [], [])
    case Table3 => TableEl(Table3, "", "", [], [])
    case Hr => HrEl(4)
    case Empty => EmptyEl(120)
    case _ => TextOf(t, "")
  }

  /**
   * The field defaults: empty strings and lists, zero numbers and false
   * flags, except a rule's size 4 and a spacer's height 120.
   */
  predicate IsBlank(e: Element) {
    match e
    case TextEl(_, text, num, sub, phase, indent, bold, italic) =>
      text == "" && num == "" && sub == "" && phase == "" && indent == 0 && !bold && !italic
    case QaEl(q, a) => q == "" && a == []
    case PromptEl(l, t) => l == "" && t == ""
    case ConclusionEl(ls) => ls == []
    case BulletsEl(items) => items == []
    case ImageEl(f, p, w, h, c) => f == "" && p == "" && w == 0 && h == 0 && c == ""
    case TableEl(_, c1, c2, hs, rs) => c1 == "" && c2 == "" && hs == [] && rs == []
    case HrEl(size) => size == 4
    case EmptyEl(height) => height == 120
  }

  /** Document metadata; every field defaults to "". */
  datatype DocMeta = DocMeta(title: string, author: string, chapter: string, sub: string)

  const EmptyMeta := DocMeta("", "", "", "")

  /** The parser output: metadata, elements, staged images and their directory. */
  datatype ParsedDocument = ParsedDocument(
    meta: DocMeta,
    elements: seq<Element>,
    imageMap: map<string, string>,
    imageBaseDir: string)

  const EmptyDocument := ParsedDocument(EmptyMeta, [], map[], "")
}
