/**
 * The serialiser that turns a parsed document into the payload the layout
 * engine reads: one JSON record per element, keyed by a `type` tag, plus
 * the template id, the user settings, three metadata fields and the image
 * directory.
 *
 * JSON values are modelled as a datatype; an object is its list of fields
 * in insertion order, which is the order `json.dumps` writes them in.
 */
module JsonBuilder {
  import opened Text
  import opened Models
  import Files

  datatype Json =
    | JStr(str: string)
    | JInt(num: int)
    | JArr(items: seq<Json>)
    | JObj(fields: seq<(string, Json)>)

  /** The value of the first field named `key`. */
  function Lookup(fields: seq<(string, Json)>, key: string): (r: Option<Json>)
    ensures r.Some? <==> key in Keys(fields)
  {
    if fields == [] then None
    else
      assert Keys(fields) == [fields[0].0] + Keys(fields[1..]);
      if fields[0].0 == key then Some(fields[0].1) else Lookup(fields[1..], key)
  }

  function Keys(fields: seq<(string, Json)>): seq<string> {
    seq(|fields|, i requires 0 <= i < |fields| => fields[i].0)
  }

  /** The first field with the key decides the lookup. */
  lemma {:induction false} LookupAt(fields: seq<(string, Json)>, key: string, i: nat)
    requires i < |fields| && fields[i].0 == key
    requires forall j :: 0 <= j < i ==> fields[j].0 != key
    ensures Lookup(fields, key) == Some(fields[i].1)
  {
    if i > 0 {
      LookupAt(fields[1..], key, i - 1);
    }
  }

  /** A list of strings. */
  function StrList(xs: seq<string>): Json {
    JArr(seq(|xs|, i requires 0 <= i < |xs| => JStr(xs[i])))
  }

  /** A list of rows of strings. */
  function Grid(rows: seq<seq<string>>): Json {
    JArr(seq(|rows|, i requires 0 <= i < |rows| => StrList(rows[i])))
  }

  /** Reads a list of strings back, if the value is one. */
  function AsStrings(j: Json): Option<seq<string>> {
    if j.JArr? then StringsIn(j.items) else None
  }

  function StringsIn(items: seq<Json>): Option<seq<string>> {
    if items == [] then Some([])
    else
      var rest := StringsIn(items[1..]);
      if items[0].JStr? && rest.Some? then Some([items[0].str] + rest.value) else None
  }

  /** A list of strings reads back as itself. */
  lemma {:induction false} StrListRoundTrip(xs: seq<string>)
    ensures AsStrings(StrList(xs)) == Some(xs)
    decreases |xs|
  {
    if xs != [] {
      StrListRoundTrip(xs[1..]);
      assert StrList(xs).items[1..] == StrList(xs[1..]).items;
      assert StringsIn(StrList(xs).items) == Some([xs[0]] + xs[1..]);
      assert [xs[0]] + xs[1..] == xs;
    }
  }

  /** The record of a text element, chosen by its tag. */
  function SerializeText(e: Element): seq<(string, Json)>
    requires e.TextEl?
  {
    match e.kind
    case ChapterTitle =>
      [("type", JStr("chapter_title")), ("phase", JStr(e.phase)), ("text", JStr(e.text)), ("sub", JStr(e.sub))]
    case H1 => [("type", JStr("h1")), ("num", JStr(if e.num != "" then e.num else "•")), ("text", JStr(e.text))]
    case H2 => [("type", JStr("h2")), ("text", JStr(e.text))]
    case H3 => [("type", JStr("h3")), ("text", JStr(e.text))]
    case Body =>
      [("type", JStr("body")), ("text", JStr(e.text))] + (if e.indent != 0 then [("indent", JInt(e.indent))] else [])
    case Quote => [("type", JStr("quote")), ("text", JStr(e.text))]
    case Insight => [("type", JStr("insight")), ("text", JStr(e.text))]
    case Tip => [("type", JStr("tip")), ("text", JStr(e.text))]
    case Warning => [("type", JStr("warning")), ("text", JStr(e.text))]
    case Caption => [("type", JStr("body")), ("text", JStr(e.text))]
    case ImagePlaceholder => [("type", JStr("image_placeholder")), ("caption", JStr(e.text))]
    case _ => [("type", JStr("body")), ("text", JStr(e.text))]
  }

  /**
   * `_serialize_element`: the fields of an element's record, the `type`
   * tag first. Every element variant has a record, so the `None` result
   * of the source, reserved for objects of no element class, never arises.
   */
  function Serialize(e: Element): (r: seq<(string, Json)>)
    ensures r != [] && r[0].0 == "type" && r[0].1.JStr?
  {
    match e
    case TextEl(_, _, _, _, _, _, _, _) => SerializeText(e)
    case QaEl(q, answers) => [("type", JStr("qa")), ("question", JStr(q)), ("answers", StrList(answers))]
    case PromptEl(lbl, text) => [("type", JStr("prompt")), ("label", JStr(lbl)), ("text", JStr(text))]
    case ConclusionEl(lines) => [("type", JStr("conclusion")), ("lines", StrList(lines))]
    case BulletsEl(items) => [("type", JStr("bullets")), ("items", StrList(items))]
    case ImageEl(filename, _, w, h, caption) =>
      [("type", JStr("image")), ("filename", JStr(filename)), ("width_emu", JInt(w)),
       ("height_emu", JInt(h)), ("caption", JStr(caption))]
    case TableEl(kind, col1, col2, headers, rows) =>
      if kind == Table2 then
        [("type", JStr("table2")), ("col1", JStr(col1)), ("col2", JStr(col2)), ("rows", Grid(rows))]
      else [("type", JStr("table3")), ("headers", StrList(headers)), ("rows", Grid(rows))]
    case HrEl(size) => [("type", JStr("hr")), ("size", JInt(size))]
    case EmptyEl(height) => [("type", JStr("empty")), ("height", JInt(height))]
  }

  /** A text element whose tag has no record of its own. */
  predicate TextFallback(e: Element) {
    e.TextEl? &&
    e.kind in {Qa, Prompt, Conclusion, Bullets, Image, Table2, Table3, Hr, Empty, Caption}
  }

  /** A table element whose tag is neither table tag. */
  predicate TableFallback(e: Element) {
    e.TableEl? && e.kind != Table2 && e.kind != Table3
  }

  /**
   * The `type` tag of a record is the element's own tag name, except that a
   * text element with an unhandled tag (a leftover caption or bullet
   * fragment, say) becomes `body` with the same text, and a table with a
   * non-table tag becomes `table3`.
   */
  lemma TypeTagIsTypeName(e: Element)
    ensures !TextFallback(e) && !TableFallback(e) ==> Serialize(e)[0].1 == JStr(TypeName(TypeOf(e)))
    ensures TextFallback(e) ==> Serialize(e) == [("type", JStr("body")), ("text", JStr(e.text))]
    ensures TableFallback(e) ==> Serialize(e)[0].1 == JStr("table3")
  {
  }

  /** An `h1` record always has a `num`: the element's own, or a bullet when it is empty. */
  lemma H1Num(e: Element)
    requires e.TextEl? && e.kind == H1
    ensures Lookup(Serialize(e), "num") == Some(JStr(if e.num == "" then "•" else e.num))
    ensures Lookup(Serialize(e), "text") == Some(JStr(e.text))
  {
    LookupAt(Serialize(e), "num", 1);
    LookupAt(Serialize(e), "text", 2);
  }

  /** A `body` record carries `indent` exactly when the indent is non-zero. */
  lemma BodyIndent(e: Element)
    requires e.TextEl? && e.kind == Body
    ensures "indent" in Keys(Serialize(e)) <==> e.indent != 0
    ensures e.indent != 0 ==> Lookup(Serialize(e), "indent") == Some(JInt(e.indent))
    ensures Lookup(Serialize(e), "text") == Some(JStr(e.text))
  {
    var r := Serialize(e);
    LookupAt(r, "text", 1);
    if e.indent != 0 {
      assert Keys(r) == ["type", "text", "indent"];
      LookupAt(r, "indent", 2);
    } else {
      assert Keys(r) == ["type", "text"];
    }
  }

  /** A placeholder's text goes out under `caption`, and its record has no `text`. */
  lemma PlaceholderCaption(e: Element)
    requires e.TextEl? && e.kind == ImagePlaceholder
    ensures Lookup(Serialize(e), "caption") == Some(JStr(e.text))
    ensures "text" !in Keys(Serialize(e))
  {
    assert Keys(Serialize(e)) == ["type", "caption"];
    LookupAt(Serialize(e), "caption", 1);
  }

  /**
   * A `table2` record has the two column titles and the rows; any other
   * table has the header row and the rows; the rows read back as they were.
   */
  lemma TableRecord(e: Element)
    requires e.TableEl?
    ensures e.kind == Table2 ==> Keys(Serialize(e)) == ["type", "col1", "col2", "rows"]
    ensures e.kind != Table2 ==> Keys(Serialize(e)) == ["type", "headers", "rows"]
    ensures e.kind != Table2 ==>
      var h := Lookup(Serialize(e), "headers"); h.Some? && AsStrings(h.value) == Some(e.headers)
    ensures Lookup(Serialize(e), "rows") == Some(Grid(e.rows))
  {
    var r := Serialize(e);
    if e.kind == Table2 {
      assert Keys(r) == ["type", "col1", "col2", "rows"];
      LookupAt(r, "rows", 3);
    } else {
      assert Keys(r) == ["type", "headers", "rows"];
      LookupAt(r, "headers", 1);
      LookupAt(r, "rows", 2);
      StrListRoundTrip(e.headers);
    }
  }

  /** The list fields of QA, conclusion and bullet records read back as the element's lists. */
  lemma ListsRoundTrip(e: Element)
    ensures e.QaEl? ==>
      var v := Lookup(Serialize(e), "answers"); v.Some? && AsStrings(v.value) == Some(e.answers)
    ensures e.ConclusionEl? ==>
      var v := Lookup(Serialize(e), "lines"); v.Some? && AsStrings(v.value) == Some(e.lines)
    ensures e.BulletsEl? ==>
      var v := Lookup(Serialize(e), "items"); v.Some? && AsStrings(v.value) == Some(e.items)
  {
    match e
    case QaEl(_, answers) =>
      LookupAt(Serialize(e), "answers", 2);
      StrListRoundTrip(answers);
    case ConclusionEl(lines) =>
      LookupAt(Serialize(e), "lines", 1);
      StrListRoundTrip(lines);
    case BulletsEl(items) =>
      LookupAt(Serialize(e), "items", 1);
      StrListRoundTrip(items);
    case _ =>
  }

  // ---------------------------------------------------------------------
  // the payload

  /** The payload for a document. Missing user settings become an empty object. */
  function Payload(doc: ParsedDocument, templateId: string,
                   customSettings: Option<seq<(string, Json)>>): Json
  {
    var els := doc.elements;
    JObj([
      ("template", JStr(templateId)),
      ("custom_settings", JObj(if customSettings.Some? then customSettings.value else [])),
      ("meta", JObj([("title", JStr(doc.meta.title)), ("author", JStr(doc.meta.author)),
                     ("chapter", JStr(doc.meta.chapter))])),
      ("image_base_dir", JStr(doc.imageBaseDir)),
      ("elements", JArr(seq(|els|, i requires 0 <= i < |els| => JObj(Serialize(els[i])))))
    ])
  }

  /** The first half of `build_json`: serialises the elements one by one, in order, then assembles the payload. */
  method BuildPayload(doc: ParsedDocument, templateId: string, customSettings: Option<seq<(string, Json)>>)
    returns (payload: Json)
    ensures payload == Payload(doc, templateId, customSettings)
  {
    var serialized: seq<Json> := [];
    var i := 0;
    while i < |doc.elements|
      invariant 0 <= i <= |doc.elements|
      invariant serialized == seq(i, k requires 0 <= k < i => JObj(Serialize(doc.elements[k])))
    {
      serialized := serialized + [JObj(Serialize(doc.elements[i]))];
      i := i + 1;
    }
    var settings := if customSettings.Some? then customSettings.value else [];
    payload := JObj([
      ("template", JStr(templateId)),
      ("custom_settings", JObj(settings)),
      ("meta", JObj([("title", JStr(doc.meta.title)), ("author", JStr(doc.meta.author)),
                     ("chapter", JStr(doc.meta.chapter))])),
      ("image_base_dir", JStr(doc.imageBaseDir)),
      ("elements", JArr(serialized))
    ]);
  }

  /**
   * `build_json`: the payload rendered as text, where `dumps` stands for
   * `json.dumps(payload, ensure_ascii=False, indent=2)`. With a non-empty
   * output path the text is also written there, after the parent directory
   * is made; nothing else changes.
   */
  method BuildJson(fs: Files.FileSystem, doc: ParsedDocument, templateId: string,
                   customSettings: Option<seq<(string, Json)>>, outputPath: string, dumps: Json -> string)
    returns (text: string)
    modifies fs
    ensures text == dumps(Payload(doc, templateId, customSettings))
    ensures outputPath == "" ==> fs.files == old(fs.files) && fs.dirs == old(fs.dirs)
    ensures outputPath != "" ==>
      fs.files == old(fs.files)[outputPath := Files.Utf8Text(text)] &&
      fs.dirs == old(fs.dirs) + {Files.Parent(outputPath)}
  {
    var payload := BuildPayload(doc, templateId, customSettings);
    text := dumps(payload);
    if outputPath != "" {
      fs.MakeDir(Files.Parent(outputPath));
      fs.WriteFile(outputPath, Files.Utf8Text(text));
    }
  }

  /**
   * The payload keeps one record per element, in element order, and its
   * records have the element's type tag; user settings default to `{}`.
   */
  lemma PayloadElements(doc: ParsedDocument, templateId: string, customSettings: Option<seq<(string, Json)>>)
    ensures var p := Payload(doc, templateId, customSettings);
      Keys(p.fields) == ["template", "custom_settings", "meta", "image_base_dir", "elements"] &&
      |p.fields[4].1.items| == |doc.elements| &&
      (forall i :: 0 <= i < |doc.elements| ==>
         p.fields[4].1.items[i].JObj? && Lookup(p.fields[4].1.items[i].fields, "type") == Some(Serialize(doc.elements[i])[0].1)) &&
      (customSettings.None? ==> p.fields[1].1 == JObj([]))
  {
  }

  /**
   * The metadata in the payload is the title, author and chapter only: two
   * documents that differ in the metadata subtitle or the staged image map
   * give the same payload.
   */
  lemma PayloadIgnoresSubAndImages(doc: ParsedDocument, sub: string, imageMap: map<string, string>,
                                   templateId: string, customSettings: Option<seq<(string, Json)>>)
    ensures var other := ParsedDocument(DocMeta(doc.meta.title, doc.meta.author, doc.meta.chapter, sub),
                                        doc.elements, imageMap, doc.imageBaseDir);
      Payload(other, templateId, customSettings) == Payload(doc, templateId, customSettings)
    ensures Keys(Payload(doc, templateId, customSettings).fields[2].1.fields) == ["title", "author", "chapter"]
  {
  }
}
