/**
 * Re-injection of the original images into the `.docx` that the layout
 * engine rendered: the archive is streamed into a new one in which the
 * relationships part gains one image relationship per image, the
 * content-types part registers the image extensions, the staged image files
 * are added under `word/media/`, and every `[IMG:imageN]` marker of the
 * document part becomes a drawing that points at its relationship.
 */
module ImageInjector {
  import opened Text
  import opened Files
  import opened ImageRecords

  const RelationshipType := "http://schemas.openxmlformats.org/officeDocument/2006/relationships/image"
  const ContentTypesName := "[Content_Types].xml"
  const DefaultWidthEmu := 5400000
  const DefaultHeightEmu := 3600000
  /** The first counter value tried for a new relationship id. */
  const FirstCounter := 1000
  const InjectDirName := "_inject_tmp"

  /** `CONTENT_TYPES`: the MIME type of a lower-cased extension. */
  const ContentTypes: map<string, string> := map[
    "png" := "image/png", "jpg" := "image/jpeg", "jpeg" := "image/jpeg", "gif" := "image/gif",
    "bmp" := "image/bmp", "tiff" := "image/tiff", "emf" := "image/x-emf", "wmf" := "image/x-wmf"]

  datatype InjectError =
    | FileNotFound(path: string)   // the raw document does not exist
    | BadZip(path: string)         // the ZIP reader rejects it
    | MalformedRels                // the relationships part does not parse
    | MalformedTypes               // the content-types part does not parse
    | MissingDocument              // the archive has no document part
    | BadDocument                  // the document part is not UTF-8 text

  // ---------------------------------------------------------------------
  // relationship ids

  /** The relationship id `rIdI<n>`. */
  function RelIdI(n: nat): string {
    "rIdI" + NatToString(n)
  }

  lemma RelIdIInjective(a: nat, b: nat)
    requires RelIdI(a) == RelIdI(b)
    ensures a == b
  {
    assert RelIdI(a)[4..] == NatToString(a);
    assert RelIdI(b)[4..] == NatToString(b);
    NatToStringInjective(a, b);
  }

  /** The ids of counters below `counter`. */
  ghost function Issued(counter: nat): set<string> {
    set k | 0 <= k < counter :: RelIdI(k)
  }

  /** When `rIdI<counter>` is taken, moving past it leaves fewer taken ids ahead. */
  lemma IssuedShrinks(current: set<string>, counter: nat)
    requires RelIdI(counter) in current
    ensures |current - Issued(counter + 1)| < |current - Issued(counter)|
  {
    var id := RelIdI(counter);
    if id in Issued(counter) {
      var k :| 0 <= k < counter && RelIdI(k) == id;
      RelIdIInjective(k, counter);
    }
    assert Issued(counter + 1) == Issued(counter) + {id};
    assert current - Issued(counter + 1) == (current - Issued(counter)) - {id};
  }

  /** The first counter from `counter` on whose id is not taken; every counter skipped was taken. */
  function NextFree(current: set<string>, counter: nat): (c: nat)
    ensures c >= counter && RelIdI(c) !in current
    ensures forall k :: counter <= k < c ==> RelIdI(k) in current
    decreases |current - Issued(counter)|
  {
    if RelIdI(counter) !in current then counter
    else
      IssuedShrinks(current, counter);
      NextFree(current, counter + 1)
  }

  /** The ids `_add_relationships` gives the images, one each, in list order. */
  function Allocated(current: set<string>, counter: nat, images: seq<ImageRecord>): (ids: seq<string>)
    ensures |ids| == |images|
    decreases |images|
  {
    if images == [] then []
    else
      var c := NextFree(current, counter);
      [RelIdI(c)] + Allocated(current + {RelIdI(c)}, c + 1, images[1..])
  }

  /** The allocated ids are pairwise distinct, none was taken before, and each has the `rIdI` form. */
  lemma {:induction false} AllocatedFresh(current: set<string>, counter: nat, images: seq<ImageRecord>, ids: seq<string>)
    requires ids == Allocated(current, counter, images)
    ensures forall k :: 0 <= k < |ids| ==> ids[k] !in current && StartsWith(ids[k], "rIdI")
    ensures forall j, k :: 0 <= j < k < |ids| ==> ids[j] != ids[k]
    decreases |images|
  {
    if images != [] {
      var c := NextFree(current, counter);
      AllocatedFresh(current + {RelIdI(c)}, c + 1, images[1..], ids[1..]);
      forall k | 0 <= k < |ids|
        ensures ids[k] !in current && StartsWith(ids[k], "rIdI")
      {
        if k > 0 { assert ids[k] == ids[1..][k - 1]; }
      }
      forall j, k | 0 <= j < k < |ids|
        ensures ids[j] != ids[k]
      {
        assert ids[k] == ids[1..][k - 1];
        if j > 0 { assert ids[j] == ids[1..][j - 1]; }
      }
    }
  }

  /** The relationship added for an image. */
  function ImageRel(id: string, img: ImageRecord): Relationship {
    Relationship(id, RelationshipType, "media/" + img.filename)
  }

  function ImageRels(ids: seq<string>, images: seq<ImageRecord>): (r: seq<Relationship>)
    requires |ids| == |images|
    ensures |r| == |images|
  {
    seq(|images|, k requires 0 <= k < |images| => ImageRel(ids[k], images[k]))
  }

  /** `added_rels` after recording each image id with its relationship id; a later image wins. */
  function Recorded(added: map<string, string>, images: seq<ImageRecord>, ids: seq<string>): (r: map<string, string>)
    requires |ids| == |images|
    decreases |images|
  {
    if images == [] then added
    else
      var n := |images| - 1;
      Recorded(added, images[..n], ids[..n])[images[n].id := ids[n]]
  }

  /** The index of the last image with id `id`, or -1. */
  function LastWithId(images: seq<ImageRecord>, id: string): (i: int)
    ensures -1 <= i < |images|
    ensures i >= 0 ==> images[i].id == id
    ensures forall j :: i < j < |images| ==> images[j].id != id
  {
    if images == [] then -1
    else if images[|images| - 1].id == id then |images| - 1
    else LastWithId(images[..|images| - 1], id)
  }

  /**
   * After recording, an image id maps to the relationship id of the last
   * image carrying it; any other key keeps its earlier value.
   */
  lemma {:induction false} RecordedLookup(added: map<string, string>, images: seq<ImageRecord>, ids: seq<string>, id: string)
    requires |ids| == |images|
    ensures var r := Recorded(added, images, ids);
      var i := LastWithId(images, id);
      if i >= 0 then id in r && r[id] == ids[i]
      else (id in r <==> id in added) && (id in added ==> r[id] == added[id])
    decreases |images|
  {
    if images != [] {
      var n := |images| - 1;
      RecordedLookup(added, images[..n], ids[..n], id);
    }
  }

  /** The ids of the relationships present. */
  function IdsOf(rels: seq<Relationship>): set<string> {
    set k | 0 <= k < |rels| :: rels[k].id
  }

  /** What `_add_relationships` yields: the extended relationship list and the extended `added_rels`. */
  function AddedRelationships(rels: seq<Relationship>, images: seq<ImageRecord>, added: map<string, string>, start: nat)
    : (seq<Relationship>, map<string, string>)
  {
    var ids := Allocated(IdsOf(rels), start, images);
    (rels + ImageRels(ids, images), Recorded(added, images, ids))
  }

  /** The inner loop of `_add_relationships`: moves the counter past every taken id. */
  method SkipTaken(current: set<string>, counter0: nat) returns (counter: nat)
    ensures counter == NextFree(current, counter0)
  {
    counter := counter0;
    while RelIdI(counter) in current
      invariant counter0 <= counter <= NextFree(current, counter0)
      invariant NextFree(current, counter) == NextFree(current, counter0)
      decreases NextFree(current, counter0) - counter
    {
      counter := counter + 1;
    }
  }

  /** One step of the allocation, against a fixed overall result. */
  lemma AllocatedStep(ids: seq<string>, current: set<string>, counter: nat, rest: seq<ImageRecord>, target: seq<string>)
    requires rest != [] && ids + Allocated(current, counter, rest) == target
    ensures var c := NextFree(current, counter);
      (ids + [RelIdI(c)]) + Allocated(current + {RelIdI(c)}, c + 1, rest[1..]) == target
  {
  }

  lemma ImageRelsSnoc(ids: seq<string>, images: seq<ImageRecord>, id: string, img: ImageRecord)
    requires |ids| == |images|
    ensures ImageRels(ids + [id], images + [img]) == ImageRels(ids, images) + [ImageRel(id, img)]
  {
  }

  lemma RecordedSnoc(added: map<string, string>, images: seq<ImageRecord>, ids: seq<string>, id: string, img: ImageRecord)
    requires |ids| == |images|
    ensures Recorded(added, images + [img], ids + [id]) == Recorded(added, images, ids)[img.id := id]
  {
    assert (images + [img])[..|images|] == images;
    assert (ids + [id])[..|ids|] == ids;
  }

  /** One round of `_add_relationships` keeps the loop's account of what was allocated and written. */
  lemma AddStep(rels: seq<Relationship>, images: seq<ImageRecord>, added: map<string, string>, i: nat,
                ids: seq<string>, current: set<string>, counter: nat,
                newRels: seq<Relationship>, newAdded: map<string, string>, target: seq<string>)
    requires i < |images| && |ids| == i
    requires ids + Allocated(current, counter, images[i..]) == target
    requires newRels == rels + ImageRels(ids, images[..i]) && newAdded == Recorded(added, images[..i], ids)
    ensures var c := NextFree(current, counter);
      (ids + [RelIdI(c)]) + Allocated(current + {RelIdI(c)}, c + 1, images[i + 1..]) == target &&
      newRels + [ImageRel(RelIdI(c), images[i])] == rels + ImageRels(ids + [RelIdI(c)], images[..i + 1]) &&
      newAdded[images[i].id := RelIdI(c)] == Recorded(added, images[..i + 1], ids + [RelIdI(c)])
  {
    var relId := RelIdI(NextFree(current, counter));
    AllocatedStep(ids, current, counter, images[i..], target);
    assert images[i..][1..] == images[i + 1..];
    assert images[..i + 1] == images[..i] + [images[i]];
    RecordedSnoc(added, images[..i], ids, relId, images[i]);
    ImageRelsSnoc(ids, images[..i], relId, images[i]);
  }

  /**
   * `_add_relationships`: gives each image the first free `rIdI<n>`, the
   * counter moving on past every id handed out, appends an image
   * relationship to `media/<filename>` and records the id in `added_rels`.
   */
  method AddRelationships(rels: seq<Relationship>, images: seq<ImageRecord>, added: map<string, string>, start: nat)
    returns (newRels: seq<Relationship>, newAdded: map<string, string>)
    ensures newRels == rels + ImageRels(Allocated(IdsOf(rels), start, images), images)
    ensures newAdded == Recorded(added, images, Allocated(IdsOf(rels), start, images))
  {
    var current := IdsOf(rels);
    var counter := start;
    newRels := rels;
    newAdded := added;
    ghost var ids: seq<string> := [];
    var i := 0;
    while i < |images|
      invariant 0 <= i <= |images| && |ids| == i
      invariant ids + Allocated(current, counter, images[i..]) == Allocated(IdsOf(rels), start, images)
      invariant newRels == rels + ImageRels(ids, images[..i])
      invariant newAdded == Recorded(added, images[..i], ids)
    {
      AddStep(rels, images, added, i, ids, current, counter, newRels, newAdded, Allocated(IdsOf(rels), start, images));
      counter := SkipTaken(current, counter);
      var relId := RelIdI(counter);
      newAdded := newAdded[images[i].id := relId];
      current := current + {relId};
      newRels := newRels + [ImageRel(relId, images[i])];
      ids := ids + [relId];
      counter := counter + 1;
      i := i + 1;
    }
    assert images[..i] == images;
    assert images[i..] == [];
    assert ids + [] == ids;
  }

  /**
   * One image relationship to `media/<filename>` is appended per image, in
   * list order, under ids that are pairwise distinct and disjoint from the
   * ids already present; each image id is recorded with the id of the last
   * image carrying it.
   */
  lemma AddedRelationshipsSpec(rels: seq<Relationship>, images: seq<ImageRecord>, added: map<string, string>, start: nat,
                                out: seq<Relationship>, rec: map<string, string>)
    requires (out, rec) == AddedRelationships(rels, images, added, start)
    ensures |out| == |rels| + |images| && out[..|rels|] == rels &&
      (forall k :: 0 <= k < |images| ==>
        out[|rels| + k].relType == RelationshipType && out[|rels| + k].target == "media/" + images[k].filename &&
        out[|rels| + k].id !in IdsOf(rels)) &&
      (forall j, k :: |rels| <= j < k < |out| ==> out[j].id != out[k].id) &&
      (forall k :: 0 <= k < |images| ==> images[k].id in rec && rec[images[k].id] != "")
  {
    var ids := Allocated(IdsOf(rels), start, images);
    AllocatedFresh(IdsOf(rels), start, images, ids);
    assert out == rels + ImageRels(ids, images);
    forall j, k | |rels| <= j < k < |out|
      ensures out[j].id != out[k].id
    {
      assert out[j] == ImageRels(ids, images)[j - |rels|];
      assert out[k] == ImageRels(ids, images)[k - |rels|];
      assert ids[j - |rels|] != ids[k - |rels|];
    }
    forall k | 0 <= k < |images|
      ensures images[k].id in rec && rec[images[k].id] != ""
    {
      RecordedLookup(added, images, ids, images[k].id);
      var i := LastWithId(images, images[k].id);
      assert i >= k;
      assert StartsWith(ids[i], "rIdI");
    }
  }

  // ---------------------------------------------------------------------
  // content types

  /** `CONTENT_TYPES.get(ext, "application/octet-stream")`. */
  function ContentTypeOf(ext: string): string {
    if ext in ContentTypes then ContentTypes[ext] else "application/octet-stream"
  }

  /** The extensions registered by a non-empty `Extension` attribute. */
  function Registered(types: seq<TypeEntry>): set<string> {
    set k | 0 <= k < |types| && types[k].Default? && types[k].extension != [] :: types[k].extension
  }

  /** The `Default` entries appended for the images, given the extensions already known. */
  function NewDefaults(known: set<string>, images: seq<ImageRecord>): (r: seq<TypeEntry>)
    ensures forall k :: 0 <= k < |r| ==> r[k].Default?
    decreases |images|
  {
    if images == [] then []
    else
      var ext := Lower(images[0].ext);
      if ext in known then NewDefaults(known, images[1..])
      else [Default(ext, ContentTypeOf(ext))] + NewDefaults(known + {ext}, images[1..])
  }

  /** The extensions of the `Default` entries. */
  function Extensions(d: seq<TypeEntry>): set<string> {
    set k | 0 <= k < |d| && d[k].Default? :: d[k].extension
  }

  /**
   * `_add_content_types`: registers the lower-cased extension of every image
   * that is neither registered yet nor in `addedExts`, the extensions
   * registered by earlier calls; returns the extended part and the extended
   * `addedExts`.
   */
  method AddContentTypes(types: seq<TypeEntry>, images: seq<ImageRecord>, addedExts: set<string>)
    returns (r: seq<TypeEntry>, newExts: set<string>)
    ensures r == types + NewDefaults(Registered(types) + addedExts, images)
    ensures newExts == addedExts + Extensions(NewDefaults(Registered(types) + addedExts, images))
  {
    var known := Registered(types) + addedExts;
    ghost var d := NewDefaults(known, images);
    r := types;
    newExts := addedExts;
    var i := 0;
    while i < |images|
      invariant 0 <= i <= |images|
      invariant r + NewDefaults(known, images[i..]) == types + d
      invariant newExts + Extensions(NewDefaults(known, images[i..])) == addedExts + Extensions(d)
    {
      assert images[i..][1..] == images[i + 1..];
      var ext := Lower(images[i].ext);
      if ext !in known {
        ghost var rest := NewDefaults(known + {ext}, images[i + 1..]);
        assert Extensions([Default(ext, ContentTypeOf(ext))] + rest) == {ext} + Extensions(rest) by {
          var e := [Default(ext, ContentTypeOf(ext))] + rest;
          forall x | x in Extensions(e) ensures x in {ext} + Extensions(rest) {
            var k :| 0 <= k < |e| && e[k].Default? && e[k].extension == x;
            if k > 0 { assert e[k] == rest[k - 1]; }
          }
          forall x | x in Extensions(rest) ensures x in Extensions(e) {
            var k :| 0 <= k < |rest| && rest[k].Default? && rest[k].extension == x;
            assert e[k + 1] == rest[k];
          }
          assert e[0].extension == ext;
        }
        r := r + [Default(ext, ContentTypeOf(ext))];
        newExts := newExts + {ext};
        known := known + {ext};
      }
      i := i + 1;
    }
    assert images[i..] == [];
    assert r + [] == r;
  }

  /**
   * The appended entries are `Default`s with the MIME type of their
   * extension, at most one per extension and none for an extension already
   * known; afterwards every image's lower-cased extension is known.
   */
  lemma {:induction false} NewDefaultsSpec(known: set<string>, images: seq<ImageRecord>, d: seq<TypeEntry>)
    requires d == NewDefaults(known, images)
    ensures forall k :: 0 <= k < |d| ==>
      d[k].Default? && d[k].extension !in known && d[k].contentType == ContentTypeOf(d[k].extension)
    ensures forall j, k :: 0 <= j < k < |d| ==> d[j].extension != d[k].extension
    ensures forall k :: 0 <= k < |images| ==>
      Lower(images[k].ext) in known || exists j :: 0 <= j < |d| && d[j].extension == Lower(images[k].ext)
    decreases |images|
  {
    if images != [] {
      var ext := Lower(images[0].ext);
      if ext in known {
        NewDefaultsSpec(known, images[1..], d);
        forall k | 0 <= k < |images|
          ensures Lower(images[k].ext) in known || exists j :: 0 <= j < |d| && d[j].extension == Lower(images[k].ext)
        {
          if k > 0 { assert images[k] == images[1..][k - 1]; }
        }
      } else {
        var rest := NewDefaults(known + {ext}, images[1..]);
        NewDefaultsSpec(known + {ext}, images[1..], rest);
        assert d == [Default(ext, ContentTypeOf(ext))] + rest;
        forall k | 0 <= k < |d|
          ensures d[k].Default? && d[k].extension !in known && d[k].contentType == ContentTypeOf(d[k].extension)
        {
          if k > 0 { assert d[k] == rest[k - 1]; }
        }
        forall j, k | 0 <= j < k < |d|
          ensures d[j].extension != d[k].extension
        {
          assert d[k] == rest[k - 1];
          if j > 0 { assert d[j] == rest[j - 1]; }
        }
        forall k | 0 <= k < |images|
          ensures Lower(images[k].ext) in known || exists j :: 0 <= j < |d| && d[j].extension == Lower(images[k].ext)
        {
          assert d[0].extension == ext;
          if k > 0 {
            assert images[k] == images[1..][k - 1];
            if Lower(images[k].ext) !in known && Lower(images[k].ext) != ext {
              var j :| 0 <= j < |rest| && rest[j].extension == Lower(images[k].ext);
              assert d[j + 1] == rest[j];
            }
          }
        }
      }
    }
  }

  // ---------------------------------------------------------------------
  // markers

  /** A piece of the drawing template: literal text or one of the values filled in. */
  datatype Piece = Text(text: string) | RelIdSlot | WidthSlot | HeightSlot | IdSlot

  /** The `<w:drawing>` template of `_drawing_xml` after its opening `<w:drawing`, line by line. */
  const DrawingTemplate: seq<Piece> := [
    Text(" xmlns:w=\"http://schemas.openxmlformats.org/wordprocessingml/2006/main\"\n"),
    Text("  xmlns:wp=\"http://schemas.openxmlformats.org/drawingml/2006/wordprocessingDrawing\"\n"),
    Text("  xmlns:a=\"http://schemas.openxmlformats.org/drawingml/2006/main\"\n"),
    Text("  xmlns:pic=\"http://schemas.openxmlformats.org/drawingml/2006/picture\"\n"),
    Text("  xmlns:r=\"http://schemas.openxmlformats.org/officeDocument/2006/relationships\">\n"),
    Text("  <wp:inline distT=\"0\" distB=\"0\" distL=\"0\" distR=\"0\">\n"),
    Text("    <wp:extent cx=\""),
    WidthSlot,
    Text("\" cy=\""),
    HeightSlot,
    Text("\"/>\n"),
    Text("    <wp:effectExtent l=\"0\" t=\"0\" r=\"0\" b=\"0\"/>\n"),
    Text("    <wp:docPr id=\""),
    IdSlot,
    Text("\" name=\"Image"),
    IdSlot,
    Text("\"/>\n"),
    Text("    <wp:cNvGraphicFramePr/>\n"),
    Text("    <a:graphic>\n"),
    Text("      <a:graphicData uri=\"http://schemas.openxmlformats.org/drawingml/2006/picture\">\n"),
    Text("        <pic:pic>\n"),
    Text("          <pic:nvPicPr>\n"),
    Text("            <pic:cNvPr id=\""),
    IdSlot,
    Text("\" name=\"Image"),
    IdSlot,
    Text("\"/>\n"),
    Text("            <pic:cNvPicPr><a:picLocks noChangeAspect=\"1\"/></pic:cNvPicPr>\n"),
    Text("          </pic:nvPicPr>\n"),
    Text("          <pic:blipFill>\n"),
    Text("            <a:blip r:embed=\""),
    RelIdSlot,
    Text("\"/>\n"),
    Text("            <a:stretch><a:fillRect/></a:stretch>\n"),
    Text("          </pic:blipFill>\n"),
    Text("          <pic:spPr>\n"),
    Text("            <a:xfrm><a:off x=\"0\" y=\"0\"/><a:ext cx=\""),
    WidthSlot,
    Text("\" cy=\""),
    HeightSlot,
    Text("\"/></a:xfrm>\n"),
    Text("            <a:prstGeom prst=\"rect\"><a:avLst/></a:prstGeom>\n"),
    Text("          </pic:spPr>\n"),
    Text("        </pic:pic>\n"),
    Text("      </a:graphicData>\n"),
    Text("    </a:graphic>\n"),
    Text("  </wp:inline>\n"),
    Text("</w:drawing>")]

  /** The template with its slots filled. */
  function Render(t: seq<Piece>, relId: string, w: string, h: string, n: string): string {
    if t == [] then []
    else
      var p := match t[0]
        case Text(s) => s
        case RelIdSlot => relId
        case WidthSlot => w
        case HeightSlot => h
        case IdSlot => n;
      p + Render(t[1..], relId, w, h, n)
  }

  /** `_drawing_xml`: the `<w:drawing>` that shows an image inline. */
  function DrawingXml(relId: string, widthEmu: int, heightEmu: int, imgId: nat): string {
    "<w:drawing" + Render(DrawingTemplate, relId, IntToString(widthEmu), IntToString(heightEmu), NatToString(imgId))
  }

  /** `{img["id"]: img for img in images}`: a later image with the same id wins. */
  function IdMap(images: seq<ImageRecord>): map<string, ImageRecord> {
    if images == [] then map[]
    else IdMap(images[..|images| - 1])[images[|images| - 1].id := images[|images| - 1]]
  }

  const MarkerHead := "[IMG:image"

  /** The marker a digit string stands for. */
  function Marker(digits: string): string {
    MarkerHead + digits + "]"
  }

  /** The length of the `[IMG:image<digits>]` marker that starts `s`, if one does. */
  function MarkerAt(s: string): (r: Option<nat>)
    ensures r.Some? ==> 11 < r.value <= |s| && StartsWith(s, MarkerHead) && AllDigits(s[10..r.value - 1])
  {
    if !StartsWith(s, MarkerHead) then None
    else
      var n := DigitRun(s[10..]);
      if n > 0 && 10 + n < |s| && s[10 + n] == ']' then Some(11 + n) else None
  }

  /**
   * What a marker with these digits becomes: the drawing for the image when
   * both the image and a non-empty relationship id are known, with a zero
   * size replaced by the default size; otherwise the marker itself.
   */
  function Replacement(digits: string, idMap: map<string, ImageRecord>, added: map<string, string>): string
    requires AllDigits(digits)
  {
    var id := "image" + digits;
    if id !in idMap || Get(added, id) == "" then Marker(digits)
    else
      var img := idMap[id];
      var w := if img.widthEmu == 0 then DefaultWidthEmu else img.widthEmu;
      var h := if img.heightEmu == 0 then DefaultHeightEmu else img.heightEmu;
      DrawingXml(added[id], w, h, DigitsValue(digits))
  }

  /** `_replace_markers`: the markers, scanned left to right without overlap, replaced. */
  function ReplaceMarkers(s: string, idMap: map<string, ImageRecord>, added: map<string, string>): string
    decreases |s|
  {
    if s == [] then []
    else
      match MarkerAt(s)
      case Some(n) => Replacement(s[10..n - 1], idMap, added) + ReplaceMarkers(s[n..], idMap, added)
      case None => [s[0]] + ReplaceMarkers(s[1..], idMap, added)
  }

  /** A marker followed by anything is replaced on its own, and the scan resumes right after it. */
  lemma ReplaceMarkerThenRest(digits: string, rest: string, idMap: map<string, ImageRecord>, added: map<string, string>)
    requires AllDigits(digits)
    ensures ReplaceMarkers(Marker(digits) + rest, idMap, added) == Replacement(digits, idMap, added) + ReplaceMarkers(rest, idMap, added)
  {
    var s := Marker(digits) + rest;
    MarkerThenRest(digits, rest);
    assert s != [];
  }

  /** A marker at the front is found with its digits, and the text after it is `rest`. */
  lemma MarkerThenRest(digits: string, rest: string)
    requires AllDigits(digits)
    ensures var s := Marker(digits) + rest;
      MarkerAt(s) == Some(11 + |digits|) && s[10..10 + |digits|] == digits && s[11 + |digits|..] == rest
  {
    var s := Marker(digits) + rest;
    var tail := digits + ("]" + rest);
    assert s == MarkerHead + tail;
    assert s[10..] == tail;
    DigitRunStops(digits, "]" + rest);
    assert s[10..10 + |digits|] == tail[..|digits|] == digits;
    assert s[11 + |digits|..] == tail[|digits| + 1..] == rest;
  }

  /** A known marker never stays verbatim: its replacement opens a drawing element. */
  lemma ReplacementKnown(digits: string, idMap: map<string, ImageRecord>, added: map<string, string>)
    requires AllDigits(digits)
    requires "image" + digits in idMap && Get(added, "image" + digits) != ""
    ensures Replacement(digits, idMap, added) != Marker(digits)
  {
    ReplacementOpens(digits, idMap, added);
    MarkerOpens(digits);
  }

  lemma ReplacementOpens(digits: string, idMap: map<string, ImageRecord>, added: map<string, string>)
    requires AllDigits(digits)
    requires "image" + digits in idMap && Get(added, "image" + digits) != ""
    ensures |Replacement(digits, idMap, added)| > 0 && Replacement(digits, idMap, added)[0] == '<'
  {
    ReplacementDrawing(digits, idMap, added);
    var id := "image" + digits;
    var img := idMap[id];
    DrawingOpens(added[id],
      if img.widthEmu == 0 then DefaultWidthEmu else img.widthEmu,
      if img.heightEmu == 0 then DefaultHeightEmu else img.heightEmu,
      DigitsValue(digits));
  }

  lemma DrawingOpens(relId: string, w: int, h: int, n: nat)
    ensures |DrawingXml(relId, w, h, n)| > 0 && DrawingXml(relId, w, h, n)[0] == '<'
  {
  }

  lemma MarkerOpens(digits: string)
    ensures |Marker(digits)| > 0 && Marker(digits)[0] == '['
  {
  }

  /** A marker whose image or non-empty relationship id is unknown stays verbatim. */
  lemma ReplacementUnknown(digits: string, idMap: map<string, ImageRecord>, added: map<string, string>)
    requires AllDigits(digits)
    requires "image" + digits !in idMap || Get(added, "image" + digits) == ""
    ensures Replacement(digits, idMap, added) == Marker(digits)
  {
  }

  /**
   * A known marker becomes the drawing with the image's relationship id and
   * size, a zero dimension replaced by the default size, and the marker's
   * number as drawing id.
   */
  lemma ReplacementDrawing(digits: string, idMap: map<string, ImageRecord>, added: map<string, string>)
    requires AllDigits(digits)
    requires "image" + digits in idMap && Get(added, "image" + digits) != ""
    ensures var id := "image" + digits;
      var img := idMap[id];
      Replacement(digits, idMap, added) ==
        DrawingXml(added[id],
          if img.widthEmu == 0 then DefaultWidthEmu else img.widthEmu,
          if img.heightEmu == 0 then DefaultHeightEmu else img.heightEmu,
          DigitsValue(digits))
  {
  }

  /** Text with no `[` passes through unchanged and the scan resumes after it. */
  lemma {:induction false} ReplacePlainThenRest(t: string, rest: string, idMap: map<string, ImageRecord>, added: map<string, string>)
    requires '[' !in t
    ensures ReplaceMarkers(t + rest, idMap, added) == t + ReplaceMarkers(rest, idMap, added)
  {
    if t != [] {
      assert (t + rest)[0] == t[0] && t[0] != MarkerHead[0];
      assert MarkerAt(t + rest).None?;
      assert (t + rest)[1..] == t[1..] + rest;
      ReplacePlainThenRest(t[1..], rest, idMap, added);
      assert t == [t[0]] + t[1..];
    } else {
      assert t + rest == rest;
    }
  }

  /** The marker `MarkerAt` finds is the whole prefix it spans. */
  lemma MarkerAtIsMarker(s: string, n: nat)
    requires MarkerAt(s) == Some(n)
    ensures s == Marker(s[10..n - 1]) + s[n..]
  {
    assert s[..10] == MarkerHead;
    assert s[n - 1] == ']';
    assert s[..n] == s[..10] + s[10..n - 1] + [s[n - 1]];
    assert s == s[..n] + s[n..];
  }

  /** No relationship id to use: every marker stays and the document is unchanged. */
  lemma {:induction false} ReplaceWithoutRelIds(s: string, idMap: map<string, ImageRecord>, added: map<string, string>)
    requires forall k :: k in added ==> added[k] == ""
    ensures ReplaceMarkers(s, idMap, added) == s
    decreases |s|
  {
    if s != [] {
      match MarkerAt(s)
      case Some(n) =>
        ReplaceWithoutRelIds(s[n..], idMap, added);
        ReplacementUnknown(s[10..n - 1], idMap, added);
        MarkerAtIsMarker(s, n);
      case None =>
        ReplaceWithoutRelIds(s[1..], idMap, added);
        assert s == [s[0]] + s[1..];
    }
  }

  /** The marker of the k-th record's id gets drawing id k + 1. */
  lemma MarkerOfImageId(k: nat)
    ensures ImageId(k) == "image" + NatToString(k + 1) && AllDigits(NatToString(k + 1))
    ensures DigitsValue(NatToString(k + 1)) == k + 1
  {
    DigitsValueOfNatToString(k + 1);
  }

  // ---------------------------------------------------------------------
  // streaming the archive

  /** What the copy loop has written so far, with `added_rels` and `added_exts`. */
  datatype Stream = Stream(out: seq<Entry>, added: map<string, string>, exts: set<string>)

  /**
   * One round of the copy loop for an entry with this name and content:
   * the document part is left for later, the relationships part and the
   * content-types part are written extended, anything else is written
   * unchanged.
   */
  function StreamStep(st: Stream, name: string, data: File, images: seq<ImageRecord>): Result<Stream, InjectError> {
    if name == DocumentName then Ok(st)
    else if name == DocumentRelsName then
      match data
      case RelsPart(rels) =>
        var ids := Allocated(IdsOf(rels), FirstCounter, images);
        Ok(st.(out := st.out + [Entry(name, RelsPart(rels + ImageRels(ids, images)))],
               added := Recorded(st.added, images, ids)))
      case _ => Err(InjectError.MalformedRels)
    else if name == ContentTypesName then
      match data
      case TypesPart(types) =>
        var d := NewDefaults(Registered(types) + st.exts, images);
        Ok(st.(out := st.out + [Entry(name, TypesPart(types + d))], exts := st.exts + Extensions(d)))
      case _ => Err(MalformedTypes)
    else Ok(st.(out := st.out + [Entry(name, data)]))
  }

  /**
   * The copy loop over the first `n` names of `namelist()`, each read back
   * by name; it stops at the first part that does not parse.
   */
  function Streamed(entries: seq<Entry>, images: seq<ImageRecord>, n: nat): Result<Stream, InjectError>
    requires n <= |entries|
  {
    if n == 0 then Ok(Stream([], map[], {}))
    else
      match Streamed(entries, images, n - 1)
      case Err(e) => Err(e)
      case Ok(st) =>
        var name := entries[n - 1].name;
        assert name == Names(entries)[n - 1];
        StreamStep(st, name, ReadEntry(entries, name).value, images)
  }

  /** The copy loop of `inject_images`. */
  method StreamEntries(entries: seq<Entry>, images: seq<ImageRecord>) returns (r: Result<Stream, InjectError>)
    ensures r == Streamed(entries, images, |entries|)
  {
    var st := Stream([], map[], {});
    var i := 0;
    while i < |entries|
      invariant 0 <= i <= |entries|
      invariant Streamed(entries, images, i) == Ok(st)
    {
      var name := entries[i].name;
      assert name == Names(entries)[i];
      var next := StreamOne(st, name, ReadEntry(entries, name).value, images);
      StreamedNext(entries, images, i, st, next);
      if next.Err? {
        StreamedErrStays(entries, images, i + 1, |entries|);
        return next;
      }
      st := next.value;
      i := i + 1;
    }
    r := Ok(st);
  }

  /** The copy loop's next round continues from what the earlier rounds wrote. */
  lemma StreamedNext(entries: seq<Entry>, images: seq<ImageRecord>, i: nat, st: Stream, next: Result<Stream, InjectError>)
    requires i < |entries| && Streamed(entries, images, i) == Ok(st)
    requires next == StreamStep(st, entries[i].name, ReadEntry(entries, entries[i].name).value, images)
    ensures Streamed(entries, images, i + 1) == next
  {
    assert entries[i].name == Names(entries)[i];
  }

  /** One round of the copy loop, on what was written so far. */
  method StreamOne(st: Stream, name: string, data: File, images: seq<ImageRecord>) returns (r: Result<Stream, InjectError>)
    ensures r == StreamStep(st, name, data, images)
  {
    if name == DocumentName {
      return Ok(st);
    } else if name == DocumentRelsName {
      if !data.RelsPart? {
        return Err(InjectError.MalformedRels);
      }
      var rels, newAdded := AddRelationships(data.rels, images, st.added, FirstCounter);
      return Ok(st.(out := st.out + [Entry(name, RelsPart(rels))], added := newAdded));
    } else if name == ContentTypesName {
      if !data.TypesPart? {
        return Err(MalformedTypes);
      }
      var types, newExts := AddContentTypes(data.types, images, st.exts);
      return Ok(st.(out := st.out + [Entry(name, TypesPart(types))], exts := newExts));
    } else {
      return Ok(st.(out := st.out + [Entry(name, data)]));
    }
  }

  /** The three parts the copy loop rewrites or holds back. */
  predicate Special(name: string) {
    name == DocumentName || name == DocumentRelsName || name == ContentTypesName
  }

  /** One round writes at most one entry, named as the entry read, and keeps what was written. */
  lemma StepKeepsOthers(st: Stream, m: string, data: File, images: seq<ImageRecord>, name: string)
    requires StreamStep(st, m, data, images).Ok? && !Special(name)
    ensures ReadEntry(StreamStep(st, m, data, images).value.out, name) ==
      if m == name then Some(data) else ReadEntry(st.out, name)
  {
    var out := StreamStep(st, m, data, images).value.out;
    if m != DocumentName {
      assert |out| == |st.out| + 1 && out[..|st.out|] == st.out && out[|st.out|].name == m;
      assert out == st.out + [out[|st.out|]];
      ReadEntryAppend(st.out, [out[|st.out|]], name);
    }
  }

  /**
   * The copy loop carries every other part over unchanged: after `n`
   * rounds, such a name reads back as it reads in the source archive
   * exactly when it is among the first `n` names.
   */
  lemma {:induction false} StreamedKeepsOthers(entries: seq<Entry>, images: seq<ImageRecord>, n: nat, name: string)
    requires n <= |entries| && Streamed(entries, images, n).Ok? && !Special(name)
    ensures ReadEntry(Streamed(entries, images, n).value.out, name) ==
      if name in Names(entries[..n]) then ReadEntry(entries, name) else None
  {
    if n > 0 {
      var st := Streamed(entries, images, n - 1).value;
      StreamedKeepsOthers(entries, images, n - 1, name);
      var m := entries[n - 1].name;
      assert m == Names(entries)[n - 1];
      assert entries[..n] == entries[..n - 1] + [entries[n - 1]];
      assert Names(entries[..n]) == Names(entries[..n - 1]) + [m];
      StepKeepsOthers(st, m, ReadEntry(entries, m).value, images, name);
    }
  }

  /** Once the copy loop has stopped at an error, that error is the outcome. */
  lemma {:induction false} StreamedErrStays(entries: seq<Entry>, images: seq<ImageRecord>, i: nat, n: nat)
    requires i <= n <= |entries| && Streamed(entries, images, i).Err?
    ensures Streamed(entries, images, n) == Streamed(entries, images, i)
    decreases n
  {
    if i < n {
      StreamedErrStays(entries, images, i, n - 1);
    }
  }

  /** The copy loop stops only at a relationships or content-types part that does not parse. */
  lemma {:induction false} StreamedErrors(entries: seq<Entry>, images: seq<ImageRecord>, n: nat)
    requires n <= |entries|
    ensures Streamed(entries, images, n).Err? ==>
      Streamed(entries, images, n).error == InjectError.MalformedRels || Streamed(entries, images, n).error == MalformedTypes
  {
    if n > 0 {
      StreamedErrors(entries, images, n - 1);
    }
  }

  /** Without a relationships part, no relationship id is recorded. */
  lemma {:induction false} StreamedWithoutRels(entries: seq<Entry>, images: seq<ImageRecord>, n: nat)
    requires n <= |entries| && Streamed(entries, images, n).Ok?
    requires DocumentRelsName !in Names(entries[..n])
    ensures Streamed(entries, images, n).value.added == map[]
  {
    if n > 0 {
      assert Names(entries[..n - 1]) == Names(entries[..n])[..n - 1];
      assert entries[n - 1].name == Names(entries[..n])[n - 1];
      StreamedWithoutRels(entries, images, n - 1);
    }
  }

  /** With a relationships part among the names read, every image id is recorded with a non-empty id. */
  lemma {:induction false} StreamedRecordsAll(entries: seq<Entry>, images: seq<ImageRecord>, n: nat)
    requires n <= |entries| && Streamed(entries, images, n).Ok?
    requires DocumentRelsName in Names(entries[..n])
    ensures forall k :: 0 <= k < |images| ==>
      images[k].id in Streamed(entries, images, n).value.added && Streamed(entries, images, n).value.added[images[k].id] != ""
  {
    var st := Streamed(entries, images, n - 1).value;
    var m := entries[n - 1].name;
    assert m == Names(entries)[n - 1];
    assert Names(entries[..n]) == Names(entries[..n - 1]) + [m] by {
      assert entries[..n] == entries[..n - 1] + [entries[n - 1]];
    }
    if m == DocumentRelsName {
      var rels := ReadEntry(entries, m).value.rels;
      var p := AddedRelationships(rels, images, st.added, FirstCounter);
      AddedRelationshipsSpec(rels, images, st.added, FirstCounter, p.0, p.1);
    } else {
      StreamedRecordsAll(entries, images, n - 1);
    }
  }

  // ---------------------------------------------------------------------
  // media, document and relationships parts

  /** Where an image goes inside the package. */
  function MediaPath(img: ImageRecord): string {
    "word/media/" + img.filename
  }

  /** The media loop: each image whose part name is new and whose staged file exists is added. */
  function MediaAdded(images: seq<ImageRecord>, existing: seq<string>, files: map<string, File>): (r: seq<Entry>)
    ensures |r| <= |images|
  {
    if images == [] then []
    else
      var img := images[|images| - 1];
      MediaAdded(images[..|images| - 1], existing, files) +
        if MediaPath(img) !in existing && img.path in files then [Entry(MediaPath(img), files[img.path])] else []
  }

  /** The media loop of `inject_images`. */
  method AddMedia(images: seq<ImageRecord>, existing: seq<string>, files: map<string, File>) returns (media: seq<Entry>)
    ensures media == MediaAdded(images, existing, files)
  {
    media := [];
    var i := 0;
    while i < |images|
      invariant 0 <= i <= |images|
      invariant media == MediaAdded(images[..i], existing, files)
    {
      assert images[..i + 1][..i] == images[..i];
      var path := MediaPath(images[i]);
      if path !in existing && images[i].path in files {
        media := media + [Entry(path, files[images[i].path])];
      }
      i := i + 1;
    }
    assert images[..i] == images;
  }

  /** An image whose staged file the media loop adds. */
  predicate Staged(img: ImageRecord, existing: seq<string>, files: map<string, File>) {
    MediaPath(img) !in existing && img.path in files
  }

  /**
   * The added entries are exactly the staged images, in list order: each
   * carries the content of an image's staged file under that image's new
   * part name, and every staged image has one.
   */
  lemma MediaAddedSpec(images: seq<ImageRecord>, existing: seq<string>, files: map<string, File>, r: seq<Entry>)
    requires r == MediaAdded(images, existing, files)
    ensures forall j :: 0 <= j < |r| ==> r[j].name !in existing
    ensures forall j :: 0 <= j < |r| ==> FromStaged(r[j], images, existing, files)
    ensures forall k :: 0 <= k < |images| && Staged(images[k], existing, files) ==>
      Entry(MediaPath(images[k]), files[images[k].path]) in r
  {
    MediaAddedFrom(images, existing, files, r);
    MediaAddedHas(images, existing, files, r);
    forall j | 0 <= j < |r|
      ensures r[j].name !in existing
    {
      assert FromStaged(r[j], images, existing, files);
      var k :| 0 <= k < |images| && Staged(images[k], existing, files) &&
        r[j] == Entry(MediaPath(images[k]), files[images[k].path]);
      assert r[j].name == MediaPath(images[k]);
    }
  }

  /** The entry is a staged image's file under the image's new part name. */
  predicate FromStaged(e: Entry, images: seq<ImageRecord>, existing: seq<string>, files: map<string, File>) {
    exists k :: 0 <= k < |images| && Staged(images[k], existing, files) &&
      e == Entry(MediaPath(images[k]), files[images[k].path])
  }

  /** Every added entry is a staged image's file under the image's new part name. */
  lemma {:induction false} MediaAddedFrom(images: seq<ImageRecord>, existing: seq<string>, files: map<string, File>, r: seq<Entry>)
    requires r == MediaAdded(images, existing, files)
    ensures forall j :: 0 <= j < |r| ==> FromStaged(r[j], images, existing, files)
    decreases |images|
  {
    if images != [] {
      var front := images[..|images| - 1];
      var img := images[|images| - 1];
      var rf := MediaAdded(front, existing, files);
      MediaAddedFrom(front, existing, files, rf);
      var last: seq<Entry> := if Staged(img, existing, files) then [Entry(MediaPath(img), files[img.path])] else [];
      assert r == rf + last;
      forall j | 0 <= j < |r|
        ensures FromStaged(r[j], images, existing, files)
      {
        if j < |rf| {
          assert FromStaged(rf[j], front, existing, files);
          var k :| 0 <= k < |front| && Staged(front[k], existing, files) && rf[j] == Entry(MediaPath(front[k]), files[front[k].path]);
          assert images[k] == front[k] && r[j] == rf[j];
        } else {
          var k := |images| - 1;
          assert r[j] == last[0];
          assert images[k] == img;
        }
      }
    }
  }

  /** Every staged image's file is added. */
  lemma {:induction false} MediaAddedHas(images: seq<ImageRecord>, existing: seq<string>, files: map<string, File>, r: seq<Entry>)
    requires r == MediaAdded(images, existing, files)
    ensures forall k :: 0 <= k < |images| && Staged(images[k], existing, files) ==>
      Entry(MediaPath(images[k]), files[images[k].path]) in r
    decreases |images|
  {
    if images != [] {
      var front := images[..|images| - 1];
      var img := images[|images| - 1];
      var rf := MediaAdded(front, existing, files);
      MediaAddedHas(front, existing, files, rf);
      var last: seq<Entry> := if Staged(img, existing, files) then [Entry(MediaPath(img), files[img.path])] else [];
      assert r == rf + last;
      forall k | 0 <= k < |images| && Staged(images[k], existing, files)
        ensures Entry(MediaPath(images[k]), files[images[k].path]) in r
      {
        if k < |front| {
          assert images[k] == front[k];
        } else {
          assert r[|rf|] == last[0];
        }
      }
    }
  }

  /** `_create_rels`: one image relationship per image, under its recorded id or else `rId_<image id>`. */
  function CreatedRels(images: seq<ImageRecord>, added: map<string, string>): (r: seq<Relationship>)
    ensures |r| == |images|
  {
    seq(|images|, k requires 0 <= k < |images| =>
      Relationship(if images[k].id in added then added[images[k].id] else "rId_" + images[k].id,
                   RelationshipType, "media/" + images[k].filename))
  }

  /** The loop of `_create_rels`. */
  method CreateRels(images: seq<ImageRecord>, added: map<string, string>) returns (rels: seq<Relationship>)
    ensures rels == CreatedRels(images, added)
  {
    rels := [];
    var i := 0;
    while i < |images|
      invariant 0 <= i <= |images| && |rels| == i
      invariant forall k :: 0 <= k < i ==> rels[k] == CreatedRels(images, added)[k]
    {
      var id := if images[i].id in added then added[images[i].id] else "rId_" + images[i].id;
      rels := rels + [Relationship(id, RelationshipType, "media/" + images[i].filename)];
      i := i + 1;
    }
  }

  /**
   * The archive `inject_images` writes for a source archive: the copied
   * and rewritten parts, the new media, the document with its markers
   * replaced and, when the source has none, a new relationships part; or
   * the error that stops it.
   */
  function Injected(entries: seq<Entry>, images: seq<ImageRecord>, files: map<string, File>): Result<seq<Entry>, InjectError> {
    match Streamed(entries, images, |entries|)
    case Err(e) => Err(e)
    case Ok(st) =>
      match ReadEntry(entries, DocumentName)
      case None => Err(MissingDocument)
      case Some(Utf8Text(t)) =>
        Ok(st.out + MediaAdded(images, Names(entries), files)
          + [Entry(DocumentName, Utf8Text(ReplaceMarkers(t, IdMap(images), st.added)))]
          + if DocumentRelsName in Names(entries) then []
            else [Entry(DocumentRelsName, RelsPart(CreatedRels(images, st.added)))])
      case Some(_) => Err(BadDocument)
  }

  /** `inject_images` from opening the raw document to the finished archive. */
  function Injection(files: map<string, File>, rawDocx: string, images: seq<ImageRecord>): Result<seq<Entry>, InjectError> {
    if rawDocx !in files then Err(InjectError.FileNotFound(rawDocx))
    else if !files[rawDocx].ZipArchive? then Err(InjectError.BadZip(rawDocx))
    else Injected(files[rawDocx].entries, images, files)
  }

  /** Builds the archive of `inject_images` without touching the file system. */
  method BuildArchive(files: map<string, File>, rawDocx: string, images: seq<ImageRecord>)
    returns (res: Result<seq<Entry>, InjectError>)
    ensures res == Injection(files, rawDocx, images)
  {
    if rawDocx !in files {
      return Err(InjectError.FileNotFound(rawDocx));
    }
    if !files[rawDocx].ZipArchive? {
      return Err(InjectError.BadZip(rawDocx));
    }
    var entries := files[rawDocx].entries;
    var streamed := StreamEntries(entries, images);
    if streamed.Err? {
      return Err(streamed.error);
    }
    var st := streamed.value;
    var media := AddMedia(images, Names(entries), files);
    var doc := ReadEntry(entries, DocumentName);
    if doc.None? {
      return Err(MissingDocument);
    }
    if !doc.value.Utf8Text? {
      return Err(BadDocument);
    }
    var out := st.out + media + [Entry(DocumentName, Utf8Text(ReplaceMarkers(doc.value.text, IdMap(images), st.added)))];
    if DocumentRelsName !in Names(entries) {
      var rels := CreateRels(images, st.added);
      out := out + [Entry(DocumentRelsName, RelsPart(rels))];
    } else {
      assert out + [] == out;
    }
    res := Ok(out);
  }

  /** `Path(raw_docx).parent / "_inject_tmp"`. */
  function TempDir(rawDocx: string): string {
    JoinPath(Parent(rawDocx), InjectDirName)
  }

  /** The temporary archive lies inside the temporary directory. */
  lemma TempOutUnder(rawDocx: string)
    ensures Under(JoinPath(TempDir(rawDocx), "output.docx"), TempDir(rawDocx))
  {
    var tmp := TempDir(rawDocx);
    assert InjectDirName[0] != '/';
    assert !StartsWith(InjectDirName, "/");
    assert |tmp| > 0 && tmp[|tmp| - 1] == 'p';
    assert !EndsWith(tmp, "/");
    assert JoinPath(tmp, "output.docx") == tmp + "/" + "output.docx";
  }

  /**
   * `inject_images`. Without images the raw document is copied as it is.
   * Otherwise the archive is built in a temporary directory next to the raw
   * document, copied to `outputPath` when it is complete, and the temporary
   * directory is removed whatever happened.
   */
  method InjectImages(fs: FileSystem, rawDocx: string, images: seq<ImageRecord>, outputPath: string)
    returns (r: Result<string, InjectError>)
    modifies fs
    ensures images == [] && rawDocx !in old(fs.files) ==>
      r == Err(InjectError.FileNotFound(rawDocx)) && fs.files == old(fs.files) && fs.dirs == old(fs.dirs)
    ensures images == [] && rawDocx in old(fs.files) ==>
      r == Ok(outputPath) && fs.files == old(fs.files)[outputPath := old(fs.files)[rawDocx]] && fs.dirs == old(fs.dirs)
    ensures images != [] ==>
      var res := Injection(old(fs.files), rawDocx, images);
      (res.Ok? ==> r == Ok(outputPath) && fs.files == Outside(old(fs.files)[outputPath := ZipArchive(res.value)], TempDir(rawDocx))) &&
      (res.Err? ==> r == Err(res.error) && fs.files == Outside(old(fs.files), TempDir(rawDocx)))
    ensures images != [] ==>
      var made := old(fs.dirs) + {TempDir(rawDocx)} +
        if Injection(old(fs.files), rawDocx, images).Ok? then {Parent(outputPath)} else {};
      fs.dirs == set d | d in made && d != TempDir(rawDocx) && !Under(d, TempDir(rawDocx))
  {
    if images == [] {
      if rawDocx !in fs.files {
        return Err(InjectError.FileNotFound(rawDocx));
      }
      fs.WriteFile(outputPath, fs.files[rawDocx]);
      return Ok(outputPath);
    }
    var tmp := TempDir(rawDocx);
    fs.MakeDir(tmp);
    var res := BuildArchive(fs.files, rawDocx, images);
    TempOutUnder(rawDocx);
    r := PublishArchive(fs, tmp, res, outputPath);
  }

  /**
   * The part of `inject_images` after the archive is built inside `tmp`:
   * a complete archive is written there and copied to `outputPath`, and
   * `tmp` is removed whatever happened.
   */
  method PublishArchive(fs: FileSystem, tmp: string, res: Result<seq<Entry>, InjectError>, outputPath: string)
    returns (r: Result<string, InjectError>)
    requires Under(JoinPath(tmp, "output.docx"), tmp)
    modifies fs
    ensures res.Ok? ==> r == Ok(outputPath) && fs.files == Outside(old(fs.files)[outputPath := ZipArchive(res.value)], tmp)
    ensures res.Err? ==> r == Err(res.error) && fs.files == Outside(old(fs.files), tmp)
    ensures fs.dirs == set d | d in old(fs.dirs) + (if res.Ok? then {Parent(outputPath)} else {}) && d != tmp && !Under(d, tmp)
  {
    var tmpOut := JoinPath(tmp, "output.docx");
    ghost var before := fs.files;
    if res.Ok? {
      fs.WriteFile(tmpOut, ZipArchive(res.value));
      fs.MakeDir(Parent(outputPath));
      fs.WriteFile(outputPath, ZipArchive(res.value));
      assert Outside(before[tmpOut := ZipArchive(res.value)][outputPath := ZipArchive(res.value)], tmp)
          == Outside(before[outputPath := ZipArchive(res.value)], tmp);
    }
    fs.RemoveTree(tmp);
    r := if res.Ok? then Ok(outputPath) else Err(res.error);
  }

  // ---------------------------------------------------------------------
  // what the injected archive holds

  /** The document part of the result is the source document with its markers replaced. */
  lemma InjectedDocument(entries: seq<Entry>, images: seq<ImageRecord>, files: map<string, File>, t: string)
    requires Injected(entries, images, files).Ok? && ReadEntry(entries, DocumentName) == Some(Utf8Text(t))
    ensures ReadEntry(Injected(entries, images, files).value, DocumentName) ==
      Some(Utf8Text(ReplaceMarkers(t, IdMap(images), Streamed(entries, images, |entries|).value.added)))
  {
    var st := Streamed(entries, images, |entries|).value;
    var head := st.out + MediaAdded(images, Names(entries), files);
    var doc := [Entry(DocumentName, Utf8Text(ReplaceMarkers(t, IdMap(images), st.added)))];
    var tail: seq<Entry> := if DocumentRelsName in Names(entries) then []
      else [Entry(DocumentRelsName, RelsPart(CreatedRels(images, st.added)))];
    assert Injected(entries, images, files).value == (head + doc) + tail;
    assert DocumentName !in Names(tail);
    ReadEntryAppend(head + doc, tail, DocumentName);
    ReadEntryAppend(head, doc, DocumentName);
  }

  /** A name none of the appended parts carries reads back from the front. */
  lemma ReadPastAdded(front: seq<Entry>, media: seq<Entry>, doc: seq<Entry>, tail: seq<Entry>, name: string)
    requires name !in Names(media) && name !in Names(doc) && name !in Names(tail)
    ensures ReadEntry(((front + media) + doc) + tail, name) == ReadEntry(front, name)
  {
    ReadEntryAppend((front + media) + doc, tail, name);
    ReadEntryAppend(front + media, doc, name);
    ReadEntryAppend(front, media, name);
  }

  /**
   * Every part other than the document, relationships and content-types
   * parts reads back from the result exactly as from the source archive.
   */
  lemma InjectedKeepsOthers(entries: seq<Entry>, images: seq<ImageRecord>, files: map<string, File>, name: string)
    requires Injected(entries, images, files).Ok? && !Special(name) && name in Names(entries)
    ensures ReadEntry(Injected(entries, images, files).value, name) == ReadEntry(entries, name)
  {
    var st := Streamed(entries, images, |entries|).value;
    var media := MediaAdded(images, Names(entries), files);
    var t := ReadEntry(entries, DocumentName).value.text;
    var doc := [Entry(DocumentName, Utf8Text(ReplaceMarkers(t, IdMap(images), st.added)))];
    var tail: seq<Entry> := if DocumentRelsName in Names(entries) then []
      else [Entry(DocumentRelsName, RelsPart(CreatedRels(images, st.added)))];
    assert Injected(entries, images, files).value == ((st.out + media) + doc) + tail;
    MediaAddedSpec(images, Names(entries), files, media);
    ReadPastAdded(st.out, media, doc, tail, name);
    assert entries[..|entries|] == entries;
    StreamedKeepsOthers(entries, images, |entries|, name);
  }

  /**
   * Without a relationships part nothing is recorded, so the document is
   * written back unchanged, markers included, and the relationships part
   * created for the images uses the `rId_<image id>` fallback ids.
   */
  lemma InjectedWithoutRels(entries: seq<Entry>, images: seq<ImageRecord>, files: map<string, File>, t: string)
    requires Injected(entries, images, files).Ok? && ReadEntry(entries, DocumentName) == Some(Utf8Text(t))
    requires DocumentRelsName !in Names(entries)
    ensures ReadEntry(Injected(entries, images, files).value, DocumentName) == Some(Utf8Text(t))
    ensures ReadEntry(Injected(entries, images, files).value, DocumentRelsName) ==
      Some(RelsPart(CreatedRels(images, map[])))
    ensures forall k :: 0 <= k < |images| ==> CreatedRels(images, map[])[k].id == "rId_" + images[k].id
  {
    assert entries[..|entries|] == entries;
    StreamedWithoutRels(entries, images, |entries|);
    InjectedDocument(entries, images, files, t);
    ReplaceWithoutRelIds(t, IdMap(images), map[]);
    InjectedCreatedRels(entries, images, files);
  }

  /** Without a relationships part, the one `_create_rels` makes is the last part written. */
  lemma InjectedCreatedRels(entries: seq<Entry>, images: seq<ImageRecord>, files: map<string, File>)
    requires Injected(entries, images, files).Ok? && DocumentRelsName !in Names(entries)
    ensures ReadEntry(Injected(entries, images, files).value, DocumentRelsName) ==
      Some(RelsPart(CreatedRels(images, Streamed(entries, images, |entries|).value.added)))
  {
    var r := Injected(entries, images, files).value;
    assert r == r[..|r| - 1] + [r[|r| - 1]];
    ReadEntryAppend(r[..|r| - 1], [r[|r| - 1]], DocumentRelsName);
  }

  /** Every image's id is a key of the id map. */
  lemma {:induction false} IdMapHas(images: seq<ImageRecord>, k: nat)
    requires k < |images|
    ensures images[k].id in IdMap(images)
    decreases |images|
  {
    if k < |images| - 1 {
      IdMapHas(images[..|images| - 1], k);
    }
  }

  /**
   * With a relationships part in the source, the marker of every image
   * becomes a drawing: it does not survive in the document.
   */
  lemma InjectedReplacesMarkers(entries: seq<Entry>, images: seq<ImageRecord>, digits: string, k: nat)
    requires Streamed(entries, images, |entries|).Ok? && DocumentRelsName in Names(entries)
    requires k < |images| && AllDigits(digits) && images[k].id == "image" + digits
    ensures Replacement(digits, IdMap(images), Streamed(entries, images, |entries|).value.added) != Marker(digits)
  {
    assert entries[..|entries|] == entries;
    StreamedRecordsAll(entries, images, |entries|);
    IdMapHas(images, k);
    ReplacementKnown(digits, IdMap(images), Streamed(entries, images, |entries|).value.added);
  }
}
