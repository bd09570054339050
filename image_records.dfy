/**
 * The image records the layout pipeline carries from the source `.docx` to
 * the injector: every file under `word/media/`, in sorted name order,
 * copied out, with the i-th drawing extent of the document as its size,
 * the relationship id that targets it, and the id `image<i+1>`.
 */
module ImageRecords {
  import opened Text
  import opened Files

  datatype ImageRecord = ImageRecord(
    id: string,
    filename: string,
    path: string,
    widthEmu: int,
    heightEmu: int,
    relId: string,
    ext: string)

  const DocumentName := "word/document.xml"
  const DocumentRelsName := "word/_rels/document.xml.rels"

  datatype RecordsError =
    | FileNotFound(path: string)   // the input does not exist
    | BadZip(path: string)         // the ZIP reader rejects it
    | MalformedRels                // the relationships part does not parse

  /** A media file: under `word/media/` and not a directory entry. */
  predicate IsMediaName(name: string) {
    StartsWith(name, "word/media/") && !EndsWith(name, "/")
  }

  function MediaNames(names: seq<string>): (r: seq<string>)
    ensures forall k :: 0 <= k < |r| ==> IsMediaName(r[k])
    ensures multiset(r) <= multiset(names)
  {
    if names == [] then []
    else
      var rest := MediaNames(names[1..]);
      assert names == [names[0]] + names[1..];
      if IsMediaName(names[0]) then [names[0]] + rest else rest
  }

  /** The media entries in code-point order, as `sorted` gives them. */
  function MediaList(entries: seq<Entry>): seq<string> {
    SortStrings(MediaNames(Names(entries)))
  }

  /** `Path(filename).suffix.lstrip(".")`: the extension without its dot, case kept. */
  function ExtOf(filename: string): string {
    var s := Suffix(filename);
    if s == [] then [] else s[1..]
  }

  /** The extension is empty or ends the name after a dot, and holds no dot itself. */
  lemma ExtOfEndsName(filename: string)
    ensures var e := ExtOf(filename);
      e == [] || ('.' !in e && EndsWith(filename, "." + e))
  {
    SuffixFacts(filename);
    var s := Suffix(filename);
    if s != [] {
      assert s == "." + s[1..];
    }
  }

  /** The record appended when a media file is copied: id, size and relationship id still blank. */
  function CopiedRecord(mediaName: string, outputDir: string): ImageRecord {
    var filename := PathName(mediaName);
    ImageRecord("", filename, JoinPath(outputDir, filename), 0, 0, "", ExtOf(filename))
  }

  /** The record with the size of the k-th extent, when there is one. */
  function Sized(rec: ImageRecord, k: nat, extents: seq<(int, int)>): ImageRecord {
    if k < |extents| then rec.(widthEmu := extents[k].0, heightEmu := extents[k].1) else rec
  }

  /** Base name → relationship id for relationships whose target contains `media/`; the last wins. */
  function MediaRelMap(rels: seq<Relationship>): map<string, string> {
    if rels == [] then map[]
    else
      var m := MediaRelMap(rels[..|rels| - 1]);
      var r := rels[|rels| - 1];
      if Contains(r.target, "media/") then m[PathName(r.target) := r.id] else m
  }

  function Get(m: map<string, string>, k: string): string {
    if k in m then m[k] else ""
  }

  /** The id given to the image at position k. */
  function ImageId(k: nat): string {
    "image" + NatToString(k + 1)
  }

  /** The files after copying the media files, in list order, into `outputDir`. */
  function CopiedFiles(files: map<string, File>, entries: seq<Entry>, media: seq<string>, outputDir: string)
    : map<string, File>
  {
    if media == [] then files
    else
      var m := CopiedFiles(files, entries, media[..|media| - 1], outputDir);
      var name := media[|media| - 1];
      match ReadEntry(entries, name)
      case Some(content) => m[JoinPath(outputDir, PathName(name)) := content]
      case None => m
  }

  /** The records right after copying: one per media file, in list order. */
  function Copied(media: seq<string>, outputDir: string): (r: seq<ImageRecord>)
    ensures |r| == |media|
  {
    seq(|media|, k requires 0 <= k < |media| => CopiedRecord(media[k], outputDir))
  }

  /** `_fill_sizes_and_ids`: the k-th record takes the k-th extent, when there is one. */
  function SizedAll(images: seq<ImageRecord>, extents: seq<(int, int)>): (r: seq<ImageRecord>)
    ensures |r| == |images|
  {
    seq(|images|, k requires 0 <= k < |images| => Sized(images[k], k, extents))
  }

  /** `_fill_rel_ids`: every record takes the relationship id of its file name, or "". */
  function WithRelIds(images: seq<ImageRecord>, relMap: map<string, string>): (r: seq<ImageRecord>)
    ensures |r| == |images|
  {
    seq(|images|, k requires 0 <= k < |images| => images[k].(relId := Get(relMap, images[k].filename)))
  }

  /** The final numbering: the k-th record gets `image<k+1>`. */
  function Numbered(images: seq<ImageRecord>): (r: seq<ImageRecord>)
    ensures |r| == |images|
  {
    seq(|images|, k requires 0 <= k < |images| => images[k].(id := ImageId(k)))
  }

  /** The relationships part exists but does not parse. */
  predicate RelsMalformed(entries: seq<Entry>) {
    var part := ReadEntry(entries, DocumentRelsName);
    part.Some? && !part.value.RelsPart?
  }

  /**
   * The records before numbering: copied in sorted order, sized from the
   * extents when the document part exists, and given relationship ids when
   * the relationships part exists.
   */
  function Unnumbered(entries: seq<Entry>, outputDir: string, extents: seq<(int, int)>): (r: seq<ImageRecord>)
    ensures |r| == |MediaList(entries)|
  {
    var copied := Copied(MediaList(entries), outputDir);
    var sized := if DocumentName in Names(entries) then SizedAll(copied, extents) else copied;
    match ReadEntry(entries, DocumentRelsName)
    case Some(RelsPart(rels)) => WithRelIds(sized, MediaRelMap(rels))
    case _ => sized
  }

  /** What `extract_images` returns for an archive, or the error it raises. */
  function Records(entries: seq<Entry>, outputDir: string, extents: seq<(int, int)>): Result<seq<ImageRecord>, RecordsError> {
    if RelsMalformed(entries) then Err(MalformedRels)
    else Ok(Numbered(Unnumbered(entries, outputDir, extents)))
  }

  /** Every name in the media list is the name of an entry. */
  lemma MediaListNames(entries: seq<Entry>)
    ensures forall k :: 0 <= k < |MediaList(entries)| ==> MediaList(entries)[k] in Names(entries)
    ensures forall k :: 0 <= k < |MediaList(entries)| ==> IsMediaName(MediaList(entries)[k])
  {
    var m := MediaNames(Names(entries));
    var s := MediaList(entries);
    forall k | 0 <= k < |s|
      ensures s[k] in Names(entries) && IsMediaName(s[k])
    {
      assert s[k] in multiset(s);
      assert s[k] in multiset(m);
      assert s[k] in multiset(Names(entries));
      var j :| 0 <= j < |m| && m[j] == s[k];
    }
  }

  /** One name more scanned: a media name joins the names found. */
  lemma MediaNamesStep(found: seq<string>, names: seq<string>, i: nat, target: seq<string>)
    requires i < |names| && found + MediaNames(names[i..]) == target
    ensures (found + if IsMediaName(names[i]) then [names[i]] else []) + MediaNames(names[i + 1..]) == target
  {
    var tail := names[i..];
    assert tail[0] == names[i] && tail[1..] == names[i + 1..];
    var head := if IsMediaName(names[i]) then [names[i]] else [];
    assert MediaNames(tail) == head + MediaNames(names[i + 1..]);
    calc {
      (found + head) + MediaNames(names[i + 1..]);
      found + (head + MediaNames(names[i + 1..]));
      target;
    }
  }

  /** One media file more copied: its record is appended. */
  lemma CopiedStep(media: seq<string>, i: nat, outputDir: string)
    requires i < |media|
    ensures Copied(media[..i], outputDir) + [CopiedRecord(media[i], outputDir)] == Copied(media[..i + 1], outputDir)
  {
    var a := Copied(media[..i], outputDir) + [CopiedRecord(media[i], outputDir)];
    var b := Copied(media[..i + 1], outputDir);
    assert |a| == |b|;
    forall k | 0 <= k < |a| ensures a[k] == b[k] {
      if k < i {
        assert a[k] == Copied(media[..i], outputDir)[k];
      }
    }
  }

  /** One media file more copied: its content is written under the output directory. */
  lemma CopyStep(files0: map<string, File>, entries: seq<Entry>, media: seq<string>, i: nat, outputDir: string)
    requires i < |media| && media[i] in Names(entries)
    ensures ReadEntry(entries, media[i]).Some?
    ensures CopiedFiles(files0, entries, media[..i], outputDir)[JoinPath(outputDir, PathName(media[i])) := ReadEntry(entries, media[i]).value] ==
      CopiedFiles(files0, entries, media[..i + 1], outputDir)
  {
    var m := media[..i + 1];
    assert m[..|m| - 1] == media[..i] && m[|m| - 1] == media[i];
  }

  /** The media entries of a name list, sorted. */
  method SortedMedia(names: seq<string>) returns (media: seq<string>)
    ensures media == SortStrings(MediaNames(names))
  {
    var found: seq<string> := [];
    var i := 0;
    while i < |names|
      invariant 0 <= i <= |names|
      invariant found + MediaNames(names[i..]) == MediaNames(names)
    {
      MediaNamesStep(found, names, i, MediaNames(names));
      if IsMediaName(names[i]) {
        found := found + [names[i]];
      }
      i := i + 1;
    }
    assert names[i..] == [];
    assert found + [] == found;
    media := SortStrings(found);
  }

  /** The copy loop: writes every media file into `outputDir` and records it. */
  method CopyMedia(fs: FileSystem, entries: seq<Entry>, media: seq<string>, outputDir: string)
    returns (images: seq<ImageRecord>)
    requires forall k :: 0 <= k < |media| ==> media[k] in Names(entries)
    modifies fs
    ensures images == Copied(media, outputDir)
    ensures fs.files == CopiedFiles(old(fs.files), entries, media, outputDir) && fs.dirs == old(fs.dirs)
  {
    images := [];
    var i := 0;
    while i < |media|
      invariant 0 <= i <= |media|
      invariant images == Copied(media[..i], outputDir)
      invariant fs.files == CopiedFiles(old(fs.files), entries, media[..i], outputDir)
      invariant fs.dirs == old(fs.dirs)
    {
      CopiedStep(media, i, outputDir);
      CopyStep(old(fs.files), entries, media, i, outputDir);
      var filename := PathName(media[i]);
      var outPath := JoinPath(outputDir, filename);
      var content := ReadEntry(entries, media[i]).value;
      fs.WriteFile(outPath, content);
      images := images + [ImageRecord("", filename, outPath, 0, 0, "", ExtOf(filename))];
      i := i + 1;
    }
    assert media[..i] == media;
  }

  /** `_fill_sizes_and_ids`, given the extents in document order. */
  method FillSizes(images: seq<ImageRecord>, extents: seq<(int, int)>) returns (r: seq<ImageRecord>)
    ensures r == SizedAll(images, extents)
  {
    r := images;
    var i := 0;
    while i < |r|
      invariant 0 <= i <= |r| && |r| == |images|
      invariant forall k :: 0 <= k < |r| ==> r[k] == if k < i then Sized(images[k], k, extents) else images[k]
    {
      if i < |extents| {
        r := r[i := r[i].(widthEmu := extents[i].0, heightEmu := extents[i].1)];
      }
      i := i + 1;
    }
  }

  /** `_fill_rel_ids`: the base-name map of the `media/` relationships, then one lookup per record. */
  method FillRelIds(images: seq<ImageRecord>, rels: seq<Relationship>) returns (r: seq<ImageRecord>)
    ensures r == WithRelIds(images, MediaRelMap(rels))
  {
    var relMap: map<string, string> := map[];
    var i := 0;
    while i < |rels|
      invariant 0 <= i <= |rels|
      invariant relMap == MediaRelMap(rels[..i])
    {
      assert rels[..i + 1][..i] == rels[..i];
      if Contains(rels[i].target, "media/") {
        relMap := relMap[PathName(rels[i].target) := rels[i].id];
      }
      i := i + 1;
    }
    assert rels[..i] == rels;
    r := images;
    i := 0;
    while i < |r|
      invariant 0 <= i <= |r| && |r| == |images|
      invariant forall k :: 0 <= k < |r| ==>
        r[k] == if k < i then images[k].(relId := Get(relMap, images[k].filename)) else images[k]
    {
      r := r[i := r[i].(relId := Get(relMap, r[i].filename))];
      i := i + 1;
    }
  }

  /** The id loop of `extract_images`. */
  method AssignIds(images: seq<ImageRecord>) returns (r: seq<ImageRecord>)
    ensures r == Numbered(images)
  {
    r := images;
    var i := 0;
    while i < |r|
      invariant 0 <= i <= |r| && |r| == |images|
      invariant forall k :: 0 <= k < |r| ==> r[k] == if k < i then images[k].(id := ImageId(k)) else images[k]
    {
      r := r[i := r[i].(id := ImageId(i))];
      i := i + 1;
    }
  }

  /**
   * `extract_images`: creates `outputDir`, copies every media file there,
   * then fills sizes, relationship ids and ids. `extents` are the `cx`/`cy`
   * pairs of the document's `wp:extent` elements in document order (a
   * missing attribute read as 0); they are used only when the archive has a
   * document part.
   */
  method ExtractRecords(fs: FileSystem, docxPath: string, outputDir: string, extents: seq<(int, int)>)
    returns (r: Result<seq<ImageRecord>, RecordsError>)
    modifies fs
    ensures fs.dirs == old(fs.dirs) + {outputDir}
    ensures docxPath !in old(fs.files) ==> r == Err(FileNotFound(docxPath)) && fs.files == old(fs.files)
    ensures docxPath in old(fs.files) && !old(fs.files)[docxPath].ZipArchive? ==>
      r == Err(BadZip(docxPath)) && fs.files == old(fs.files)
    ensures docxPath in old(fs.files) && old(fs.files)[docxPath].ZipArchive? ==>
      var entries := old(fs.files)[docxPath].entries;
      r == Records(entries, outputDir, extents) &&
      fs.files == CopiedFiles(old(fs.files), entries, MediaList(entries), outputDir)
  {
    fs.MakeDir(outputDir);
    if docxPath !in fs.files {
      return Err(FileNotFound(docxPath));
    }
    var source := fs.files[docxPath];
    if !source.ZipArchive? {
      return Err(BadZip(docxPath));
    }
    var entries := source.entries;
    var names := Names(entries);
    var media := SortedMedia(names);
    assert media == MediaList(entries);
    MediaListNames(entries);
    var images := CopyMedia(fs, entries, media, outputDir);
    if DocumentName in names {
      images := FillSizes(images, extents);
    }
    var relsPart := ReadEntry(entries, DocumentRelsName);
    if relsPart.Some? {
      if !relsPart.value.RelsPart? {
        return Err(MalformedRels);
      }
      images := FillRelIds(images, relsPart.value.rels);
    }
    images := AssignIds(images);
    r := Ok(images);
  }

  /** Numbering gives `image1 .. imageN` in list order, so the ids are pairwise distinct. */
  lemma NumberedIds(images: seq<ImageRecord>)
    ensures var r := Numbered(images);
      (forall k :: 0 <= k < |r| ==> r[k].id == "image" + NatToString(k + 1)) &&
      (forall j, k :: 0 <= j < k < |r| ==> r[j].id != r[k].id)
  {
    var r := Numbered(images);
    forall j, k | 0 <= j < k < |r|
      ensures r[j].id != r[k].id
    {
      if r[j].id == r[k].id {
        assert r[j].id[5..] == NatToString(j + 1);
        assert r[k].id[5..] == NatToString(k + 1);
        NatToStringInjective(j + 1, k + 1);
      }
    }
  }

  /** One record per media file, with ids `image1 .. imageN` that are pairwise distinct. */
  lemma RecordIds(entries: seq<Entry>, outputDir: string, extents: seq<(int, int)>)
    requires Records(entries, outputDir, extents).Ok?
    ensures var recs := Records(entries, outputDir, extents).value;
      |recs| == |MediaList(entries)| &&
      (forall k :: 0 <= k < |recs| ==> recs[k].id == "image" + NatToString(k + 1)) &&
      (forall j, k :: 0 <= j < k < |recs| ==> recs[j].id != recs[k].id)
  {
    NumberedIds(Unnumbered(entries, outputDir, extents));
  }

  /**
   * The k-th image takes the k-th extent as its size when the document part
   * exists and has that many extents; otherwise its size stays 0.
   */
  lemma RecordSizes(entries: seq<Entry>, outputDir: string, extents: seq<(int, int)>, k: nat)
    requires Records(entries, outputDir, extents).Ok?
    requires k < |MediaList(entries)|
    ensures var rec := Records(entries, outputDir, extents).value[k];
      if DocumentName in Names(entries) && k < |extents| then
        rec.widthEmu == extents[k].0 && rec.heightEmu == extents[k].1
      else rec.widthEmu == 0 && rec.heightEmu == 0
  {
  }

  /** The index of the last relationship with a `media/` target whose base name is `name`, or -1. */
  function LastMediaRel(rels: seq<Relationship>, name: string): (i: int)
    ensures -1 <= i < |rels|
    ensures i >= 0 ==> Contains(rels[i].target, "media/") && PathName(rels[i].target) == name
  {
    if rels == [] then -1
    else if Contains(rels[|rels| - 1].target, "media/") && PathName(rels[|rels| - 1].target) == name then |rels| - 1
    else LastMediaRel(rels[..|rels| - 1], name)
  }

  /** The map holds, for a base name, the id of the last relationship targeting it. */
  lemma {:induction false} MediaRelMapLookup(rels: seq<Relationship>, name: string)
    ensures var i := LastMediaRel(rels, name);
      Get(MediaRelMap(rels), name) == if i >= 0 then rels[i].id else ""
  {
    if rels != [] {
      MediaRelMapLookup(rels[..|rels| - 1], name);
    }
  }

  /**
   * An image's relationship id is that of the last relationship whose target
   * contains `media/` and has the image's file name, and "" when none does
   * or the archive has no relationships part.
   */
  lemma RecordRelIds(entries: seq<Entry>, outputDir: string, extents: seq<(int, int)>, k: nat)
    requires Records(entries, outputDir, extents).Ok?
    requires k < |MediaList(entries)|
    ensures var rec := Records(entries, outputDir, extents).value[k];
      var part := ReadEntry(entries, DocumentRelsName);
      if part.Some? then
        var i := LastMediaRel(part.value.rels, rec.filename);
        rec.relId == if i >= 0 then part.value.rels[i].id else ""
      else rec.relId == ""
  {
    var part := ReadEntry(entries, DocumentRelsName);
    if part.Some? {
      MediaRelMapLookup(part.value.rels, Records(entries, outputDir, extents).value[k].filename);
    }
  }

  /**
   * The records follow the sorted media list: each names the base name of
   * its media file, is copied into `outputDir` under that name, and carries
   * the extension of that name.
   */
  lemma RecordFiles(entries: seq<Entry>, outputDir: string, extents: seq<(int, int)>, k: nat)
    requires Records(entries, outputDir, extents).Ok?
    requires k < |MediaList(entries)|
    ensures var rec := Records(entries, outputDir, extents).value[k];
      var name := MediaList(entries)[k];
      IsMediaName(name) && rec.filename == PathName(name) && rec.path == JoinPath(outputDir, rec.filename) &&
      (rec.ext == [] || EndsWith(rec.filename, "." + rec.ext))
  {
    var media := MediaList(entries);
    var rec := CopiedRecord(media[k], outputDir);
    UnnumberedKeepsFile(entries, outputDir, extents, k);
    MediaListNames(entries);
    assert IsMediaName(media[k]);
    ExtOfEndsName(rec.filename);
  }

  /** Sizing and relationship ids leave the name, path and extension of a copied record alone. */
  lemma UnnumberedKeepsFile(entries: seq<Entry>, outputDir: string, extents: seq<(int, int)>, k: nat)
    requires k < |MediaList(entries)|
    ensures var rec := Unnumbered(entries, outputDir, extents)[k];
      var copied := CopiedRecord(MediaList(entries)[k], outputDir);
      rec.filename == copied.filename && rec.path == copied.path && rec.ext == copied.ext
  {
    var media := MediaList(entries);
    var c := Copied(media, outputDir);
    assert c[k] == CopiedRecord(media[k], outputDir);
    var sized := if DocumentName in Names(entries) then SizedAll(c, extents) else c;
    assert SameFile(sized[k], c[k]);
    var u := Unnumbered(entries, outputDir, extents);
    match ReadEntry(entries, DocumentRelsName)
    case Some(RelsPart(rels)) =>
      assert u == WithRelIds(sized, MediaRelMap(rels));
      assert SameFile(u[k], sized[k]);
    case _ =>
      assert u == sized;
  }

  /** Two records name the same copied file. */
  predicate SameFile(a: ImageRecord, b: ImageRecord) {
    a.filename == b.filename && a.path == b.path && a.ext == b.ext
  }
}
