/**
 * Files, directories and `.docx` packages, as the extraction and injection
 * code sees them.
 *
 * A file's content is either plain bytes or, for a file that the ZIP reader
 * accepts, the archive's entries; an entry's content is again a file
 * content, and the three package parts that the code parses as XML are
 * given in parsed form.
 */
module Files {
  import opened Text

  newtype byte = x: int | 0 <= x < 256

  /** A `<Relationship>` of a relationships part. */
  datatype Relationship = Relationship(id: string, relType: string, target: string)

  /** A child of `[Content_Types].xml`. */
  datatype TypeEntry =
    | Default(extension: string, contentType: string)
    | Override(partName: string, contentType: string)

  datatype File =
    | Bytes(data: seq<byte>)                // content with no structure the code relies on
    | ZipArchive(entries: seq<Entry>)       // a ZIP archive, its entries in directory order
    | Utf8Text(text: string)                // the UTF-8 encoding of `text` (the document part)
    | RelsPart(rels: seq<Relationship>)     // a relationships part
    | TypesPart(types: seq<TypeEntry>)      // a content-types part

  datatype Entry = Entry(name: string, content: File)

  /**
   * Whether the first two bytes are `PK`, the first two bytes of the local
   * file header signature of section 4.3.7 of the PKWARE APPNOTE. An ordinary
   * ZIP archive starts with one (or, when empty, with the end of central
   * directory record, which also starts `PK`); an XML part starts with `<`.
   */
  predicate HasZipMagic(f: File) {
    match f
    case Bytes(d) => |d| >= 2 && d[0] == 0x50 && d[1] == 0x4B
    case ZipArchive(_) => true
    case Utf8Text(s) => |s| >= 2 && s[0] == 'P' && s[1] == 'K'
    case RelsPart(_) => false
    case TypesPart(_) => false
  }

  /** The entry names in directory order, which is what `namelist()` returns. */
  function Names(entries: seq<Entry>): (r: seq<string>)
    ensures |r| == |entries|
    ensures forall i :: 0 <= i < |entries| ==> r[i] == entries[i].name
  {
    seq(|entries|, i requires 0 <= i < |entries| => entries[i].name)
  }

  /** `read(name)`: the content of the last entry with that name, as the reader indexes names. */
  function ReadEntry(entries: seq<Entry>, name: string): (r: Option<File>)
    ensures r.Some? <==> name in Names(entries)
  {
    if entries == [] then None
    else
      var last := entries[|entries| - 1];
      var front := entries[..|entries| - 1];
      assert Names(entries) == Names(front) + [last.name];
      if last.name == name then Some(last.content) else ReadEntry(front, name)
  }

  /** Reading from a concatenation: the second part wins for the names it holds. */
  lemma {:induction false} ReadEntryAppend(a: seq<Entry>, b: seq<Entry>, name: string)
    ensures ReadEntry(a + b, name) == if name in Names(b) then ReadEntry(b, name) else ReadEntry(a, name)
    decreases |b|
  {
    if b == [] {
      assert a + b == a;
    } else {
      var front := b[..|b| - 1];
      assert (a + b)[..|a + b| - 1] == a + front;
      assert Names(b) == Names(front) + [b[|b| - 1].name];
      ReadEntryAppend(a, front, name);
    }
  }

  /** A path strictly inside the directory. */
  predicate Under(path: string, dir: string) {
    StartsWith(path, dir + "/")
  }

  /** The files that are not inside the directory. */
  function Outside(files: map<string, File>, dir: string): (r: map<string, File>)
    ensures forall p :: p in r <==> p in files && !Under(p, dir)
  {
    map p | p in files && !Under(p, dir) :: files[p]
  }

  /**
   * `Path(p).parent` as a string for a path with a `/`: everything before
   * the last `/`. For a bare name this gives "" where `pathlib` gives ".";
   * the paths the model passes are resolved, so they always hold a `/`.
   */
  function Parent(path: string): (r: string)
    ensures |r| <= |path|
  {
    var i := LastIndexOf(path, '/');
    if i < 0 then "" else if i == 0 then "/" else path[..i]
  }

  /** The files and directories of the machine the program runs on. */
  class FileSystem {
    var files: map<string, File>
    var dirs: set<string>

    constructor (files0: map<string, File>, dirs0: set<string>)
      ensures files == files0 && dirs == dirs0
    {
      files := files0;
      dirs := dirs0;
    }

    /** Creates or replaces a file. */
    method WriteFile(path: string, content: File)
      modifies this
      ensures files == old(files)[path := content] && dirs == old(dirs)
    {
      files := files[path := content];
    }

    /** `mkdir(exist_ok=True)`; the parents are not modelled. */
    method MakeDir(path: string)
      modifies this
      ensures dirs == old(dirs) + {path} && files == old(files)
    {
      dirs := dirs + {path};
    }

    /** `shutil.rmtree`: the directory and everything inside it. */
    method RemoveTree(dir: string)
      modifies this
      ensures files == Outside(old(files), dir)
      ensures dirs == set d | d in old(dirs) && d != dir && !Under(d, dir)
    {
      files := Outside(files, dir);
      dirs := set d | d in dirs && d != dir && !Under(d, dir);
    }
  }
}
