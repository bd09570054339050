/**
 * Staging of the images of a `.docx` for the parser: the input must exist
 * and start with the ZIP signature; the images under `word/media/` with a
 * supported extension are copied into a fresh session directory, and the
 * map from file name to staged path is returned with that directory.
 */
module MediaExtractor {
  import opened Text
  import opened Files

  const SupportedExtensions: set<string> := {".png", ".jpg", ".jpeg", ".gif", ".bmp", ".webp", ".tiff"}

  const MediaPrefix := "word/media/"

  datatype ExtractError =
    | FileNotFound(path: string)     // the input does not exist
    | NotADocx(path: string)         // the input does not start with `PK`
    | BadZip(path: string)           // it starts with `PK` but the ZIP reader rejects it

  /** The session id: the first 8 hex digits of a random UUID. */
  predicate IsSessionId(s: string) {
    |s| == 8 && forall i :: 0 <= i < 8 ==> IsDigit(s[i]) || 'a' <= s[i] <= 'f'
  }

  /** An entry that is extracted: under `word/media/`, with a supported lower-cased suffix. */
  predicate IsStagedImage(name: string) {
    StartsWith(name, MediaPrefix) && Lower(Suffix(PathName(name))) in SupportedExtensions
  }

  /** A staged entry whose file name is `name`. */
  predicate StagedAs(e: Entry, name: string) {
    IsStagedImage(e.name) && PathName(e.name) == name
  }

  /** File name → staged path, over the entries in order. */
  function StagedMap(entries: seq<Entry>, outDir: string): map<string, string> {
    if entries == [] then map[]
    else
      var m := StagedMap(entries[..|entries| - 1], outDir);
      var e := entries[|entries| - 1];
      if IsStagedImage(e.name) then m[PathName(e.name) := JoinPath(outDir, PathName(e.name))] else m
  }

  /** The files after copying the staged images into `outDir`, a later entry overwriting an earlier one. */
  function StagedFiles(files: map<string, File>, entries: seq<Entry>, outDir: string): map<string, File> {
    if entries == [] then files
    else
      var m := StagedFiles(files, entries[..|entries| - 1], outDir);
      var e := entries[|entries| - 1];
      if IsStagedImage(e.name) then m[JoinPath(outDir, PathName(e.name)) := e.content] else m
  }

  /**
   * `extract_images`. The paths are taken as already resolved; `sessionId`
   * is the random session id.
   */
  method ExtractImages(fs: FileSystem, docxPath: string, tempRoot: string, sessionId: string)
    returns (r: Result<(map<string, string>, string), ExtractError>)
    requires IsSessionId(sessionId)
    modifies fs
    ensures docxPath !in old(fs.files) ==> r == Err(FileNotFound(docxPath)) && unchanged(fs)
    ensures docxPath in old(fs.files) && !HasZipMagic(old(fs.files)[docxPath]) ==>
      r == Err(NotADocx(docxPath)) && unchanged(fs)
    ensures docxPath in old(fs.files) && HasZipMagic(old(fs.files)[docxPath]) ==>
      var outDir := JoinPath(tempRoot, sessionId);
      fs.dirs == old(fs.dirs) + {outDir} &&
      match old(fs.files)[docxPath]
      case ZipArchive(entries) =>
        r == Ok((StagedMap(entries, outDir), outDir + "/")) &&
        fs.files == StagedFiles(old(fs.files), entries, outDir)
      case _ => r == Err(BadZip(docxPath)) && fs.files == old(fs.files)
  {
    if docxPath !in fs.files {
      return Err(FileNotFound(docxPath));
    }
    var source := fs.files[docxPath];
    if !HasZipMagic(source) {
      return Err(NotADocx(docxPath));
    }
    var outDir := JoinPath(tempRoot, sessionId);
    fs.MakeDir(outDir);
    if !source.ZipArchive? {
      return Err(BadZip(docxPath));
    }
    var imageMap := StageEntries(fs, source.entries, outDir);
    r := Ok((imageMap, outDir + "/"));
  }

  /** The loop of `extract_images` over the archive's entries. */
  method StageEntries(fs: FileSystem, entries: seq<Entry>, outDir: string) returns (imageMap: map<string, string>)
    modifies fs
    ensures imageMap == StagedMap(entries, outDir)
    ensures fs.files == StagedFiles(old(fs.files), entries, outDir) && fs.dirs == old(fs.dirs)
  {
    ghost var files0 := fs.files;
    imageMap := map[];
    var i := 0;
    while i < |entries|
      invariant 0 <= i <= |entries|
      invariant imageMap == StagedMap(entries[..i], outDir)
      invariant fs.files == StagedFiles(files0, entries[..i], outDir)
      invariant fs.dirs == old(fs.dirs)
    {
      var entry := entries[i];
      StagedStep(entries, i, outDir, files0, imageMap, fs.files);
      if IsStagedImage(entry.name) {
        var filename := PathName(entry.name);
        var outputPath := JoinPath(outDir, filename);
        fs.WriteFile(outputPath, entry.content);
        imageMap := imageMap[filename := outputPath];
      }
      i := i + 1;
    }
    assert entries[..i] == entries;
  }

  /** One round of the staging loop: a staged image adds its file and its map entry, any other entry nothing. */
  lemma StagedStep(entries: seq<Entry>, i: nat, outDir: string, files0: map<string, File>,
                   imageMap: map<string, string>, files: map<string, File>)
    requires i < |entries|
    requires imageMap == StagedMap(entries[..i], outDir) && files == StagedFiles(files0, entries[..i], outDir)
    ensures var e := entries[i];
      var path := JoinPath(outDir, PathName(e.name));
      (IsStagedImage(e.name) ==>
        imageMap[PathName(e.name) := path] == StagedMap(entries[..i + 1], outDir) &&
        files[path := e.content] == StagedFiles(files0, entries[..i + 1], outDir)) &&
      (!IsStagedImage(e.name) ==>
        imageMap == StagedMap(entries[..i + 1], outDir) && files == StagedFiles(files0, entries[..i + 1], outDir))
  {
    var pre := entries[..i + 1];
    assert pre[..|pre| - 1] == entries[..i] && pre[|pre| - 1] == entries[i];
  }

  /** The index of the last staged entry whose file name is `name`, or -1. */
  function LastStaged(entries: seq<Entry>, name: string): (i: int)
    ensures -1 <= i < |entries|
    ensures i >= 0 ==> StagedAs(entries[i], name)
  {
    if entries == [] then -1
    else if StagedAs(entries[|entries| - 1], name) then
      |entries| - 1
    else LastStaged(entries[..|entries| - 1], name)
  }

  /** No staged entry after the one `LastStaged` finds has the same file name. */
  lemma {:induction false} LastStagedIsLast(entries: seq<Entry>, name: string, j: int)
    requires LastStaged(entries, name) < j < |entries|
    ensures !StagedAs(entries[j], name)
  {
    var n := |entries| - 1;
    var front := entries[..n];
    if j < n {
      assert LastStaged(entries, name) == LastStaged(front, name);
      LastStagedIsLast(front, name, j);
      assert front[j] == entries[j];
    }
  }

  /**
   * A file name is in the map exactly when some staged entry has it, and it
   * maps to its path inside the session directory.
   */
  lemma {:induction false} StagedMapLookup(entries: seq<Entry>, outDir: string, name: string)
    ensures name in StagedMap(entries, outDir) <==> LastStaged(entries, name) >= 0
    ensures name in StagedMap(entries, outDir) ==> StagedMap(entries, outDir)[name] == JoinPath(outDir, name)
  {
    if entries != [] {
      var n := |entries| - 1;
      StagedMapLookup(entries[..n], outDir, name);
    }
  }

  /** Distinct base names give distinct paths inside one directory. */
  lemma JoinPathInjective(dir: string, a: string, b: string)
    requires '/' !in a && '/' !in b
    requires JoinPath(dir, a) == JoinPath(dir, b)
    ensures a == b
  {
    if |a| > 0 { assert a[0] != '/'; }
    if |b| > 0 { assert b[0] != '/'; }
    assert !StartsWith(a, "/") && !StartsWith(b, "/");
    if dir != [] && !EndsWith(dir, "/") {
      assert JoinPath(dir, a) == dir + "/" + a;
      assert a == JoinPath(dir, a)[|dir| + 1..];
    } else if dir != [] {
      assert a == JoinPath(dir, a)[|dir|..];
    }
  }

  /**
   * The staged copy of a file name holds the content of the LAST entry with
   * that name: entries with the same base name overwrite one another.
   */
  lemma {:induction false} StagedFilesLastWins(files: map<string, File>, entries: seq<Entry>, outDir: string, name: string)
    requires LastStaged(entries, name) >= 0
    ensures var path := JoinPath(outDir, name);
      path in StagedFiles(files, entries, outDir) &&
      StagedFiles(files, entries, outDir)[path] == entries[LastStaged(entries, name)].content
  {
    var n := |entries| - 1;
    var e := entries[n];
    var front := entries[..n];
    if !StagedAs(e, name) {
      var last := LastStaged(front, name);
      assert LastStaged(entries, name) == last;
      StagedFilesLastWins(files, front, outDir, name);
      assert front[last] == entries[last];
      PathNameNoSlash(front[last].name);
      StagedFilesOther(files, entries, outDir, name);
    }
  }

  /** A last entry with another file name leaves the staged copy of `name` alone. */
  lemma StagedFilesOther(files: map<string, File>, entries: seq<Entry>, outDir: string, name: string)
    requires entries != [] && '/' !in name
    requires !StagedAs(entries[|entries| - 1], name)
    requires JoinPath(outDir, name) in StagedFiles(files, entries[..|entries| - 1], outDir)
    ensures var path := JoinPath(outDir, name);
      path in StagedFiles(files, entries, outDir) &&
      StagedFiles(files, entries, outDir)[path] == StagedFiles(files, entries[..|entries| - 1], outDir)[path]
  {
    var e := entries[|entries| - 1];
    if IsStagedImage(e.name) {
      var other := PathName(e.name);
      PathNameNoSlash(e.name);
      if JoinPath(outDir, other) == JoinPath(outDir, name) {
        JoinPathInjective(outDir, other, name);
      }
    }
  }

  /**
   * With a session directory that is a proper path, every staged file lies
   * inside it, so nothing outside the directory changes.
   */
  lemma {:induction false} StagingStaysInside(files: map<string, File>, entries: seq<Entry>, outDir: string)
    requires outDir != [] && outDir[|outDir| - 1] != '/'
    ensures Outside(StagedFiles(files, entries, outDir), outDir) == Outside(files, outDir)
  {
    if entries != [] {
      var n := |entries| - 1;
      var e := entries[n];
      StagingStaysInside(files, entries[..n], outDir);
      if IsStagedImage(e.name) {
        var name := PathName(e.name);
        PathNameNoSlash(e.name);
        if |name| > 0 { assert name[0] != '/'; }
        assert !EndsWith(outDir, "/");
        assert JoinPath(outDir, name) == outDir + "/" + name;
        assert Under(JoinPath(outDir, name), outDir);
      }
    }
  }

  /** `cleanup_session`: removes the directory when it exists; otherwise does nothing. */
  method CleanupSession(fs: FileSystem, imageBaseDir: string)
    modifies fs
    ensures var target := TrimSlashes(imageBaseDir);
      if target in old(fs.dirs) then
        fs.files == Outside(old(fs.files), target) &&
        fs.dirs == set d | d in old(fs.dirs) && d != target && !Under(d, target)
      else fs.files == old(fs.files) && fs.dirs == old(fs.dirs)
  {
    var target := TrimSlashes(imageBaseDir);
    if target in fs.dirs {
      fs.RemoveTree(target);
    }
  }

  /** The session directory is `temp_root/<id>`, never ends in `/`, and the returned base adds one `/`. */
  lemma SessionDirShape(tempRoot: string, sessionId: string)
    requires IsSessionId(sessionId)
    ensures var outDir := JoinPath(tempRoot, sessionId);
      EndsWith(outDir, sessionId) && outDir != [] && outDir[|outDir| - 1] != '/' &&
      TrimSlashes(outDir + "/") == outDir
  {
    var outDir := JoinPath(tempRoot, sessionId);
    assert sessionId[0] != '/';
    assert !StartsWith(sessionId, "/");
    assert outDir[|outDir| - 1] == sessionId[7];
    assert (outDir + "/")[..|outDir|] == outDir;
  }

  /**
   * Extracting and then cleaning up the returned directory leaves every file
   * outside the session directory as it was before the extraction.
   */
  lemma CleanupUndoesExtraction(files: map<string, File>, entries: seq<Entry>, tempRoot: string, sessionId: string)
    requires IsSessionId(sessionId)
    ensures var outDir := JoinPath(tempRoot, sessionId);
      Outside(StagedFiles(files, entries, outDir), TrimSlashes(outDir + "/")) == Outside(files, outDir)
  {
    SessionDirShape(tempRoot, sessionId);
    StagingStaysInside(files, entries, JoinPath(tempRoot, sessionId));
  }
}
