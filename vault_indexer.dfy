/**
 * The vault indexer's paragraph chunker and chunk ids: a document is split
 * at every run of two or more newlines, the pieces are stripped, short
 * ones are dropped, and each chunk is recorded under
 * `<file name>_chunk_<i>`.
 *
 * Two copies of the chunker exist; they differ only in the length a
 * stripped piece must exceed: 0 in the desktop bridge, 10 in the core
 * bridge.
 */
module VaultIndexer {
  import opened Text

  /** `s` starts with a blank-line separator. */
  predicate RunAt(s: string) {
    |s| >= 2 && s[0] == '\n' && s[1] == '\n'
  }

  /** `re.split(r'\n\n+', s)`: the pieces between maximal runs of two or more newlines. */
  function Paragraphs(s: string): (r: seq<string>)
    ensures |r| >= 1
    decreases |s|
  {
    if s == [] then [""]
    else if RunAt(s) then [""] + Paragraphs(s[RunOf(s, '\n')..])
    else
      var rest := Paragraphs(s[1..]);
      [[s[0]] + rest[0]] + rest[1..]
  }

  /** The lengths of the separator runs, in order. */
  function Separators(s: string): seq<nat>
    decreases |s|
  {
    if s == [] then []
    else if RunAt(s) then [RunOf(s, '\n')] + Separators(s[RunOf(s, '\n')..])
    else Separators(s[1..])
  }

  /** The pieces with the separator runs put back between them. */
  function Interleave(pieces: seq<string>, seps: seq<nat>): string
    requires |pieces| == |seps| + 1
  {
    if seps == [] then pieces[0]
    else pieces[0] + Repeat('\n', seps[0]) + Interleave(pieces[1..], seps[1..])
  }

  /** One piece more than separator runs, and every run has at least two newlines. */
  lemma {:induction false} ParagraphsCount(s: string)
    ensures |Paragraphs(s)| == |Separators(s)| + 1
    ensures forall k :: 0 <= k < |Separators(s)| ==> Separators(s)[k] >= 2
    decreases |s|
  {
    if s == [] {
    } else if RunAt(s) {
      ParagraphsCount(s[RunOf(s, '\n')..]);
    } else {
      ParagraphsCount(s[1..]);
    }
  }

  /** A character added in front of the first piece comes out in front of the text. */
  lemma InterleaveCons(c: char, pieces: seq<string>, seps: seq<nat>)
    requires |pieces| == |seps| + 1
    ensures Interleave([[c] + pieces[0]] + pieces[1..], seps) == [c] + Interleave(pieces, seps)
  {
    var ps := [[c] + pieces[0]] + pieces[1..];
    assert ps[0] == [c] + pieces[0];
    if seps != [] {
      assert ps[1..] == pieces[1..];
      var rest := Repeat('\n', seps[0]) + Interleave(pieces[1..], seps[1..]);
      assert Interleave(ps, seps) == ps[0] + rest;
      assert Interleave(pieces, seps) == pieces[0] + rest;
    }
  }

  /** The pieces and the runs of `s` put back together give `s`. */
  predicate RoundTrips(s: string) {
    |Paragraphs(s)| == |Separators(s)| + 1 && Interleave(Paragraphs(s), Separators(s)) == s
  }

  /** Splitting loses nothing but the separators: putting the runs back between the pieces gives the text again. */
  lemma {:induction false} ParagraphsRoundTrip(s: string)
    ensures |Paragraphs(s)| == |Separators(s)| + 1
    ensures Interleave(Paragraphs(s), Separators(s)) == s
    decreases |s|
  {
    if s == [] {
    } else if RunAt(s) {
      ParagraphsRoundTrip(s[RunOf(s, '\n')..]);
      RoundTripRunStep(s);
    } else {
      ParagraphsRoundTrip(s[1..]);
      RoundTripCharStep(s);
    }
  }

  /** A leading separator run: an empty piece and the run go in front of the rest. */
  lemma RoundTripRunStep(s: string)
    requires RunAt(s) && RoundTrips(s[RunOf(s, '\n')..])
    ensures RoundTrips(s)
  {
    var n := RunOf(s, '\n');
    var t := s[n..];
    RunSplitShape(s);
    InterleaveRun(Paragraphs(t), Separators(t), n);
    assert s == s[..n] + t;
  }

  /** A leading run splits off as an empty piece and a separator of its length. */
  lemma RunSplitShape(s: string)
    requires RunAt(s)
    ensures var n := RunOf(s, '\n');
      Paragraphs(s) == [""] + Paragraphs(s[n..]) && Separators(s) == [n] + Separators(s[n..]) &&
      s[..n] == Repeat('\n', n)
  {
  }

  lemma InterleaveRun(pieces: seq<string>, seps: seq<nat>, n: nat)
    requires |pieces| == |seps| + 1
    ensures Interleave([""] + pieces, [n] + seps) == Repeat('\n', n) + Interleave(pieces, seps)
  {
    var ps, ss := [""] + pieces, [n] + seps;
    assert ps[1..] == pieces && ss[1..] == seps;
    assert ps[0] + Repeat('\n', n) == Repeat('\n', n);
  }

  /** A leading ordinary character joins the first piece. */
  lemma RoundTripCharStep(s: string)
    requires s != [] && !RunAt(s) && RoundTrips(s[1..])
    ensures RoundTrips(s)
  {
    InterleaveCons(s[0], Paragraphs(s[1..]), Separators(s[1..]));
    assert s == [s[0]] + s[1..];
  }

  /** No two consecutive newlines: the piece holds no blank-line separator. */
  predicate NoBlankLine(p: string) {
    forall i :: 0 <= i < |p| - 1 ==> !(p[i] == '\n' && p[i + 1] == '\n')
  }

  /** No piece of `s` holds a separator, and the first piece is a prefix of `s`. */
  predicate PiecesClean(s: string) {
    (forall k :: 0 <= k < |Paragraphs(s)| ==> NoBlankLine(Paragraphs(s)[k])) &&
    var p := Paragraphs(s)[0]; |p| <= |s| && s[..|p|] == p
  }

  /** No piece contains a separator, and the first piece starts the text. */
  lemma {:induction false} ParagraphsNoBlankLine(s: string)
    ensures forall k :: 0 <= k < |Paragraphs(s)| ==> NoBlankLine(Paragraphs(s)[k])
    ensures var p := Paragraphs(s)[0]; |p| <= |s| && s[..|p|] == p
    decreases |s|
  {
    if s == [] {
    } else if RunAt(s) {
      ParagraphsNoBlankLine(s[RunOf(s, '\n')..]);
      NoBlankRunStep(s);
    } else {
      ParagraphsNoBlankLine(s[1..]);
      NoBlankCharStep(s);
    }
  }

  /** A leading separator run adds an empty piece. */
  lemma NoBlankRunStep(s: string)
    requires RunAt(s) && PiecesClean(s[RunOf(s, '\n')..])
    ensures PiecesClean(s)
  {
    assert Paragraphs(s)[1..] == Paragraphs(s[RunOf(s, '\n')..]);
  }

  /** A leading character that starts no run extends the first piece without making one. */
  lemma NoBlankCharStep(s: string)
    requires s != [] && !RunAt(s) && PiecesClean(s[1..])
    ensures PiecesClean(s)
  {
    var rest := Paragraphs(s[1..]);
    var p := [s[0]] + rest[0];
    assert Paragraphs(s)[1..] == rest[1..];
    forall i | 0 <= i < |p| - 1 ensures !(p[i] == '\n' && p[i + 1] == '\n') {
      if i > 0 {
        assert p[i] == rest[0][i - 1] && p[i + 1] == rest[0][i];
      } else {
        assert p[1] == s[1];
      }
    }
    assert s[..|p|] == [s[0]] + s[1..][..|rest[0]|];
  }

  /** `[c.strip() for c in pieces if len(c.strip()) > minLen]`. */
  function Stripped(pieces: seq<string>, minLen: nat): (r: seq<string>)
    ensures |r| <= |pieces|
  {
    if pieces == [] then []
    else
      var c := Strip(pieces[|pieces| - 1]);
      Stripped(pieces[..|pieces| - 1], minLen) + if |c| > minLen then [c] else []
  }

  /** `chunk_markdown` of the desktop bridge: every non-blank piece, stripped. */
  function ChunkMarkdown(content: string): seq<string> {
    Stripped(Paragraphs(content), 0)
  }

  /** `chunk_markdown` of the core bridge: the stripped pieces longer than ten characters. */
  function ChunkMarkdownCore(content: string): seq<string> {
    Stripped(Paragraphs(content), 10)
  }

  /** Filtering distributes over concatenation, so chunks keep the order of their pieces. */
  lemma {:induction false} StrippedAppend(a: seq<string>, b: seq<string>, minLen: nat)
    ensures Stripped(a + b, minLen) == Stripped(a, minLen) + Stripped(b, minLen)
    decreases |b|
  {
    if b == [] {
      assert a + b == a;
    } else {
      assert (a + b)[..|a + b| - 1] == a + b[..|b| - 1];
      StrippedAppend(a, b[..|b| - 1], minLen);
    }
  }

  /** The stripped form of a piece is a slice of it. */
  lemma StripIsSlice(p: string) returns (lo: nat, hi: nat)
    ensures lo <= hi <= |p| && Strip(p) == p[lo..hi]
  {
    var m := RStrip(p);
    RStripSpec(p);
    LStripSpec(m);
    lo, hi := |m| - |Strip(p)|, |m|;
  }

  /** Every chunk is stripped, longer than `minLen`, and the stripped form of a piece. */
  lemma {:induction false} StrippedSound(pieces: seq<string>, minLen: nat)
    ensures forall k :: 0 <= k < |Stripped(pieces, minLen)| ==> (
      Strip(Stripped(pieces, minLen)[k]) == Stripped(pieces, minLen)[k] && |Stripped(pieces, minLen)[k]| > minLen &&
      exists i :: 0 <= i < |pieces| && Stripped(pieces, minLen)[k] == Strip(pieces[i]))
  {
    if pieces != [] {
      var n := |pieces| - 1;
      StrippedSound(pieces[..n], minLen);
      var c := Strip(pieces[n]);
      var r := Stripped(pieces, minLen);
      var rf := Stripped(pieces[..n], minLen);
      StripFacts(pieces[n]);
      StripOfClean(c);
      forall k | 0 <= k < |r| ensures exists i :: 0 <= i < |pieces| && r[k] == Strip(pieces[i]) {
        if k < |rf| {
          var i :| 0 <= i < n && rf[k] == Strip(pieces[..n][i]);
          assert pieces[..n][i] == pieces[i];
        } else {
          assert r[k] == Strip(pieces[n]);
        }
      }
    }
  }

  /** A piece whose stripped form is longer than `minLen` gives a chunk. */
  lemma {:induction false} StrippedComplete(pieces: seq<string>, minLen: nat)
    ensures forall i :: 0 <= i < |pieces| && |Strip(pieces[i])| > minLen ==> Strip(pieces[i]) in Stripped(pieces, minLen)
  {
    if pieces != [] {
      var n := |pieces| - 1;
      StrippedComplete(pieces[..n], minLen);
      forall i | 0 <= i < |pieces| && |Strip(pieces[i])| > minLen ensures Strip(pieces[i]) in Stripped(pieces, minLen) {
        if i < n {
          assert pieces[..n][i] == pieces[i];
        }
      }
    }
  }

  /** Stripping keeps a piece free of separators. */
  lemma StripNoBlankLine(p: string)
    requires NoBlankLine(p)
    ensures NoBlankLine(Strip(p))
  {
    var c := Strip(p);
    var lo, hi := StripIsSlice(p);
    forall j | 0 <= j < |c| - 1 ensures !(c[j] == '\n' && c[j + 1] == '\n') {
      assert c[j] == p[lo + j] && c[j + 1] == p[lo + j + 1];
    }
  }

  /** Chunks of separator-free pieces are separator-free. */
  lemma {:induction false} StrippedNoBlankLine(pieces: seq<string>, minLen: nat)
    requires forall i :: 0 <= i < |pieces| ==> NoBlankLine(pieces[i])
    ensures forall k :: 0 <= k < |Stripped(pieces, minLen)| ==> NoBlankLine(Stripped(pieces, minLen)[k])
  {
    if pieces != [] {
      var n := |pieces| - 1;
      assert forall i :: 0 <= i < n ==> pieces[..n][i] == pieces[i];
      StrippedNoBlankLine(pieces[..n], minLen);
      StripNoBlankLine(pieces[n]);
    }
  }

  /**
   * Chunks of the desktop bridge are stripped, non-empty, in source order
   * and free of blank-line separators, and every non-blank paragraph gives
   * one.
   */
  lemma ChunkMarkdownSpec(content: string)
    ensures forall k :: 0 <= k < |ChunkMarkdown(content)| ==>
      (var c := ChunkMarkdown(content)[k]; c != "" && Strip(c) == c && NoBlankLine(c))
    ensures forall i :: 0 <= i < |Paragraphs(content)| && Strip(Paragraphs(content)[i]) != "" ==>
      Strip(Paragraphs(content)[i]) in ChunkMarkdown(content)
  {
    ParagraphsNoBlankLine(content);
    StrippedSound(Paragraphs(content), 0);
    StrippedComplete(Paragraphs(content), 0);
    StrippedNoBlankLine(Paragraphs(content), 0);
  }

  /** The chunks longer than `minLen` among those longer than 0. */
  function Longer(chunks: seq<string>, minLen: nat): seq<string> {
    if chunks == [] then []
    else Longer(chunks[..|chunks| - 1], minLen) + if |chunks[|chunks| - 1]| > minLen then [chunks[|chunks| - 1]] else []
  }

  /** The core chunker keeps exactly the desktop chunker's chunks that are longer than ten characters. */
  lemma {:induction false} CoreChunksAreLongDesktopChunks(pieces: seq<string>)
    ensures Stripped(pieces, 10) == Longer(Stripped(pieces, 0), 10)
  {
    if pieces != [] {
      var n := |pieces| - 1;
      CoreChunksAreLongDesktopChunks(pieces[..n]);
      var c := Strip(pieces[n]);
      var front := Stripped(pieces[..n], 0);
      if |c| > 0 {
        assert Stripped(pieces, 0)[..|Stripped(pieces, 0)| - 1] == front;
      } else {
        assert Stripped(pieces, 0) == front;
      }
    }
  }

  /** The core variant keeps a subset of the desktop variant's chunks, in the same order. */
  lemma CoreChunkMarkdown(content: string)
    ensures ChunkMarkdownCore(content) == Longer(ChunkMarkdown(content), 10)
  {
    CoreChunksAreLongDesktopChunks(Paragraphs(content));
  }

  // ---------------------------------------------------------------------
  // chunk ids

  /** `f"{name}_chunk_{i}"`. */
  function ChunkId(name: string, i: nat): string {
    name + "_chunk_" + NatToString(i)
  }

  /** One stored chunk: its id, text and metadata. */
  datatype Record = Record(id: string, document: string, source: string, filename: string)

  /** The records `index_document` adds for a document's chunks. */
  function Records(filePath: string, chunks: seq<string>): (r: seq<Record>)
    ensures |r| == |chunks|
  {
    var name := PathName(filePath);
    seq(|chunks|, i requires 0 <= i < |chunks| => Record(ChunkId(name, i), chunks[i], filePath, name))
  }

  /**
   * `index_document` on a path and its content, `None` when the file is
   * missing or unreadable: nothing happens unless the file name ends in
   * `.md` and the file could be read; otherwise the old chunks of this
   * source are replaced by the records of the new chunks.
   */
  function IndexDocument(filePath: string, content: Option<string>): Option<seq<Record>> {
    if Suffix(PathName(filePath)) != ".md" || content.None? then None
    else Some(Records(filePath, ChunkMarkdown(content.value)))
  }

  /**
   * Nothing is indexed unless the file name ends in `.md` and the file was
   * read; otherwise there is one record per chunk of the content, in order,
   * each a non-empty stripped paragraph under a distinct id `<name>_chunk_<i>`.
   */
  lemma IndexDocumentSpec(filePath: string, content: Option<string>)
    ensures IndexDocument(filePath, content).None? <==> Suffix(PathName(filePath)) != ".md" || content.None?
    ensures IndexDocument(filePath, content).Some? ==>
      var r := IndexDocument(filePath, content).value;
      var chunks := ChunkMarkdown(content.value);
      |r| == |chunks| &&
      (forall i :: 0 <= i < |r| ==>
        r[i].document == chunks[i] && r[i].document != "" && Strip(r[i].document) == r[i].document &&
        r[i].source == filePath && r[i].id == ChunkId(PathName(filePath), i)) &&
      (forall i, j :: 0 <= i < j < |r| ==> r[i].id != r[j].id)
  {
    if IndexDocument(filePath, content).Some? {
      RecordsSpec(filePath, ChunkMarkdown(content.value));
      ChunkMarkdownSpec(content.value);
    }
  }

  /**
   * One record per chunk, in order; record `i` carries chunk `i`, the
   * source path and the file name, and no two records share an id.
   */
  lemma RecordsSpec(filePath: string, chunks: seq<string>)
    ensures var r := Records(filePath, chunks);
      (forall i :: 0 <= i < |r| ==> (r[i].document == chunks[i] && r[i].source == filePath &&
        r[i].filename == PathName(filePath) && r[i].id == ChunkId(PathName(filePath), i))) &&
      (forall i, j :: 0 <= i < j < |r| ==> r[i].id != r[j].id)
  {
    var r := Records(filePath, chunks);
    forall i, j | 0 <= i < j < |r| ensures r[i].id != r[j].id {
      if r[i].id == r[j].id {
        ChunkIdInjective(PathName(filePath), i, j);
      }
    }
  }

  lemma ChunkIdInjective(name: string, i: nat, j: nat)
    requires ChunkId(name, i) == ChunkId(name, j)
    ensures i == j
  {
    var prefix := name + "_chunk_";
    assert ChunkId(name, i) == prefix + NatToString(i);
    assert NatToString(i) == ChunkId(name, i)[|prefix|..];
    assert NatToString(j) == ChunkId(name, j)[|prefix|..];
    NatToStringInjective(i, j);
  }

  /** The ids depend on the file name only: two paths with the same file name get the same ids. */
  lemma RecordIdsByName(p1: string, p2: string, chunks: seq<string>)
    requires PathName(p1) == PathName(p2)
    ensures forall i :: 0 <= i < |chunks| ==> Records(p1, chunks)[i].id == Records(p2, chunks)[i].id
  {
  }
}
