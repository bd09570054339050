/**
 * The structured-markdown parser: front matter, the block tokenizer and the
 * per-tag conversion of blocks into elements.
 *
 * Lines are always produced by splitting on `\n`, so no line handled here
 * contains a newline; the regular expressions of the parser are modelled as
 * the scanners they amount to on such lines.
 */
module MdParser {
  import opened Text
  import opened Models

  // =====================================================================
  // Front matter

  /** A line that is `---` followed only by whitespace. */
  predicate IsDelimiterLine(line: string) {
    StartsWith(line, "---") && AllSpace(line[3..])
  }

  /**
   * The first closing delimiter at index `from` or later that is still
   * followed by a newline (so it is not the last piece), or `|pieces|`.
   */
  function FindClosing(pieces: seq<string>, from: nat): (j: nat)
    requires from <= |pieces|
    ensures from <= j
    ensures j < |pieces| ==> j + 1 < |pieces| && IsDelimiterLine(pieces[j])
    ensures j == |pieces| || j + 1 < |pieces|
    ensures forall k :: from <= k < j && k + 1 < |pieces| ==> !IsDelimiterLine(pieces[k])
    decreases |pieces| - from
  {
    if from + 1 >= |pieces| then |pieces|
    else if IsDelimiterLine(pieces[from]) then from
    else FindClosing(pieces, from + 1)
  }

  /**
   * The first piece at `from` or later that is not whitespace only, or the
   * last piece when there is none: where the body begins after the closing
   * delimiter has consumed the blank lines that follow it.
   */
  function FirstContentLine(pieces: seq<string>, from: nat): (k: nat)
    requires from < |pieces|
    ensures from <= k < |pieces|
    ensures forall i :: from <= i < k ==> AllSpace(pieces[i])
    decreases |pieces| - from
  {
    if from + 1 == |pieces| || !AllSpace(pieces[from]) then from
    else FirstContentLine(pieces, from + 1)
  }

  /** The lines between the delimiters, and the body after them. */
  datatype FrontSplit = FrontSplit(headerLines: seq<string>, body: string)

  /** Whether a closing delimiter follows a header that starts at piece `s`. */
  predicate ClosesFrom(pieces: seq<string>, s: nat)
    requires s < |pieces|
  {
    FindClosing(pieces, s + 1) < |pieces|
  }

  /**
   * Where the header starts and where its closing delimiter lies, when the
   * opening `---` is followed by whitespace-only lines up to piece `s`. The
   * opening `\s*` of the regular expression is greedy and swallows those
   * lines; it gives them back one at a time only when no closing delimiter
   * can be found, so the latest start that has a closing wins.
   */
  function Opening(pieces: seq<string>, s: nat): (r: Option<(nat, nat)>)
    requires 1 <= s < |pieces|
    ensures r.Some? ==> 1 <= r.value.0 <= s && r.value.1 == FindClosing(pieces, r.value.0 + 1) < |pieces|
    ensures r.Some? ==> forall t :: r.value.0 < t <= s ==> !ClosesFrom(pieces, t)
    ensures r.None? ==> forall t :: 1 <= t <= s ==> !ClosesFrom(pieces, t)
    decreases s
  {
    if ClosesFrom(pieces, s) then Some((s, FindClosing(pieces, s + 1)))
    else if s == 1 then None
    else Opening(pieces, s - 1)
  }

  /**
   * Where the front matter of `text` ends: `None` when the text does not
   * open with a delimiter line that a second delimiter line closes. The
   * header starts after the whitespace-only lines that follow the opening
   * delimiter, unless only giving some of them back lets a closing be found.
   */
  function SplitFrontmatter(text: string): Option<FrontSplit> {
    var pieces := Split(text, '\n');
    if |pieces| >= 2 && IsDelimiterLine(pieces[0]) then
      match Opening(pieces, FirstContentLine(pieces, 1))
      case None => None
      case Some((s, j)) =>
        var k := FirstContentLine(pieces, j + 1);
        Some(FrontSplit(pieces[s..j], Join(pieces[k..], "\n")))
    else None
  }

  /**
   * A header line split at its first `:` into a lower-cased trimmed key and
   * a trimmed value with surrounding quotes removed; `None` without a `:`.
   */
  function KeyValue(line: string): Option<(string, string)> {
    var i := IndexOf(line, ':');
    if i == |line| then None
    else Some((Lower(Strip(line[..i])), StripChar(StripChar(Strip(line[i + 1..]), '"'), '\'')))
  }

  /** The metadata field named `key`, or "" for any other key. */
  function Field(m: DocMeta, key: string): string {
    if key == "title" then m.title
    else if key == "author" then m.author
    else if key == "chapter" then m.chapter
    else if key == "sub" then m.sub
    else ""
  }

  predicate IsMetaKey(key: string) {
    key == "title" || key == "author" || key == "chapter" || key == "sub"
  }

  /** A parsed header line applied to the metadata read so far. */
  function ApplyKeyValue(m: DocMeta, kv: Option<(string, string)>): DocMeta {
    match kv
    case None => m
    case Some(p) =>
      if p.0 == "title" then m.(title := p.1)
      else if p.0 == "author" then m.(author := p.1)
      else if p.0 == "chapter" then m.(chapter := p.1)
      else if p.0 == "sub" then m.(sub := p.1)
      else m
  }

  /** A header line sets the field its key names and leaves the others alone. */
  lemma ApplyKeyValueField(m: DocMeta, kv: Option<(string, string)>, key: string)
    requires IsMetaKey(key)
    ensures Field(ApplyKeyValue(m, kv), key) ==
      (if kv.Some? && kv.value.0 == key then kv.value.1 else Field(m, key))
  {
  }

  /** Every header line parsed. */
  function ParseLines(lines: seq<string>): (kvs: seq<Option<(string, string)>>)
    ensures |kvs| == |lines|
    ensures forall j :: 0 <= j < |lines| ==> kvs[j] == KeyValue(lines[j])
  {
    if lines == [] then [] else ParseLines(lines[..|lines| - 1]) + [KeyValue(lines[|lines| - 1])]
  }

  /** Parsed header lines applied in order, starting from all-empty metadata. */
  function FoldMeta(kvs: seq<Option<(string, string)>>): DocMeta {
    if kvs == [] then EmptyMeta
    else ApplyKeyValue(FoldMeta(kvs[..|kvs| - 1]), kvs[|kvs| - 1])
  }

  /** The metadata after reading `lines` in order. */
  function MetaFrom(lines: seq<string>): DocMeta {
    FoldMeta(ParseLines(lines))
  }

  /** `_parse_frontmatter`: the metadata and the remaining body. */
  method ParseFrontmatter(text: string) returns (meta: DocMeta, body: string)
    ensures SplitFrontmatter(text).None? ==> meta == EmptyMeta && body == text
    ensures SplitFrontmatter(text).Some? ==>
      meta == MetaFrom(SplitFrontmatter(text).value.headerLines) &&
      body == SplitFrontmatter(text).value.body
  {
    meta := EmptyMeta;
    var split := SplitFrontmatter(text);
    if split.None? {
      return meta, text;
    }
    var lines := split.value.headerLines;
    var i := 0;
    while i < |lines|
      invariant 0 <= i <= |lines|
      invariant meta == FoldMeta(ParseLines(lines)[..i])
    {
      var kv := KeyValue(lines[i]);
      FoldMetaStep(ParseLines(lines), i, meta);
      meta := ApplyLine(meta, kv);
      i := i + 1;
    }
    assert ParseLines(lines)[..i] == ParseLines(lines);
    body := split.value.body;
  }

  /** One round of the header loop: the key, if it names a field, sets that field. */
  method ApplyLine(meta0: DocMeta, kv: Option<(string, string)>) returns (meta: DocMeta)
    ensures meta == ApplyKeyValue(meta0, kv)
  {
    meta := meta0;
    if kv.Some? {
      var key := kv.value.0;
      var val := kv.value.1;
      if key == "title" {
        meta := meta.(title := val);
      } else if key == "author" {
        meta := meta.(author := val);
      } else if key == "chapter" {
        meta := meta.(chapter := val);
      } else if key == "sub" {
        meta := meta.(sub := val);
      }
    }
  }

  lemma FoldMetaStep(kvs: seq<Option<(string, string)>>, i: nat, meta: DocMeta)
    requires i < |kvs| && meta == FoldMeta(kvs[..i])
    ensures ApplyKeyValue(meta, kvs[i]) == FoldMeta(kvs[..i + 1])
  {
    assert kvs[..i + 1][..i] == kvs[..i];
  }

  /** A field no header line names stays "". */
  lemma {:induction false} FoldMetaUnset(kvs: seq<Option<(string, string)>>, key: string)
    requires IsMetaKey(key)
    requires forall j :: 0 <= j < |kvs| ==> kvs[j].None? || kvs[j].value.0 != key
    ensures Field(FoldMeta(kvs), key) == ""
  {
    if kvs != [] {
      var init := kvs[..|kvs| - 1];
      assert forall j :: 0 <= j < |init| ==> init[j] == kvs[j];
      FoldMetaUnset(init, key);
      ApplyKeyValueField(FoldMeta(init), kvs[|kvs| - 1], key);
    }
  }

  /** The last header line naming a field decides it; earlier ones are overwritten. */
  lemma {:induction false} FoldMetaLastAssignment(kvs: seq<Option<(string, string)>>, key: string, i: nat)
    requires IsMetaKey(key)
    requires i < |kvs| && kvs[i].Some? && kvs[i].value.0 == key
    requires forall j :: i < j < |kvs| ==> kvs[j].None? || kvs[j].value.0 != key
    ensures Field(FoldMeta(kvs), key) == kvs[i].value.1
  {
    var init := kvs[..|kvs| - 1];
    if i < |kvs| - 1 {
      assert forall j :: 0 <= j < |init| ==> init[j] == kvs[j];
      FoldMetaLastAssignment(init, key, i);
    }
    ApplyKeyValueField(FoldMeta(init), kvs[|kvs| - 1], key);
  }

  /** A value that reads back unchanged: one line, trimmed, not quoted. */
  predicate PlainValue(v: string) {
    '\n' !in v && ':' !in v &&
    (v == [] || (!IsSpace(v[0]) && !IsSpace(v[|v| - 1]) &&
                 v[0] != '"' && v[|v| - 1] != '"' && v[0] != '\'' && v[|v| - 1] != '\''))
  }

  /** The header block written for `m`, followed by `body`. */
  function RenderFrontmatter(m: DocMeta, body: string): string {
    JoinLines(["---"] + HeaderLines(m) + ["---"]) + body
  }

  lemma PlainValueReadsBack(key: string, v: string)
    requires PlainValue(v)
    requires |key| > 0 && forall i :: 0 <= i < |key| ==> 'a' <= key[i] <= 'z'
    ensures KeyValue(HeaderLine(key, v)) == Some((key, v))
  {
    LowerOfLowercase(key);
    assert ':' !in key;
    ColonSpaceSplit(key, v);
    KeyValueAtFirstColon(key, " " + v);
    StripOfClean(key);
    StripSpaceThenClean(v);
    StripCharNoop(v, '"');
    StripCharNoop(v, '\'');
  }

  lemma MetaLineReadsBack(key: string, v: string)
    requires IsMetaKey(key) && PlainValue(v)
    ensures KeyValue(HeaderLine(key, v)) == Some((key, v))
  {
    if key == "title" {
      PlainValueReadsBack("title", v);
    } else if key == "author" {
      PlainValueReadsBack("author", v);
    } else if key == "chapter" {
      PlainValueReadsBack("chapter", v);
    } else {
      PlainValueReadsBack("sub", v);
    }
  }

  lemma {:induction false} LowerOfLowercase(s: string)
    requires forall i :: 0 <= i < |s| ==> 'a' <= s[i] <= 'z'
    ensures Lower(s) == s
  {
    if s != [] {
      LowerOfLowercase(s[1..]);
    }
  }

  lemma ColonSpaceSplit(key: string, v: string)
    ensures key + ": " + v == key + [':'] + (" " + v)
  {
  }

  lemma KeyValueAtFirstColon(key: string, rest: string)
    requires ':' !in key
    ensures KeyValue(key + [':'] + rest) ==
      Some((Lower(Strip(key)), StripChar(StripChar(Strip(rest), '"'), '\'')))
  {
    var line := key + [':'] + rest;
    IndexOfAfter(key, ':', rest);
    assert line[..|key|] == key;
    assert line[|key| + 1..] == rest;
  }

  lemma StripSpaceThenClean(v: string)
    requires v == [] || (!IsSpace(v[0]) && !IsSpace(v[|v| - 1]))
    ensures Strip(" " + v) == v
  {
    if v == [] {
      assert RStrip(" ") == [];
    } else {
      assert RStrip(" " + v) == " " + v;
      assert (" " + v)[1..] == v;
      StripOfClean(v);
    }
  }

  /**
   * Front matter written for plain values reads back as the same metadata,
   * and a body that does not open with whitespace comes back unchanged.
   */
  lemma FrontmatterRoundTrip(m: DocMeta, body: string)
    requires PlainValue(m.title) && PlainValue(m.author) && PlainValue(m.chapter) && PlainValue(m.sub)
    requires body == [] || !IsSpace(body[0])
    ensures SplitFrontmatter(RenderFrontmatter(m, body)).Some?
    ensures MetaFrom(SplitFrontmatter(RenderFrontmatter(m, body)).value.headerLines) == m
    ensures SplitFrontmatter(RenderFrontmatter(m, body)).value.body == body
  {
    FrontmatterSplits(m, body);
    HeaderLinesReadBack(m);
  }

  /** The rendered text splits into the four header lines and the body. */
  lemma FrontmatterSplits(m: DocMeta, body: string)
    requires PlainValue(m.title) && PlainValue(m.author) && PlainValue(m.chapter) && PlainValue(m.sub)
    requires body == [] || !IsSpace(body[0])
    ensures SplitFrontmatter(RenderFrontmatter(m, body)) == Some(FrontSplit(HeaderLines(m), body))
  {
    var hs := HeaderLines(m);
    var ls := ["---"] + hs + ["---"];
    HeaderBlockNoNewline(m);
    SplitJoinedLines(ls, body);
    PiecesSplit(hs, body);
  }

  /**
   * A blank line after the opening delimiter is swallowed by the greedy
   * `\s*`, so a `---` right after it starts the header instead of closing
   * an empty one: the header is that `---` line and `title: X`. The text
   * is `"---\n\n---\ntitle: X\n---\nbody"`.
   */
  lemma BlankAfterOpeningSwallowed()
    ensures SplitFrontmatter(JoinLines(["---", "", "---", "title: X", "---"]) + "body") ==
      Some(FrontSplit(["---", "title: X"], "body"))
    ensures FrontmatterOf(JoinLines(["---", "", "---", "title: X", "---"]) + "body") == (EmptyMeta.(title := "X"), "body")
  {
    var pieces := ["---", "", "---", "title: X", "---", "body"];
    PiecesOfLines(["---", "", "---", "title: X", "---"], "body");
    SwallowedOpening(pieces);
    SplitAt(JoinLines(["---", "", "---", "title: X", "---"]) + "body", pieces, 2, 2, 4, 5);
    SwallowedMeta();
  }

  lemma TitleLineReads()
    ensures KeyValue("title: X") == Some(("title", "X"))
  {
    assert PlainValue("X");
    MetaLineReadsBack("title", "X");
    assert HeaderLine("title", "X") == "title: X";
  }

  lemma DelimiterHasNoKey()
    ensures KeyValue("---") == None
  {
    IndexOfSpec("---", ':');
  }

  lemma SwallowedMeta()
    ensures MetaFrom(["---", "title: X"]) == EmptyMeta.(title := "X")
  {
    TitleLineReads();
    DelimiterHasNoKey();
    TitleAfterKeyless("---", "title: X", "X");
  }

  /** A line without a key, then a title line: only the title is set. */
  lemma TitleAfterKeyless(l0: string, l1: string, v: string)
    requires KeyValue(l0) == None && KeyValue(l1) == Some(("title", v))
    ensures MetaFrom([l0, l1]) == EmptyMeta.(title := v)
  {
    var kvs := ParseLines([l0, l1]);
    assert kvs == [None, Some(("title", v))];
    assert kvs[..1][..0] == [];
    assert FoldMeta(kvs[..1]) == EmptyMeta;
  }

  lemma SwallowedOpening(pieces: seq<string>)
    requires pieces == ["---", "", "---", "title: X", "---", "body"]
    ensures IsDelimiterLine(pieces[0]) && FirstContentLine(pieces, 1) == 2
    ensures Opening(pieces, 2) == Some((2, 4)) && FirstContentLine(pieces, 5) == 5
    ensures pieces[2..4] == ["---", "title: X"] && Join(pieces[5..], "\n") == "body"
  {
    assert !IsSpace(pieces[2][0]);
    assert !IsDelimiterLine(pieces[3]);
    assert FindClosing(pieces, 3) == 4;
  }

  /**
   * The same swallowing makes the lines between a second and a third `---`
   * part of the header: `# H` and `Text` never reach the body. The text is
   * `"---\n\n---\n# H\nText\n---\nMore"`.
   */
  lemma BlankAfterOpeningDropsContent()
    ensures SplitFrontmatter(JoinLines(["---", "", "---", "# H", "Text", "---"]) + "More") ==
      Some(FrontSplit(["---", "# H", "Text"], "More"))
  {
    var pieces := ["---", "", "---", "# H", "Text", "---", "More"];
    PiecesOfLines(["---", "", "---", "# H", "Text", "---"], "More");
    DroppingOpening(pieces);
    SplitAt(JoinLines(["---", "", "---", "# H", "Text", "---"]) + "More", pieces, 2, 2, 5, 6);
  }

  lemma DroppingOpening(pieces: seq<string>)
    requires pieces == ["---", "", "---", "# H", "Text", "---", "More"]
    ensures IsDelimiterLine(pieces[0]) && FirstContentLine(pieces, 1) == 2
    ensures Opening(pieces, 2) == Some((2, 5)) && FirstContentLine(pieces, 6) == 6
    ensures pieces[2..5] == ["---", "# H", "Text"] && Join(pieces[6..], "\n") == "More"
  {
    assert !IsSpace(pieces[2][0]);
    assert !IsDelimiterLine(pieces[3]) && !IsDelimiterLine(pieces[4]);
    assert FindClosing(pieces, 4) == 5;
    assert FindClosing(pieces, 3) == 5;
  }

  /**
   * When no closing follows the swallowed lines, the `\s*` gives them back:
   * the `---` after the blank line then closes a header holding that line.
   * The text is `"---\n\n---\nbody"`.
   */
  lemma BlankAfterOpeningGivenBack()
    ensures SplitFrontmatter(JoinLines(["---", "", "---"]) + "body") == Some(FrontSplit([""], "body"))
  {
    var pieces := ["---", "", "---", "body"];
    PiecesOfLines(["---", "", "---"], "body");
    GivenBackOpening(pieces);
    SplitAt(JoinLines(["---", "", "---"]) + "body", pieces, 2, 1, 2, 3);
  }

  lemma GivenBackOpening(pieces: seq<string>)
    requires pieces == ["---", "", "---", "body"]
    ensures IsDelimiterLine(pieces[0]) && FirstContentLine(pieces, 1) == 2
    ensures Opening(pieces, 2) == Some((1, 2)) && FirstContentLine(pieces, 3) == 3
    ensures pieces[1..2] == [""] && Join(pieces[3..], "\n") == "body"
  {
    assert !IsSpace(pieces[2][0]);
    assert !ClosesFrom(pieces, 2);
    assert FindClosing(pieces, 2) == 2;
  }





  /** The split of a text whose pieces, opening and closing are known. */
  lemma SplitAt(text: string, pieces: seq<string>, first: nat, s: nat, j: nat, k: nat)
    requires Split(text, '\n') == pieces && |pieces| >= 2 && IsDelimiterLine(pieces[0])
    requires first == FirstContentLine(pieces, 1) && Opening(pieces, first) == Some((s, j))
    requires k == FirstContentLine(pieces, j + 1)
    ensures SplitFrontmatter(text) == Some(FrontSplit(pieces[s..j], Join(pieces[k..], "\n")))
  {
  }

  /** Newline-free lines, each ended by a newline, then a newline-free last line. */
  lemma PiecesOfLines(ls: seq<string>, last: string)
    requires NoNewline(ls) && '\n' !in last
    ensures Split(JoinLines(ls) + last, '\n') == ls + [last]
  {
    assert Split(last, '\n') == [last] by {
      IndexOfSpec(last, '\n');
    }
    SplitJoinedLines(ls, last);
  }

  /** The header block of plain values holds no newline inside a line. */
  lemma HeaderBlockNoNewline(m: DocMeta)
    requires PlainValue(m.title) && PlainValue(m.author) && PlainValue(m.chapter) && PlainValue(m.sub)
    ensures NoNewline(["---"] + HeaderLines(m) + ["---"])
    ensures forall i :: 0 <= i < 4 ==> HeaderLines(m)[i] != [] && HeaderLines(m)[i][0] != '-'
    ensures !IsSpace(HeaderLines(m)[0][0])
  {
    HeaderLineNoNewline("title", m.title);
    HeaderLineNoNewline("author", m.author);
    HeaderLineNoNewline("chapter", m.chapter);
    HeaderLineNoNewline("sub", m.sub);
    var ls := ["---"] + HeaderLines(m) + ["---"];
    forall i | 0 <= i < |ls| ensures '\n' !in ls[i] {
      if 1 <= i <= 4 {
        assert ls[i] == HeaderLines(m)[i - 1];
      }
    }
  }

  lemma HeaderLineNoNewline(key: string, v: string)
    requires key != [] && '\n' !in key && key[0] != '-' && '\n' !in v
    ensures '\n' !in HeaderLine(key, v) && HeaderLine(key, v) != [] && HeaderLine(key, v)[0] == key[0]
  {
    var h := HeaderLine(key, v);
    assert h == key + (": " + v);
    forall i | 0 <= i < |h| ensures h[i] != '\n' {
      if i >= |key| + 2 {
        assert h[i] == v[i - |key| - 2];
      } else if i < |key| {
        assert h[i] == key[i];
      }
    }
  }

  /** Where the delimiters, the header lines and the body lie among the pieces. */
  lemma PiecesSplit(hs: seq<string>, body: string)
    requires |hs| == 4 && forall i :: 0 <= i < 4 ==> hs[i] != [] && hs[i][0] != '-'
    requires !IsSpace(hs[0][0])
    requires body == [] || !IsSpace(body[0])
    ensures var pieces := (["---"] + hs + ["---"]) + Split(body, '\n');
      |pieces| >= 7 && IsDelimiterLine(pieces[0]) && FirstContentLine(pieces, 1) == 1 &&
      Opening(pieces, 1) == Some((1, 5)) &&
      FirstContentLine(pieces, 6) == 6 && pieces[1..5] == hs && Join(pieces[6..], "\n") == body
  {
    var sb := Split(body, '\n');
    var pieces := (["---"] + hs + ["---"]) + sb;
    assert pieces[0] == "---" && pieces[5] == "---";
    assert IsDelimiterLine(pieces[0]);
    NotDelimiter(pieces[2]);
    NotDelimiter(pieces[3]);
    NotDelimiter(pieces[4]);
    assert FindClosing(pieces, 2) == 5;
    assert !AllSpace(pieces[1]);
    FirstLineOfBody(body);
    assert pieces[6..] == sb;
    assert FirstContentLine(pieces, 6) == 6;
    SplitJoin(body, '\n');
    assert pieces[1..5] == hs;
  }

  /** The header line written for one field. */
  function HeaderLine(key: string, v: string): string {
    key + ": " + v
  }

  /** The four header lines written for `m`. */
  function HeaderLines(m: DocMeta): seq<string> {
    [HeaderLine("title", m.title), HeaderLine("author", m.author),
     HeaderLine("chapter", m.chapter), HeaderLine("sub", m.sub)]
  }

  lemma NotDelimiter(line: string)
    requires line != [] && line[0] != '-'
    ensures !IsDelimiterLine(line)
  {
  }

  lemma FirstLineOfBody(body: string)
    requires body == [] || !IsSpace(body[0])
    ensures var sb := Split(body, '\n');
      (body == [] ==> sb == [""]) && (body != [] ==> !AllSpace(sb[0]))
  {
    if body != [] {
      var i := IndexOf(body, '\n');
      assert body[0] != '\n';
      assert Split(body, '\n')[0] == body[..i];
      assert body[..i][0] == body[0];
    }
  }

  lemma HeaderLinesReadBack(m: DocMeta)
    requires PlainValue(m.title) && PlainValue(m.author) && PlainValue(m.chapter) && PlainValue(m.sub)
    ensures MetaFrom(HeaderLines(m)) == m
  {
    MetaLineReadsBack("title", m.title);
    MetaLineReadsBack("author", m.author);
    MetaLineReadsBack("chapter", m.chapter);
    MetaLineReadsBack("sub", m.sub);
    ParseFourLines(HeaderLine("title", m.title), HeaderLine("author", m.author),
                   HeaderLine("chapter", m.chapter), HeaderLine("sub", m.sub));
    FoldFourFields(m);
  }

  lemma ParseFourLines(a: string, b: string, c: string, d: string)
    ensures ParseLines([a, b, c, d]) == [KeyValue(a), KeyValue(b), KeyValue(c), KeyValue(d)]
  {
    var kvs := ParseLines([a, b, c, d]);
    assert kvs[0] == KeyValue(a) && kvs[1] == KeyValue(b) && kvs[2] == KeyValue(c) && kvs[3] == KeyValue(d);
  }

  lemma FoldFourFields(m: DocMeta)
    ensures FoldMeta([Some(("title", m.title)), Some(("author", m.author)),
                      Some(("chapter", m.chapter)), Some(("sub", m.sub))]) == m
  {
    var kvs := [Some(("title", m.title)), Some(("author", m.author)),
                Some(("chapter", m.chapter)), Some(("sub", m.sub))];
    assert kvs[..1][..0] == [];
    assert kvs[..2][..1] == kvs[..1];
    assert kvs[..3][..2] == kvs[..2];
    assert kvs[..4] == kvs;
    assert FoldMeta(kvs[..1]) == DocMeta(m.title, "", "", "");
    assert FoldMeta(kvs[..2]) == DocMeta(m.title, m.author, "", "");
    assert FoldMeta(kvs[..3]) == DocMeta(m.title, m.author, m.chapter, "");
  }

  // =====================================================================
  // Block tokenizer

  /** `_Block`: a tag, its `|` parameters and the lines gathered under it. */
  datatype Block = Block(tag: string, params: seq<string>, lines: seq<string>)

  /** The untagged block the tokenizer starts with and returns to. */
  const BodyBlock := Block("body", [], [])

  /** `_Block.text`: the lines joined by newlines, trimmed. */
  function BlockText(b: Block): string {
    Strip(Join(b.lines, "\n"))
  }

  /** A finished block is kept when it has lines or an explicit tag. */
  predicate Kept(b: Block) {
    b.lines != [] || b.tag != "body"
  }

  /** `blocks` with `current` appended if it is kept. */
  function Closed(blocks: seq<Block>, current: Block): (r: seq<Block>)
    ensures r == blocks || (r == blocks + [current] && Kept(current))
    ensures Kept(current) ==> r == blocks + [current]
  {
    if Kept(current) then blocks + [current] else blocks
  }

  datatype TagLine = TagLine(tag: string, params: seq<string>)

  /**
   * A `[name]` or `[name | p1 | p2 ...]` line, with no trailing whitespace:
   * the name is the non-empty text up to the first `|` (no `]` inside),
   * lower-cased and trimmed; the parameters are the trimmed `|` pieces of
   * the rest, or none when the rest is blank.
   */
  function ParseTagLine(line: string): Option<TagLine> {
    if |line| >= 2 && line[0] == '[' && line[|line| - 1] == ']' then
      var inner := line[1..|line| - 1];
      if ']' in inner then None
      else
        var p := IndexOf(inner, '|');
        if p == 0 then None
        else
          var tag := Lower(Strip(inner[..p]));
          if p == |inner| then Some(TagLine(tag, []))
          else
            var args := LStrip(inner[p + 1..]);
            Some(TagLine(tag, if args == [] then [] else StripAll(Split(args, '|'))))
    else None
  }

  /** 1, 2 or 3 for a `#`, `##` or `###` heading line, 0 for any other line. */
  function HeadingLevel(line: string): (h: nat)
    ensures h <= 3
    ensures h > 0 ==> |line| >= h + 2 && IsSpace(line[h]) && forall k :: 0 <= k < h ==> line[k] == '#'
  {
    if |line| >= 3 && line[0] == '#' && IsSpace(line[1]) then 1
    else if |line| >= 4 && line[0] == '#' && line[1] == '#' && IsSpace(line[2]) then 2
    else if |line| >= 5 && line[0] == '#' && line[1] == '#' && line[2] == '#' && IsSpace(line[3]) then 3
    else 0
  }

  function HeadingTag(h: nat): string {
    if h == 1 then "h1" else if h == 2 then "h2" else "h3"
  }

  /** A horizontal rule: three or more dashes (the line has no trailing whitespace). */
  predicate IsRuleLine(line: string) {
    |line| >= 3 && forall i :: 0 <= i < |line| ==> line[i] == '-'
  }

  /** The tokenizer's state: the finished blocks and the open one. */
  datatype TokState = TokState(blocks: seq<Block>, current: Block)

  const StartState := TokState([], BodyBlock)

  /** One source line fed to the tokenizer. */
  function TokStep(st: TokState, raw: string): TokState {
    var line := RStrip(raw);
    match ParseTagLine(line)
    case Some(tl) => TokState(Closed(st.blocks, st.current), Block(tl.tag, tl.params, []))
    case None =>
      var h := HeadingLevel(line);
      if h > 0 then
        TokState(Closed(st.blocks, st.current) + [Block(HeadingTag(h), [], [Strip(line[h + 1..])])], BodyBlock)
      else if IsRuleLine(line) && st.current.tag == "body" && st.current.lines == [] then
        TokState(st.blocks + [Block("hr", [], [])], st.current)
      else
        TokState(st.blocks, st.current.(lines := st.current.lines + [line]))
  }

  /** The state after feeding `lines` in order. */
  function TokFold(lines: seq<string>): TokState {
    if lines == [] then StartState
    else TokStep(TokFold(lines[..|lines| - 1]), lines[|lines| - 1])
  }

  /** The blocks of `lines`, the open block closed at the end. */
  function TokenizeLines(lines: seq<string>): seq<Block> {
    var st := TokFold(lines);
    Closed(st.blocks, st.current)
  }

  /** `_tokenize`. */
  method Tokenize(body: string) returns (blocks: seq<Block>)
    ensures blocks == TokenizeLines(SplitLines(body))
  {
    var lines := SplitLines(body);
    blocks := [];
    var current := BodyBlock;
    var i := 0;
    while i < |lines|
      invariant 0 <= i <= |lines|
      invariant TokState(blocks, current) == TokFold(lines[..i])
    {
      assert lines[..i + 1][..i] == lines[..i];
      assert TokFold(lines[..i + 1]) == TokStep(TokState(blocks, current), lines[i]);
      blocks, current := TokenizeLine(blocks, current, lines[i]);
      i := i + 1;
    }
    assert lines[..i] == lines;
    if current.lines != [] || current.tag != "body" {
      blocks := blocks + [current];
    }
  }

  /** One round of the `_tokenize` loop. */
  method TokenizeLine(blocks0: seq<Block>, current0: Block, raw: string) returns (blocks: seq<Block>, current: Block)
    ensures TokState(blocks, current) == TokStep(TokState(blocks0, current0), raw)
  {
    blocks, current := blocks0, current0;
    var line := RStrip(raw);
    var tagLine := ParseTagLine(line);
    if tagLine.Some? {
      if current.lines != [] || current.tag != "body" {
        blocks := blocks + [current];
      }
      current := Block(tagLine.value.tag, tagLine.value.params, []);
    } else {
      var h := HeadingLevel(line);
      if h > 0 {
        if current.lines != [] || current.tag != "body" {
          blocks := blocks + [current];
        }
        blocks := blocks + [Block(HeadingTag(h), [], [Strip(line[h + 1..])])];
        current := BodyBlock;
      } else if IsRuleLine(line) && current.tag == "body" && current.lines == [] {
        blocks := blocks + [Block("hr", [], [])];
      } else {
        current := current.(lines := current.lines + [line]);
      }
    }
  }

  /**
   * A rule line opens an `hr` block only while the open block is the
   * untagged body with no lines yet; anywhere else it is an ordinary line.
   */
  lemma RuleLineRule(st: TokState, raw: string)
    requires IsRuleLine(RStrip(raw))
    ensures TokStep(st, raw) ==
      if st.current.tag == "body" && st.current.lines == [] then
        TokState(st.blocks + [Block("hr", [], [])], st.current)
      else
        TokState(st.blocks, st.current.(lines := st.current.lines + [RStrip(raw)]))
  {
    var line := RStrip(raw);
    assert line[0] == '-';
  }

  /** Every block the tokenizer returns is kept: no empty untagged block survives. */
  lemma TokenizedBlocksKept(lines: seq<string>)
    ensures forall b :: b in TokenizeLines(lines) ==> Kept(b)
  {
    TokFoldKept(lines);
  }

  lemma {:induction false} TokFoldKept(lines: seq<string>)
    ensures forall b :: b in TokFold(lines).blocks ==> Kept(b)
  {
    if lines != [] {
      TokFoldKept(lines[..|lines| - 1]);
    }
  }

  /** A line that the tokenizer treats as text: no tag, heading or rule. */
  predicate PlainLine(raw: string) {
    var line := RStrip(raw);
    ParseTagLine(line).None? && HeadingLevel(line) == 0 && !IsRuleLine(line)
  }

  /** Plain lines all land, right-trimmed and in order, in one untagged block. */
  lemma {:induction false} PlainLinesFormOneBlock(lines: seq<string>)
    requires forall i :: 0 <= i < |lines| ==> PlainLine(lines[i])
    ensures TokFold(lines) == TokState([], Block("body", [], seq(|lines|, i requires 0 <= i < |lines| => RStrip(lines[i]))))
  {
    if lines != [] {
      var init := lines[..|lines| - 1];
      assert forall i :: 0 <= i < |init| ==> init[i] == lines[i];
      PlainLinesFormOneBlock(init);
    }
  }

  // =====================================================================
  // Block conversion

  /**
   * A trimmed heading text of the form `N. Title`: the digits `N` and the
   * title after the dot and the whitespace; `None` otherwise.
   */
  function SplitNumbered(text: string): Option<(string, string)> {
    var d := DigitRun(text);
    if 0 < d && d + 1 < |text| && text[d] == '.' && IsSpace(text[d + 1]) then
      var title := LStrip(text[d + 1..]);
      if title != [] && '\n' !in title then Some((text[..d], title)) else None
    else None
  }

  /** The `h1` element: numbered when the text has the `N. Title` form, else `•`. */
  function H1Element(text: string): Element {
    match SplitNumbered(text)
    case Some(nt) => TextEl(H1, nt.1, nt.0, "", "", 0, false, false)
    case None => TextEl(H1, text, "\U{2022}", "", "", 0, false, false)
  }

  /** `N. Title` splits back into the numeral `N` and the title. */
  lemma NumberedHeadingRoundTrip(num: string, title: string)
    requires AllDigits(num)
    requires title != [] && !IsSpace(title[0]) && '\n' !in title
    ensures H1Element(num + ". " + title) == TextEl(H1, title, num, "", "", 0, false, false)
  {
    var text := num + ". " + title;
    assert text == num + (". " + title);
    DigitRunStops(num, ". " + title);
    assert text[|num|] == '.' && text[|num| + 1] == ' ';
    assert text[|num| + 1..] == " " + title;
    assert LStrip(" " + title) == title by {
      assert (" " + title)[1..] == title;
    }
    assert text[..|num|] == num;
  }

  /** A heading text that does not start with digits and a dot keeps its text and gets `•`. */
  lemma UnnumberedHeading(text: string)
    requires text == [] || !IsDigit(text[0])
    ensures H1Element(text) == TextEl(H1, text, "\U{2022}", "", "", 0, false, false)
  {
  }

  /** The lines that are not blank. */
  function NonBlank(lines: seq<string>): (r: seq<string>)
    ensures |r| <= |lines|
    ensures forall l :: l in r ==> l in lines && Strip(l) != []
  {
    if lines == [] then []
    else (if Strip(lines[0]) != [] then [lines[0]] else []) + NonBlank(lines[1..])
  }

  predicate IsQuestion(l: string) { StartsWith(l, "Q:") || StartsWith(l, "Q\U{FF1A}") }
  predicate IsAnswer(l: string) { StartsWith(l, "A:") || StartsWith(l, "A\U{FF1A}") }

  /** The text after a two-character `Q:`/`A:` marker, trimmed. */
  function AfterMarker(l: string): string
    requires |l| >= 2
  {
    Strip(l[2..])
  }

  /** Question and answers after reading `lines` in order. */
  function QaFrom(lines: seq<string>): (string, seq<string>) {
    if lines == [] then ("", [])
    else
      var acc := QaFrom(lines[..|lines| - 1]);
      var l := lines[|lines| - 1];
      if IsQuestion(l) then (AfterMarker(l), acc.1)
      else if IsAnswer(l) then (acc.0, acc.1 + [AfterMarker(l)])
      else acc
  }

  /** The `qa` loop of `_convert_block`. */
  method ConvertQa(lines: seq<string>) returns (question: string, answers: seq<string>)
    ensures (question, answers) == QaFrom(lines)
  {
    question, answers := "", [];
    var i := 0;
    while i < |lines|
      invariant 0 <= i <= |lines|
      invariant (question, answers) == QaFrom(lines[..i])
    {
      assert lines[..i + 1][..i] == lines[..i];
      var l := lines[i];
      if StartsWith(l, "Q:") || StartsWith(l, "Q\U{FF1A}") {
        question := Strip(l[2..]);
      } else if StartsWith(l, "A:") || StartsWith(l, "A\U{FF1A}") {
        answers := answers + [Strip(l[2..])];
      }
      i := i + 1;
    }
    assert lines[..i] == lines;
  }

  /** The answers of a `qa` block, front to back: one per answer line. */
  function AnswerLines(lines: seq<string>): seq<string> {
    if lines == [] then []
    else (if !IsQuestion(lines[0]) && IsAnswer(lines[0]) then [AfterMarker(lines[0])] else []) + AnswerLines(lines[1..])
  }

  lemma {:induction false} AnswerLinesSnoc(lines: seq<string>, l: string)
    ensures AnswerLines(lines + [l]) ==
      AnswerLines(lines) + (if !IsQuestion(l) && IsAnswer(l) then [AfterMarker(l)] else [])
  {
    if lines != [] {
      assert (lines + [l])[1..] == lines[1..] + [l];
      AnswerLinesSnoc(lines[1..], l);
    } else {
      assert [] + [l] == [l];
    }
  }

  /** Every answer line contributes its answer, in order; nothing else does. */
  lemma {:induction false} QaAnswersInOrder(lines: seq<string>)
    ensures QaFrom(lines).1 == AnswerLines(lines)
  {
    if lines != [] {
      var init := lines[..|lines| - 1];
      QaAnswersInOrder(init);
      AnswerLinesSnoc(init, lines[|lines| - 1]);
      assert init + [lines[|lines| - 1]] == lines;
    }
  }

  /** The last question line decides the question; with none it is "". */
  lemma {:induction false} QaQuestionIsLast(lines: seq<string>, i: int)
    requires -1 <= i < |lines|
    requires i >= 0 ==> IsQuestion(lines[i])
    requires forall j :: i < j < |lines| ==> !IsQuestion(lines[j])
    ensures QaFrom(lines).0 == if i >= 0 then AfterMarker(lines[i]) else ""
  {
    if lines != [] && i < |lines| - 1 {
      var init := lines[..|lines| - 1];
      assert forall j :: 0 <= j < |init| ==> init[j] == lines[j];
      QaQuestionIsLast(init, i);
    }
  }

  /** The rows of a table block: the first `width` fields of each line that has that many. */
  function Rows(lines: seq<string>, width: nat): (r: seq<seq<string>>)
    ensures |r| <= |lines|
    ensures forall k :: 0 <= k < |r| ==> |r[k]| == width
  {
    if lines == [] then []
    else
      var l := lines[|lines| - 1];
      Rows(lines[..|lines| - 1], width) + (if |BarFields(l)| >= width then [BarFields(l)[..width]] else [])
  }

  /** The row loop of the `table2`/`table3` branches. */
  method CollectRows(lines: seq<string>, width: nat) returns (rows: seq<seq<string>>)
    ensures rows == Rows(lines, width)
  {
    rows := [];
    var i := 0;
    while i < |lines|
      invariant 0 <= i <= |lines|
      invariant rows == Rows(lines[..i], width)
    {
      assert lines[..i + 1][..i] == lines[..i];
      var parts := StripAll(Split(lines[i], '|'));
      if |parts| >= width {
        rows := rows + [parts[..width]];
      }
      i := i + 1;
    }
    assert lines[..i] == lines;
  }

  /** A line gives a two-column row exactly when it contains a `|`. */
  lemma TwoColumnRowIffBar(l: string)
    ensures |BarFields(l)| >= 2 <==> '|' in l
  {
    SplitCount(l, '|');
  }

  /** Every table cell is trimmed. */
  lemma {:induction false} RowCellsTrimmed(lines: seq<string>, width: nat)
    ensures forall k, c :: 0 <= k < |Rows(lines, width)| && 0 <= c < width ==>
      var cell := Rows(lines, width)[k][c];
      cell == [] || (!IsSpace(cell[0]) && !IsSpace(cell[|cell| - 1]))
  {
    if lines != [] {
      var l := lines[|lines| - 1];
      RowCellsTrimmed(lines[..|lines| - 1], width);
      forall c | 0 <= c < |BarFields(l)| {
        StripFacts(Split(l, '|')[c]);
      }
    }
  }

  /** The bullet text of a `- item` or `* item` line. */
  function BulletItem(l: string): Option<string> {
    if |l| >= 3 && (l[0] == '-' || l[0] == '*') && IsSpace(l[1]) then Some(Strip(l[1..])) else None
  }

  /** The pending bullet items as one bullets element, if there are any. */
  function Flush(buffer: seq<string>): seq<Element> {
    if buffer == [] then [] else [BulletsEl(buffer)]
  }

  /** The elements of untagged lines, `buffer` holding the bullet items not yet emitted. */
  function BodyFrom(lines: seq<string>, buffer: seq<string>): seq<Element> {
    if lines == [] then Flush(buffer)
    else
      match BulletItem(lines[0])
      case Some(item) => BodyFrom(lines[1..], buffer + [item])
      case None =>
        var s := Strip(lines[0]);
        Flush(buffer) + (if s != [] then [TextOf(Body, s)] else []) + BodyFrom(lines[1..], [])
  }

  /** The `body` branch of `_convert_block`. */
  method ConvertBody(lines: seq<string>) returns (results: seq<Element>)
    ensures results == BodyFrom(lines, [])
  {
    results := [];
    var buffer: seq<string> := [];
    var i := 0;
    while i < |lines|
      invariant 0 <= i <= |lines|
      invariant results + BodyFrom(lines[i..], buffer) == BodyFrom(lines, [])
    {
      var l := lines[i];
      assert lines[i..][0] == l && lines[i..][1..] == lines[i + 1..];
      var bullet := BulletItem(l);
      if bullet.Some? {
        BulletLineStep(lines[i..], buffer, results, BodyFrom(lines, []));
        buffer := buffer + [bullet.value];
      } else {
        ghost var results0, buffer0 := results, buffer;
        if buffer != [] {
          results := results + [BulletsEl(buffer)];
          buffer := [];
        }
        var stripped := Strip(l);
        if stripped != [] {
          results := results + [TextOf(Body, stripped)];
        }
        TextLineStep(lines[i..], buffer0, results0, results, BodyFrom(lines, []));
      }
      i := i + 1;
    }
    assert lines[i..] == [];
    if buffer != [] {
      results := results + [BulletsEl(buffer)];
    }
  }

  lemma BulletLineStep(ls: seq<string>, buffer: seq<string>, results: seq<Element>, target: seq<Element>)
    requires ls != [] && BulletItem(ls[0]).Some?
    requires results + BodyFrom(ls, buffer) == target
    ensures results + BodyFrom(ls[1..], buffer + [BulletItem(ls[0]).value]) == target
  {
    BodyFromStep(ls, buffer);
  }

  lemma TextLineStep(ls: seq<string>, buffer: seq<string>, results: seq<Element>, next: seq<Element>, target: seq<Element>)
    requires ls != [] && BulletItem(ls[0]).None?
    requires results + BodyFrom(ls, buffer) == target
    requires next == results + Flush(buffer) + if Strip(ls[0]) != [] then [TextOf(Body, Strip(ls[0]))] else []
    ensures next + BodyFrom(ls[1..], []) == target
  {
    var mid: seq<Element> := if Strip(ls[0]) != [] then [TextOf(Body, Strip(ls[0]))] else [];
    BodyFromStep(ls, buffer);
    Concat4(results, Flush(buffer), mid, BodyFrom(ls[1..], []));
  }

  lemma Concat4(a: seq<Element>, b: seq<Element>, c: seq<Element>, d: seq<Element>)
    ensures (a + b + c) + d == a + (b + c + d)
  {
  }

  /** One line of an untagged block consumed. */
  lemma BodyFromStep(lines: seq<string>, buffer: seq<string>)
    requires lines != []
    ensures BodyFrom(lines, buffer) ==
      if BulletItem(lines[0]).Some? then BodyFrom(lines[1..], buffer + [BulletItem(lines[0]).value])
      else Flush(buffer) + (if Strip(lines[0]) != [] then [TextOf(Body, Strip(lines[0]))] else []) +
           BodyFrom(lines[1..], [])
  {
  }

  /** All bullet items of the elements, in order. */
  function ItemsOf(els: seq<Element>): seq<string> {
    if els == [] then []
    else (if els[0].BulletsEl? then els[0].items else []) + ItemsOf(els[1..])
  }

  /** The texts of the body elements, in order. */
  function BodyTextsOf(els: seq<Element>): seq<string> {
    if els == [] then []
    else (if els[0].TextEl? && els[0].kind == Body then [els[0].text] else []) + BodyTextsOf(els[1..])
  }

  lemma {:induction false} ItemsOfAppend(a: seq<Element>, b: seq<Element>)
    ensures ItemsOf(a + b) == ItemsOf(a) + ItemsOf(b)
    ensures BodyTextsOf(a + b) == BodyTextsOf(a) + BodyTextsOf(b)
  {
    if a != [] {
      assert (a + b)[1..] == a[1..] + b;
      ItemsOfAppend(a[1..], b);
    } else {
      assert a + b == b;
    }
  }

  /** The bullet items of the lines, in order. */
  function BulletItems(lines: seq<string>): seq<string> {
    if lines == [] then []
    else (if BulletItem(lines[0]).Some? then [BulletItem(lines[0]).value] else []) + BulletItems(lines[1..])
  }

  /** The trimmed non-blank lines that are not bullets, in order. */
  function TextLines(lines: seq<string>): seq<string> {
    if lines == [] then []
    else
      (if BulletItem(lines[0]).None? && Strip(lines[0]) != [] then [Strip(lines[0])] else []) +
      TextLines(lines[1..])
  }

  /** What a flushed buffer and a text line contribute to the items and the texts. */
  lemma FlushAndTextPieces(buffer: seq<string>, s: string)
    ensures var mid: seq<Element> := if s != [] then [TextOf(Body, s)] else [];
      ItemsOf(Flush(buffer) + mid) == buffer &&
      BodyTextsOf(Flush(buffer) + mid) == (if s != [] then [s] else [])
  {
    var mid: seq<Element> := if s != [] then [TextOf(Body, s)] else [];
    ItemsOfAppend(Flush(buffer), mid);
    if buffer != [] {
      assert ItemsOf(Flush(buffer)) == buffer + ItemsOf([]);
    }
    if s != [] {
      assert BodyTextsOf(mid) == [s] + BodyTextsOf([]);
    }
  }

  /**
   * The bullets elements of an untagged block hold every bullet item, in
   * order, and the body elements every other non-blank line, trimmed, in order.
   */
  lemma {:induction false} BodyKeepsEveryLine(lines: seq<string>, buffer: seq<string>)
    ensures ItemsOf(BodyFrom(lines, buffer)) == buffer + BulletItems(lines)
    ensures BodyTextsOf(BodyFrom(lines, buffer)) == TextLines(lines)
  {
    if lines == [] {
      FlushAndTextPieces(buffer, []);
      assert Flush(buffer) + [] == Flush(buffer);
    } else {
      var rest := lines[1..];
      BodyFromStep(lines, buffer);
      match BulletItem(lines[0])
      case Some(item) =>
        BodyKeepsEveryLine(rest, buffer + [item]);
        assert BulletItems(lines) == [item] + BulletItems(rest);
        assert TextLines(lines) == TextLines(rest);
        assert buffer + [item] + BulletItems(rest) == buffer + ([item] + BulletItems(rest));
      case None =>
        var s := Strip(lines[0]);
        var mid: seq<Element> := if s != [] then [TextOf(Body, s)] else [];
        BodyKeepsEveryLine(rest, []);
        ItemsOfAppend(Flush(buffer) + mid, BodyFrom(rest, []));
        FlushAndTextPieces(buffer, s);
        assert BulletItems(lines) == BulletItems(rest);
        assert TextLines(lines) == (if s != [] then [s] else []) + TextLines(rest);
    }
  }

  /** No bullets element is empty. */
  lemma {:induction false} BulletsNeverEmpty(lines: seq<string>, buffer: seq<string>)
    ensures forall e :: e in BodyFrom(lines, buffer) && e.BulletsEl? ==> e.items != []
  {
    if lines != [] {
      match BulletItem(lines[0])
      case Some(item) =>
        BulletsNeverEmpty(lines[1..], buffer + [item]);
      case None =>
        BulletsNeverEmpty(lines[1..], []);
    }
  }

  /** The `image` branch: an image when the named file exists, else a placeholder. */
  function ImageElements(b: Block, imageDir: string, existing: set<string>): seq<Element> {
    var caption := if b.params != [] then b.params[0] else "";
    var lines := NonBlank(b.lines);
    var filename := if lines != [] then Strip(lines[0]) else "";
    var localPath := if filename != [] then JoinPath(imageDir, filename) else "";
    if filename != [] && localPath in existing then
      [ImageEl(filename, localPath, 0, 0, caption)]
    else
      [TextOf(ImagePlaceholder, if caption != [] then caption else filename)]
  }

  /** The tags whose block is a single text element. */
  function BoxType(tag: string): Option<ElementType> {
    if tag == "insight" then Some(Insight)
    else if tag == "tip" then Some(Tip)
    else if tag == "warning" then Some(Warning)
    else if tag == "quote" then Some(Quote)
    else None
  }

  /** `_convert_block`: the elements one block becomes. */
  function BlockElements(b: Block, meta: DocMeta, imageDir: string, existing: set<string>): seq<Element> {
    var text := BlockText(b);
    var tag := b.tag;
    if tag == "chapter_title" then [TextEl(ChapterTitle, meta.title, "", meta.sub, meta.chapter, 0, false, false)]
    else if tag == "h1" then [H1Element(text)]
    else if tag == "h2" then [TextOf(H2, text)]
    else if tag == "h3" then [TextOf(H3, text)]
    else if BoxType(tag).Some? then [TextOf(BoxType(tag).value, text)]
    else if tag == "conclusion" then [ConclusionEl(NonBlank(b.lines))]
    else if tag == "qa" then
      var qa := QaFrom(NonBlank(b.lines));
      [QaEl(qa.0, qa.1)]
    else if tag == "prompt" then [PromptEl(if b.params != [] then b.params[0] else "", text)]
    else if tag == "image" then ImageElements(b, imageDir, existing)
    else if tag == "table2" then
      [TableEl(Table2, if |b.params| > 0 then b.params[0] else "", if |b.params| > 1 then b.params[1] else "",
               [], Rows(NonBlank(b.lines), 2))]
    else if tag == "table3" then
      [TableEl(Table3, "", "", if |b.params| > 3 then b.params[..3] else b.params, Rows(NonBlank(b.lines), 3))]
    else if tag == "hr" then [HrEl(4)]
    else if tag == "empty" then [EmptyEl(120)]
    else if tag == "body" then BodyFrom(b.lines, [])
    else if text != [] then [TextOf(Body, text)]
    else []
  }

  /** `_convert_block`, running the loops of the `qa`, table and `body` branches. */
  method ConvertBlock(b: Block, meta: DocMeta, imageDir: string, existing: set<string>) returns (els: seq<Element>)
    ensures els == BlockElements(b, meta, imageDir, existing)
  {
    var tag := b.tag;
    var text := BlockText(b);
    var lines := NonBlank(b.lines);
    if tag == "qa" {
      var question, answers := ConvertQa(lines);
      els := [QaEl(question, answers)];
    } else if tag == "table2" {
      var rows := CollectRows(lines, 2);
      els := [TableEl(Table2, if |b.params| > 0 then b.params[0] else "", if |b.params| > 1 then b.params[1] else "",
                      [], rows)];
    } else if tag == "table3" {
      var rows := CollectRows(lines, 3);
      els := [TableEl(Table3, "", "", if |b.params| > 3 then b.params[..3] else b.params, rows)];
    } else if tag == "body" {
      els := ConvertBody(b.lines);
    } else {
      els := BlockElements(b, meta, imageDir, existing);
    }
  }

  /** The lines under `[hr]`, `[empty]` or `[chapter_title]` produce nothing of their own. */
  lemma BoundaryTagsIgnoreLines(b: Block, meta: DocMeta, imageDir: string, existing: set<string>)
    requires b.tag == "hr" || b.tag == "empty" || b.tag == "chapter_title"
    ensures BlockElements(b, meta, imageDir, existing) == BlockElements(b.(lines := []), meta, imageDir, existing)
    ensures |BlockElements(b, meta, imageDir, existing)| == 1
  {
  }

  predicate KnownTag(tag: string) {
    tag in {"chapter_title", "h1", "h2", "h3", "insight", "tip", "warning", "quote", "conclusion",
            "qa", "prompt", "image", "table2", "table3", "hr", "empty", "body"}
  }

  /** An unknown tag yields its text as one body element, or nothing when blank. */
  lemma UnknownTagIsBody(b: Block, meta: DocMeta, imageDir: string, existing: set<string>)
    requires !KnownTag(b.tag)
    ensures BlockElements(b, meta, imageDir, existing) ==
      if BlockText(b) != [] then [TextOf(Body, BlockText(b))] else []
  {
  }

  /**
   * An image block gives an image element exactly when its first non-blank
   * line names a file that exists under the image directory; otherwise a
   * placeholder carrying the caption, or the file name without one.
   */
  lemma ImageOnlyWhenFileExists(b: Block, imageDir: string, existing: set<string>)
    ensures var els := ImageElements(b, imageDir, existing);
      var lines := NonBlank(b.lines);
      var filename := if lines != [] then Strip(lines[0]) else "";
      var caption := if b.params != [] then b.params[0] else "";
      |els| == 1 &&
      (els[0].ImageEl? <==> filename != [] && JoinPath(imageDir, filename) in existing) &&
      (els[0].ImageEl? ==> els[0] == ImageEl(filename, JoinPath(imageDir, filename), 0, 0, caption)) &&
      (!els[0].ImageEl? ==> els[0] == TextOf(ImagePlaceholder, if caption != [] then caption else filename))
  {
  }

  // ---------------------------------------------------------------------
  // parse_md
  // ---------------------------------------------------------------------

  /** The metadata and body `_parse_frontmatter` returns. */
  function FrontmatterOf(text: string): (DocMeta, string) {
    match SplitFrontmatter(text)
    case None => (EmptyMeta, text)
    case Some(fs) => (MetaFrom(fs.headerLines), fs.body)
  }

  /** The elements of `blocks`, each block's elements appended in order. */
  function ConvertAll(blocks: seq<Block>, meta: DocMeta, imageDir: string, existing: set<string>): seq<Element> {
    if blocks == [] then []
    else ConvertAll(blocks[..|blocks| - 1], meta, imageDir, existing) +
         BlockElements(blocks[|blocks| - 1], meta, imageDir, existing)
  }

  /** The image directory: the given one, or the markdown file's own, with a trailing "/". */
  function ImageBase(mdDir: string, imageDir: string): (dir: string)
    ensures EndsWith(dir, "/")
    ensures imageDir != [] ==> dir == imageDir + "/"
    ensures imageDir == [] ==> dir == mdDir + "/"
  {
    (if imageDir == [] then mdDir else imageDir) + "/"
  }

  /** The document `parse_md` returns for the file text `text`. */
  function MdDocument(text: string, mdDir: string, imageDir: string, existing: set<string>): ParsedDocument {
    var (meta, body) := FrontmatterOf(text);
    var dir := ImageBase(mdDir, imageDir);
    ParsedDocument(meta, ConvertAll(TokenizeLines(SplitLines(body)), meta, dir, existing), map[], dir)
  }

  datatype MdError = FileNotFound

  /**
   * `parse_md`: `source` is the file's text, or `None` when the file does not
   * exist; `mdDir` is its directory and `existing` the set of files present.
   */
  method ParseMd(source: Option<string>, mdDir: string, imageDir: string, existing: set<string>)
    returns (r: Result<ParsedDocument, MdError>)
    ensures source.None? <==> r.Err?
    ensures source.None? ==> r == Err(FileNotFound)
    ensures source.Some? ==> r == Ok(MdDocument(source.value, mdDir, imageDir, existing))
  {
    if source.None? {
      return Err(FileNotFound);
    }
    var dir := ImageBase(mdDir, imageDir);
    var meta, body := ParseFrontmatter(source.value);
    assert (meta, body) == FrontmatterOf(source.value);
    var blocks := Tokenize(body);
    var elements := ConvertBlocks(blocks, meta, dir, existing);
    r := Ok(ParsedDocument(meta, elements, map[], dir));
  }

  /** The conversion loop of `parse_md`: every block's elements, in order. */
  method ConvertBlocks(blocks: seq<Block>, meta: DocMeta, dir: string, existing: set<string>)
    returns (elements: seq<Element>)
    ensures elements == ConvertAll(blocks, meta, dir, existing)
  {
    elements := [];
    var i := 0;
    while i < |blocks|
      invariant 0 <= i <= |blocks|
      invariant elements == ConvertAll(blocks[..i], meta, dir, existing)
    {
      var converted := ConvertBlock(blocks[i], meta, dir, existing);
      ConvertAllStep(blocks, i, meta, dir, existing);
      elements := elements + converted;
      i := i + 1;
    }
    assert blocks[..i] == blocks;
  }

  /** One block more converted: its elements are appended. */
  lemma ConvertAllStep(blocks: seq<Block>, i: nat, meta: DocMeta, dir: string, existing: set<string>)
    requires i < |blocks|
    ensures ConvertAll(blocks[..i + 1], meta, dir, existing) ==
      ConvertAll(blocks[..i], meta, dir, existing) + BlockElements(blocks[i], meta, dir, existing)
  {
    var next := blocks[..i + 1];
    assert next[..|next| - 1] == blocks[..i] && next[|next| - 1] == blocks[i];
    ConvertAllLast(next, meta, dir, existing);
  }

  lemma ConvertAllLast(blocks: seq<Block>, meta: DocMeta, dir: string, existing: set<string>)
    requires blocks != []
    ensures ConvertAll(blocks, meta, dir, existing) ==
      ConvertAll(blocks[..|blocks| - 1], meta, dir, existing) + BlockElements(blocks[|blocks| - 1], meta, dir, existing)
  {
  }

  /** The metadata written by `RenderFrontmatter` is what `parse_md` reads. */
  lemma MdReadsRenderedMeta(m: DocMeta, body: string, mdDir: string, imageDir: string, existing: set<string>)
    requires PlainValue(m.title) && PlainValue(m.author) && PlainValue(m.chapter) && PlainValue(m.sub)
    requires body == [] || !IsSpace(body[0])
    ensures MdDocument(RenderFrontmatter(m, body), mdDir, imageDir, existing).meta == m
    ensures MdDocument(RenderFrontmatter(m, body), mdDir, imageDir, existing).elements ==
      ConvertAll(TokenizeLines(SplitLines(body)), m, ImageBase(mdDir, imageDir), existing)
  {
    FrontmatterRoundTrip(m, body);
  }

  /** An untagged block yields only bullets and body elements. */
  lemma {:induction false} BodyFromKinds(lines: seq<string>, buffer: seq<string>)
    ensures forall e :: e in BodyFrom(lines, buffer) ==> TypeOf(e) == Bullets || TypeOf(e) == Body
  {
    if lines != [] {
      BodyFromStep(lines, buffer);
      if BulletItem(lines[0]).Some? {
        BodyFromKinds(lines[1..], buffer + [BulletItem(lines[0]).value]);
      } else {
        BodyFromKinds(lines[1..], []);
      }
    }
  }

  /** A block never yields the `.docx`-internal caption tag. */
  lemma BlockElementsNoCaption(b: Block, meta: DocMeta, imageDir: string, existing: set<string>)
    ensures forall e :: e in BlockElements(b, meta, imageDir, existing) ==> TypeOf(e) != Caption
  {
    var tag := b.tag;
    var els := BlockElements(b, meta, imageDir, existing);
    if tag == "body" {
      BodyFromKinds(b.lines, []);
    } else if tag in {"chapter_title", "h1", "h2", "h3"} {
      HeadingTagNoCaption(b, meta, imageDir, existing);
    } else if tag in {"conclusion", "qa", "prompt", "table2", "table3", "hr", "empty"} {
      SingleTagNoCaption(b, meta, imageDir, existing);
    } else if tag == "image" {
      var img := ImageElements(b, imageDir, existing);
      assert els == img;
      assert img[0].ImageEl? || img[0].kind == ImagePlaceholder;
    } else if BoxType(tag).Some? {
      assert els == [TextOf(BoxType(tag).value, BlockText(b))];
    } else {
      assert els == [] || els == [TextOf(Body, BlockText(b))];
    }
  }

  /** The heading tags give one heading element. */
  lemma HeadingTagNoCaption(b: Block, meta: DocMeta, imageDir: string, existing: set<string>)
    requires b.tag in {"chapter_title", "h1", "h2", "h3"}
    ensures var els := BlockElements(b, meta, imageDir, existing); |els| == 1 && TypeOf(els[0]) != Caption
  {
    if b.tag == "h1" {
      var e := H1Element(BlockText(b));
      assert e.TextEl? && e.kind == H1;
    }
  }

  /** The fixed tags other than headings, boxes, `body` and `image` give one element of their own kind. */
  lemma SingleTagNoCaption(b: Block, meta: DocMeta, imageDir: string, existing: set<string>)
    requires b.tag in {"conclusion", "qa", "prompt", "table2", "table3", "hr", "empty"}
    ensures var els := BlockElements(b, meta, imageDir, existing); |els| == 1 && TypeOf(els[0]) != Caption
  {
    assert BoxType(b.tag).None?;
  }

  /** The markdown parser never emits a caption element. */
  lemma {:induction false} ConvertAllNoCaption(blocks: seq<Block>, meta: DocMeta, imageDir: string, existing: set<string>)
    ensures forall e :: e in ConvertAll(blocks, meta, imageDir, existing) ==> TypeOf(e) != Caption
  {
    if blocks != [] {
      ConvertAllNoCaption(blocks[..|blocks| - 1], meta, imageDir, existing);
      BlockElementsNoCaption(blocks[|blocks| - 1], meta, imageDir, existing);
    }
  }
}
