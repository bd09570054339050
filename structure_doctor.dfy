/**
 * The Markdown structure doctor: a fence-aware scan for ATX headings, an
 * inspection report (missing or misplaced H1, level jumps, duplicate and
 * overlong titles, a score) and a normalisation that rewrites headings,
 * compacts blank lines and promotes a first line to a title when the text
 * has no heading at all.
 *
 * Issue and item messages are modelled by what they report (kind, line,
 * levels, title), not by their wording.
 */
module StructureDoctor {
  import opened Text

  /** A heading found by the scan: 1-based line number, level 1..5, stripped title. */
  datatype Heading = Heading(line: nat, level: nat, title: string)

  function Min(a: nat, b: nat): nat { if a <= b then a else b }

  // ---------------------------------------------------------------------
  // one line

  /** A fence line: stripped, it starts with three backticks. */
  predicate IsFence(line: string) {
    StartsWith(Strip(line), "```")
  }

  /**
   * `_HEADING_RE.match`, `^\s*(#{1,6})\s*(.*?)\s*$`, on a line without a
   * newline: it matches every line whose first non-blank character is `#`;
   * the group takes at most six `#`, the level is that count capped at 5,
   * and the title is the rest, stripped.
   */
  function HeadingMatch(line: string): (r: Option<(nat, string)>)
    ensures r.Some? ==> 1 <= r.value.0 <= 5
  {
    var t := LStrip(line);
    if t == [] || t[0] != '#' then None
    else
      var g := Min(RunOf(t, '#'), 6);
      Some((Min(g, 5), Strip(t[g..])))
  }

  // ---------------------------------------------------------------------
  // scanning

  datatype ScanState = ScanState(inCode: bool, headings: seq<Heading>)

  /** One round of `_scan_headings` for line number `idx`. */
  function ScanStep(st: ScanState, idx: nat, raw: string): ScanState {
    var line := RStrip(raw);
    if IsFence(line) then st.(inCode := !st.inCode)
    else if st.inCode then st
    else
      match HeadingMatch(line)
      case None => st
      case Some((level, title)) => st.(headings := st.headings + [Heading(idx, level, title)])
  }

  /** The scan over a list of lines. */
  function Scanned(lines: seq<string>): ScanState {
    if lines == [] then ScanState(false, [])
    else ScanStep(Scanned(lines[..|lines| - 1]), |lines|, lines[|lines| - 1])
  }

  /** `_scan_headings`. */
  function ScanHeadings(text: string): seq<Heading> {
    Scanned(SplitLines(text)).headings
  }

  /** The loop of `_scan_headings`. */
  method ScanHeadingsLoop(text: string) returns (headings: seq<Heading>)
    ensures headings == ScanHeadings(text)
  {
    var lines := SplitLines(text);
    headings := [];
    var inCode := false;
    var i := 0;
    while i < |lines|
      invariant 0 <= i <= |lines|
      invariant Scanned(lines[..i]) == ScanState(inCode, headings)
    {
      assert lines[..i + 1][..i] == lines[..i];
      var line := RStrip(lines[i]);
      if IsFence(line) {
        inCode := !inCode;
      } else if !inCode {
        var m := HeadingMatch(line);
        if m.Some? {
          headings := headings + [Heading(i + 1, m.value.0, m.value.1)];
        }
      }
      i := i + 1;
    }
    assert lines[..i] == lines;
  }

  /** Whether line `k` (0-based) of `lines` is a heading the scan reports. */
  predicate IsHeadingLine(lines: seq<string>, k: nat)
    requires k < |lines|
  {
    !IsFence(RStrip(lines[k])) && !Scanned(lines[..k]).inCode && HeadingMatch(RStrip(lines[k])).Some?
  }

  /** Heading `h` reports a heading line of `lines` with that line's level and title. */
  predicate Reports(lines: seq<string>, h: Heading) {
    1 <= h.line <= |lines| && IsHeadingLine(lines, h.line - 1) &&
    HeadingMatch(RStrip(lines[h.line - 1])) == Some((h.level, h.title))
  }

  /** The last line adds a heading exactly when it is a heading line. */
  lemma ScannedLast(lines: seq<string>)
    requires lines != []
    ensures var i := |lines| - 1;
      var m := HeadingMatch(RStrip(lines[i]));
      Scanned(lines).headings == Scanned(lines[..i]).headings +
        if IsHeadingLine(lines, i) then [Heading(|lines|, m.value.0, m.value.1)] else []
  {
  }

  /** Looking at a longer list does not change what an earlier line is. */
  lemma PrefixLines(lines: seq<string>, n: nat, k: nat)
    requires k < n <= |lines|
    ensures IsHeadingLine(lines[..n], k) == IsHeadingLine(lines, k)
    ensures lines[..n][k] == lines[k]
  {
    assert lines[..n][..k] == lines[..k];
  }

  /** Every reported heading is a heading line, reported in increasing line order. */
  lemma {:induction false} ScannedSound(lines: seq<string>)
    ensures var hs := Scanned(lines).headings;
      (forall j :: 0 <= j < |hs| ==> Reports(lines, hs[j])) &&
      (forall i, j :: 0 <= i < j < |hs| ==> hs[i].line < hs[j].line)
  {
    if lines != [] {
      var n := |lines| - 1;
      var front := lines[..n];
      ScannedSound(front);
      ScannedLast(lines);
      var hs := Scanned(lines).headings;
      var hf := Scanned(front).headings;
      forall j | 0 <= j < |hf| ensures Reports(lines, hs[j]) {
        assert hs[j] == hf[j];
        PrefixLines(lines, n, hf[j].line - 1);
      }
    }
  }

  /** Every heading line is reported. */
  lemma {:induction false} ScannedComplete(lines: seq<string>)
    ensures var hs := Scanned(lines).headings;
      forall k :: 0 <= k < |lines| && IsHeadingLine(lines, k) ==> exists j :: 0 <= j < |hs| && hs[j].line == k + 1
  {
    if lines != [] {
      var n := |lines| - 1;
      var front := lines[..n];
      ScannedComplete(front);
      ScannedLast(lines);
      var hs := Scanned(lines).headings;
      var hf := Scanned(front).headings;
      forall k | 0 <= k < |lines| && IsHeadingLine(lines, k)
        ensures exists j :: 0 <= j < |hs| && hs[j].line == k + 1
      {
        if k < n {
          PrefixLines(lines, n, k);
          var j :| 0 <= j < |hf| && hf[j].line == k + 1;
          assert hs[j] == hf[j];
        } else {
          assert hs[|hs| - 1].line == k + 1;
        }
      }
    }
  }

  /** Every reported level lies in 1..5. */
  lemma {:induction false} ScannedLevels(lines: seq<string>)
    ensures forall j :: 0 <= j < |Scanned(lines).headings| ==> 1 <= Scanned(lines).headings[j].level <= 5
  {
    if lines != [] {
      ScannedLevels(lines[..|lines| - 1]);
    }
  }

  // ---------------------------------------------------------------------
  // inspection

  datatype Issue =
    | NoHeadings
    | FirstNotH1
    | Jump(line: nat, from: nat, to: nat)   // the level rises by more than one
    | Duplicates(count: nat)                // the number of duplicated titles
    | LongTitles(count: nat)                // the number of titles over 65 characters

  /** What an issue item points at. */
  datatype Message =
    | NoHeadingsMsg
    | FirstNotH1Msg
    | JumpMsg(from: nat, to: nat)
    | DuplicateMsg(title: string)
    | LongMsg

  datatype Item = Item(line: nat, message: Message)

  datatype Suggestion = AddTitle | MakeFirstH1 | Disambiguate | Shorten

  /** The report of `inspect_markdown_structure`; `levels[l - 1]` counts the level-`l` headings. */
  datatype Report = Report(score: nat, issueCount: nat, issues: seq<Issue>, items: seq<Item>,
                           suggestions: seq<Suggestion>, headingCount: nat, levels: seq<nat>)

  /** A rise of more than one level between consecutive headings. */
  predicate Rises(hs: seq<Heading>, i: nat)
    requires 0 < i < |hs|
  {
    hs[i].level - hs[i - 1].level > 1
  }

  /** The jump loop: one issue per rise of more than one level. */
  function JumpIssues(hs: seq<Heading>): (r: seq<Issue>)
    ensures |r| < |hs| || hs == []
  {
    if |hs| < 2 then []
    else
      var i := |hs| - 1;
      JumpIssues(hs[..i]) + if Rises(hs, i) then [Jump(hs[i].line, hs[i - 1].level, hs[i].level)] else []
  }

  /** The item of a jump issue. */
  function JumpItems(issues: seq<Issue>): (r: seq<Item>)
    ensures |r| == |issues|
  {
    seq(|issues|, k requires 0 <= k < |issues| =>
      if issues[k].Jump? then Item(issues[k].line, JumpMsg(issues[k].from, issues[k].to)) else Item(0, LongMsg))
  }

  /** The duplicate key of a title: stripped and lower-cased. */
  function Key(title: string): string {
    Lower(Strip(title))
  }

  /** The non-empty keys in heading order. */
  function Keys(hs: seq<Heading>): seq<string> {
    if hs == [] then []
    else
      var k := Key(hs[|hs| - 1].title);
      Keys(hs[..|hs| - 1]) + if k != "" then [k] else []
  }

  /** The distinct elements in order of first occurrence, as a `Counter` keeps them. */
  function Dedup(s: seq<string>): (r: seq<string>)
    ensures forall x :: x in r <==> x in s
  {
    if s == [] then []
    else
      var front := s[..|s| - 1];
      var last := s[|s| - 1];
      assert s == front + [last];
      Dedup(front) + if last in front then [] else [last]
  }

  /** The names among `names` that occur more than once in `keys`. */
  function Repeated(names: seq<string>, keys: seq<string>): (r: seq<string>)
    ensures |r| <= |names|
    ensures forall x :: x in r <==> x in names && multiset(keys)[x] > 1
  {
    if names == [] then []
    else
      var rest := Repeated(names[..|names| - 1], keys);
      var x := names[|names| - 1];
      assert names == names[..|names| - 1] + [x];
      rest + if multiset(keys)[x] > 1 then [x] else []
  }

  /** `dups`: the duplicated keys, in order of first occurrence. */
  function DupNames(hs: seq<Heading>): seq<string> {
    Repeated(Dedup(Keys(hs)), Keys(hs))
  }

  /** The index of the first heading with this key, or `|hs|`. */
  function FirstWithKey(hs: seq<Heading>, name: string): (i: nat)
    ensures i <= |hs|
    ensures i < |hs| ==> Key(hs[i].title) == name
    ensures forall j :: 0 <= j < i ==> Key(hs[j].title) != name
  {
    if hs == [] then 0
    else if Key(hs[0].title) == name then 0
    else 1 + FirstWithKey(hs[1..], name)
  }

  /** The items for the duplicated names: the first heading carrying each. */
  function DupItems(hs: seq<Heading>, names: seq<string>): (r: seq<Item>)
    ensures |r| <= |names|
  {
    if names == [] then []
    else
      var i := FirstWithKey(hs, names[|names| - 1]);
      DupItems(hs, names[..|names| - 1]) + if i < |hs| then [Item(hs[i].line, DuplicateMsg(hs[i].title))] else []
  }

  /** The line numbers of the headings whose title is longer than 65 characters. */
  function LongLines(hs: seq<Heading>): (r: seq<nat>)
    ensures |r| <= |hs|
  {
    if hs == [] then []
    else LongLines(hs[..|hs| - 1]) + if |hs[|hs| - 1].title| > 65 then [hs[|hs| - 1].line] else []
  }

  function LongItems(lines: seq<nat>): (r: seq<Item>)
    ensures |r| == |lines|
  {
    seq(|lines|, k requires 0 <= k < |lines| => Item(lines[k], LongMsg))
  }

  function LevelCount(hs: seq<Heading>, level: nat): (n: nat)
    ensures n <= |hs|
  {
    if hs == [] then 0
    else LevelCount(hs[..|hs| - 1], level) + if hs[|hs| - 1].level == level then 1 else 0
  }

  /** `max(0, 100 - 12 * issue_count)`. */
  function Score(issueCount: nat): (s: nat)
    ensures s <= 100
  {
    if 100 - 12 * issueCount < 0 then 0 else 100 - 12 * issueCount
  }

  /** Issues, items and suggestions collected by one stage of the inspection. */
  datatype Parts = Parts(issues: seq<Issue>, items: seq<Item>, suggestions: seq<Suggestion>)

  function Then(a: Parts, b: Parts): Parts {
    Parts(a.issues + b.issues, a.items + b.items, a.suggestions + b.suggestions)
  }

  function FirstParts(hs: seq<Heading>): Parts
    requires hs != []
  {
    if hs[0].level != 1 then Parts([FirstNotH1], [Item(hs[0].line, FirstNotH1Msg)], [MakeFirstH1])
    else Parts([], [], [])
  }

  function JumpParts(hs: seq<Heading>): Parts {
    Parts(JumpIssues(hs), JumpItems(JumpIssues(hs)), [])
  }

  /** One issue for all duplicates, items for the first six duplicated names. */
  function DupParts(hs: seq<Heading>): Parts {
    var dups := DupNames(hs);
    if dups != [] then Parts([Duplicates(|dups|)], DupItems(hs, dups[..Min(|dups|, 6)]), [Disambiguate])
    else Parts([], [], [])
  }

  /** One issue for all long titles, items for the first six. */
  function LongParts(hs: seq<Heading>): Parts {
    var long := LongLines(hs);
    if long != [] then Parts([LongTitles(|long|)], LongItems(long[..Min(|long|, 6)]), [Shorten])
    else Parts([], [], [])
  }

  function LevelCounts(hs: seq<Heading>): seq<nat> {
    [LevelCount(hs, 1), LevelCount(hs, 2), LevelCount(hs, 3), LevelCount(hs, 4), LevelCount(hs, 5)]
  }

  /** The report for the headings found. */
  function InspectHeadings(hs: seq<Heading>): Report {
    if hs == [] then Report(Score(1), 1, [NoHeadings], [Item(1, NoHeadingsMsg)], [AddTitle], 0, LevelCounts(hs))
    else
      var p := Then(Then(Then(FirstParts(hs), JumpParts(hs)), DupParts(hs)), LongParts(hs));
      Report(Score(|p.issues|), |p.issues|, p.issues, p.items, p.suggestions, |hs|, LevelCounts(hs))
  }

  /** `inspect_markdown_structure`. */
  function Inspect(text: string): Report {
    InspectHeadings(ScanHeadings(text))
  }

  /** The jump loop of `inspect_markdown_structure`. */
  method JumpLoop(hs: seq<Heading>) returns (issues: seq<Issue>)
    requires hs != []
    ensures issues == JumpIssues(hs)
  {
    issues := [];
    var prev := hs[0].level;
    var i := 1;
    while i < |hs|
      invariant 1 <= i <= |hs|
      invariant issues == JumpIssues(hs[..i]) && prev == hs[i - 1].level
    {
      assert hs[..i + 1][..i] == hs[..i];
      if hs[i].level - prev > 1 {
        issues := issues + [Jump(hs[i].line, prev, hs[i].level)];
      }
      prev := hs[i].level;
      i := i + 1;
    }
    assert hs[..i] == hs;
  }

  /** The nested loop over the first duplicated names: the first heading carrying each. */
  method DupItemsLoop(hs: seq<Heading>, names: seq<string>) returns (items: seq<Item>)
    ensures items == DupItems(hs, names)
  {
    items := [];
    var n := 0;
    while n < |names|
      invariant 0 <= n <= |names|
      invariant items == DupItems(hs, names[..n])
    {
      assert names[..n + 1][..n] == names[..n];
      var i := 0;
      while i < |hs| && Key(hs[i].title) != names[n]
        invariant 0 <= i <= |hs|
        invariant forall j :: 0 <= j < i ==> Key(hs[j].title) != names[n]
      {
        i := i + 1;
      }
      FirstWithKeyIs(hs, names[n], i);
      if i < |hs| {
        items := items + [Item(hs[i].line, DuplicateMsg(hs[i].title))];
      }
      n := n + 1;
    }
    assert names[..n] == names;
  }

  lemma {:induction false} FirstWithKeyIs(hs: seq<Heading>, name: string, i: nat)
    requires i <= |hs| && (i < |hs| ==> Key(hs[i].title) == name)
    requires forall j :: 0 <= j < i ==> Key(hs[j].title) != name
    ensures FirstWithKey(hs, name) == i
  {
    if hs != [] && i > 0 {
      FirstWithKeyIs(hs[1..], name, i - 1);
    }
  }

  /** The duplicate stage, with its nested search loop. */
  method DupStage(hs: seq<Heading>) returns (p: Parts)
    ensures p == DupParts(hs)
  {
    var dups := DupNames(hs);
    p := Parts([], [], []);
    if dups != [] {
      var items := DupItemsLoop(hs, dups[..Min(|dups|, 6)]);
      p := Parts([Duplicates(|dups|)], items, [Disambiguate]);
    }
  }

  /** `inspect_markdown_structure` as the source runs it. */
  method InspectStructure(text: string) returns (r: Report)
    ensures r == Inspect(text)
  {
    var hs := ScanHeadingsLoop(text);
    if hs == [] {
      return Report(Score(1), 1, [NoHeadings], [Item(1, NoHeadingsMsg)], [AddTitle], 0, LevelCounts(hs));
    }
    var p := FirstParts(hs);
    var jumps := JumpLoop(hs);
    p := Then(p, Parts(jumps, JumpItems(jumps), []));
    var dup := DupStage(hs);
    p := Then(p, dup);
    p := Then(p, LongParts(hs));
    r := Report(Score(|p.issues|), |p.issues|, p.issues, p.items, p.suggestions, |hs|, LevelCounts(hs));
  }

  // ---------------------------------------------------------------------
  // properties of the report

  /** No heading: exactly one issue, pointing at line 1, and the score 88. */
  lemma InspectWithoutHeadings(text: string)
    requires ScanHeadings(text) == []
    ensures Inspect(text).issues == [NoHeadings] && Inspect(text).items == [Item(1, NoHeadingsMsg)]
    ensures Inspect(text).score == 88
  {
  }

  /** The score is `100 - 12` per issue, never below 0 nor above 100, and the count matches the list. */
  lemma InspectScore(text: string)
    ensures var r := Inspect(text);
      r.issueCount == |r.issues| && r.score <= 100 &&
      (r.score == 0 <==> |r.issues| >= 9) && (|r.issues| < 9 ==> r.score == 100 - 12 * |r.issues|)
  {
  }

  /** A first heading that is not level 1 gives the first issue, at its line; otherwise there is no such issue. */
  lemma InspectFirstLevel(hs: seq<Heading>)
    requires hs != []
    ensures (FirstNotH1 in InspectHeadings(hs).issues) <==> hs[0].level != 1
    ensures hs[0].level != 1 ==> (InspectHeadings(hs).issues[0] == FirstNotH1 &&
      InspectHeadings(hs).items[0] == Item(hs[0].line, FirstNotH1Msg))
  {
    var p := Then(Then(Then(FirstParts(hs), JumpParts(hs)), DupParts(hs)), LongParts(hs));
    var rest := Then(Then(JumpParts(hs), DupParts(hs)), LongParts(hs));
    ThenAssoc(FirstParts(hs), JumpParts(hs), DupParts(hs), LongParts(hs));
    LaterStagesNotFirst(hs);
  }

  /** Collecting four stages in turn is collecting the first, then the other three. */
  lemma ThenAssoc(a: Parts, b: Parts, c: Parts, d: Parts)
    ensures Then(Then(Then(a, b), c), d) == Then(a, Then(Then(b, c), d))
  {
    assert ((a.issues + b.issues) + c.issues) + d.issues == a.issues + ((b.issues + c.issues) + d.issues);
    assert ((a.items + b.items) + c.items) + d.items == a.items + ((b.items + c.items) + d.items);
    assert ((a.suggestions + b.suggestions) + c.suggestions) + d.suggestions ==
      a.suggestions + ((b.suggestions + c.suggestions) + d.suggestions);
  }

  /** The jump, duplicate and long-title stages never report a misplaced first heading. */
  lemma LaterStagesNotFirst(hs: seq<Heading>)
    ensures FirstNotH1 !in Then(Then(JumpParts(hs), DupParts(hs)), LongParts(hs)).issues
  {
    var jumps := JumpIssues(hs);
    assert FirstNotH1 !in jumps by {
      JumpIssuesAreJumps(hs);
      forall k | 0 <= k < |jumps| ensures jumps[k] != FirstNotH1 {
        assert jumps[k].Jump?;
      }
    }
    var dups, long := DupParts(hs).issues, LongParts(hs).issues;
    assert dups == [] || dups == [Duplicates(|DupNames(hs)|)];
    assert long == [] || long == [LongTitles(|LongLines(hs)|)];
  }

  /** `issue` is the jump reported at index `i` of `hs`. */
  predicate JumpAt(hs: seq<Heading>, i: nat, issue: Issue) {
    0 < i < |hs| && Rises(hs, i) && issue == Jump(hs[i].line, hs[i - 1].level, hs[i].level)
  }

  /** `issue` is the jump reported at some index of `hs`. */
  ghost predicate IsJump(hs: seq<Heading>, issue: Issue) {
    exists i :: JumpAt(hs, i, issue)
  }

  lemma JumpAtPrefix(hs: seq<Heading>, n: nat, i: nat, issue: Issue)
    requires n <= |hs|
    ensures JumpAt(hs[..n], i, issue) ==> JumpAt(hs, i, issue)
    ensures i < n ==> (JumpAt(hs[..n], i, issue) <==> JumpAt(hs, i, issue))
  {
  }

  /**
   * The jump issues are exactly the rises of more than one level, in
   * order: a decrease, however large, is never reported.
   */
  lemma {:induction false} JumpIssuesAreJumps(hs: seq<Heading>)
    ensures forall k :: 0 <= k < |JumpIssues(hs)| ==> (JumpIssues(hs)[k].Jump? &&
      JumpIssues(hs)[k].to - JumpIssues(hs)[k].from > 1)
    ensures forall i :: 0 < i < |hs| && Rises(hs, i) ==> Jump(hs[i].line, hs[i - 1].level, hs[i].level) in JumpIssues(hs)
    ensures forall k :: 0 <= k < |JumpIssues(hs)| ==> IsJump(hs, JumpIssues(hs)[k])
  {
    if |hs| >= 2 {
      var n := |hs| - 1;
      var front := hs[..n];
      JumpIssuesAreJumps(front);
      var r := JumpIssues(hs);
      var rf := JumpIssues(front);
      assert r[..|rf|] == rf;
      forall k | 0 <= k < |r| ensures IsJump(hs, r[k]) {
        if k < |rf| {
          assert IsJump(front, rf[k]);
          var i :| JumpAt(front, i, rf[k]);
          JumpAtPrefix(hs, n, i, rf[k]);
        } else {
          assert JumpAt(hs, n, r[k]);
        }
      }
      forall i | 0 < i < |hs| && Rises(hs, i) ensures Jump(hs[i].line, hs[i - 1].level, hs[i].level) in r {
        if i < n {
          JumpAtPrefix(hs, n, i, Jump(hs[i].line, hs[i - 1].level, hs[i].level));
          assert JumpAt(front, i, Jump(hs[i].line, hs[i - 1].level, hs[i].level));
          assert Jump(hs[i].line, hs[i - 1].level, hs[i].level) in rf;
        }
      }
    } else {
      assert JumpIssues(hs) == [];
    }
  }

  /** The level counts add up to the number of headings the scan found. */
  lemma InspectLevelsSum(text: string)
    ensures var r := Inspect(text);
      |r.levels| == 5 && r.levels[0] + r.levels[1] + r.levels[2] + r.levels[3] + r.levels[4] == r.headingCount
  {
    ScannedLevels(SplitLines(text));
    LevelCountsSum(ScanHeadings(text));
  }

  lemma {:induction false} LevelCountsSum(hs: seq<Heading>)
    requires forall j :: 0 <= j < |hs| ==> 1 <= hs[j].level <= 5
    ensures LevelCount(hs, 1) + LevelCount(hs, 2) + LevelCount(hs, 3) + LevelCount(hs, 4) + LevelCount(hs, 5) == |hs|
  {
    if hs != [] {
      LevelCountsSum(hs[..|hs| - 1]);
    }
  }

  /** A title is reported as duplicated exactly when two or more headings share its non-empty key. */
  lemma DupNamesSpec(hs: seq<Heading>)
    ensures forall x :: x in DupNames(hs) <==> x in Keys(hs) && multiset(Keys(hs))[x] > 1
  {
  }

  // ---------------------------------------------------------------------
  // normalisation

  const Untitled := "제목 없음"

  /** The normal form of a heading line. */
  function NormalHeading(level: nat, title: string): string {
    Repeat('#', level) + " " + (if title == "" then Untitled else title)
  }

  /** The rewrite counters of `normalize_markdown_structure`. */
  datatype Changes = Changes(headingNormalized: nat, emptyHeadingFilled: nat, blanklineCompacted: nat, titlePromoted: nat)

  datatype NormState = NormState(inCode: bool, out: seq<string>, normalized: nat, filled: nat)

  /** One round of the rewrite loop. */
  function NormStep(st: NormState, raw: string): NormState {
    var line := RStrip(raw);
    if IsFence(line) then st.(inCode := !st.inCode, out := st.out + [line])
    else if st.inCode then st.(out := st.out + [line])
    else
      match HeadingMatch(line)
      case None => st.(out := st.out + [line])
      case Some((level, title)) =>
        var normal := NormalHeading(level, title);
        st.(out := st.out + [normal],
            normalized := st.normalized + (if normal != line then 1 else 0),
            filled := st.filled + (if title == "" then 1 else 0))
  }

  function Rewritten(lines: seq<string>): (st: NormState)
    ensures |st.out| == |lines|
  {
    if lines == [] then NormState(false, [], 0, 0)
    else NormStep(Rewritten(lines[..|lines| - 1]), lines[|lines| - 1])
  }

  predicate Blank(line: string) {
    Strip(line) == ""
  }

  /** The compaction loop: a blank line right after a blank line is dropped. */
  function Compacted(out: seq<string>): (r: seq<string>)
    ensures |r| <= |out|
  {
    if out == [] then []
    else
      var i := |out| - 1;
      Compacted(out[..i]) + if Blank(out[i]) && i > 0 && Blank(out[i - 1]) then [] else [out[i]]
  }

  /** The list markers that stop the search for a title line. */
  predicate ListLike(s: string) {
    StartsWith(s, "- ") || StartsWith(s, "* ") || StartsWith(s, "> ") || StartsWith(s, "```") ||
    StartsWith(s, "1. ") || StartsWith(s, "2. ") || StartsWith(s, "3. ")
  }

  /** The index of the first non-blank line, or `|lines|`. */
  function FirstNonBlank(lines: seq<string>): (i: nat)
    ensures i <= |lines| && (i < |lines| ==> !Blank(lines[i]))
    ensures forall j :: 0 <= j < i ==> Blank(lines[j])
  {
    if lines == [] then 0 else if !Blank(lines[0]) then 0 else 1 + FirstNonBlank(lines[1..])
  }

  /** `first_idx`: the first non-blank line when it is short and not list-like, else -1. */
  function TitleIndex(lines: seq<string>): (i: int)
    ensures -1 <= i < |lines|
  {
    var i := FirstNonBlank(lines);
    if i < |lines| && !ListLike(Strip(lines[i])) && |Strip(lines[i])| <= 80 then i else -1
  }

  /** The compacted lines with the title promoted when the text has no heading. */
  function Promoted(compacted: seq<string>): (r: seq<string>)
    ensures |r| == |compacted|
  {
    if ScanHeadings(Join(compacted, "\n")) == [] && TitleIndex(compacted) >= 0 then
      var i := TitleIndex(compacted);
      compacted[i := "# " + Strip(compacted[i])]
    else compacted
  }

  /** The result of `normalize_markdown_structure`: the text, its report, the counters and `changed`. */
  datatype Normalized = Normalized(text: string, report: Report, changes: Changes, changed: bool)

  function Normalize(text: string): Normalized {
    var st := Rewritten(SplitLines(text));
    var compacted := Compacted(st.out);
    var promoted := Promoted(compacted);
    var result := Join(promoted, "\n");
    var changes := Changes(st.normalized, st.filled, |st.out| - |compacted|, if promoted == compacted then 0 else 1);
    Normalized(result, Inspect(result), changes, result != text)
  }

  /** The rewrite loop. */
  method RewriteLoop(lines: seq<string>) returns (st: NormState)
    ensures st == Rewritten(lines)
  {
    st := NormState(false, [], 0, 0);
    var i := 0;
    while i < |lines|
      invariant 0 <= i <= |lines|
      invariant st == Rewritten(lines[..i])
    {
      assert lines[..i + 1][..i] == lines[..i];
      ghost var next := NormStep(st, lines[i]);
      assert Rewritten(lines[..i + 1]) == next;
      var line := RStrip(lines[i]);
      if IsFence(line) {
        st := st.(inCode := !st.inCode, out := st.out + [line]);
      } else if st.inCode {
        st := st.(out := st.out + [line]);
      } else {
        var m := HeadingMatch(line);
        if m.Some? {
          var normal := NormalHeading(m.value.0, m.value.1);
          st := st.(out := st.out + [normal],
                     normalized := st.normalized + (if normal != line then 1 else 0),
                     filled := st.filled + (if m.value.1 == "" then 1 else 0));
        } else {
          st := st.(out := st.out + [line]);
        }
      }
      assert st == next;
      i := i + 1;
    }
    assert lines[..i] == lines;
  }

  /** The compaction loop with its `blank_run` counter. */
  method CompactLoop(out: seq<string>) returns (compacted: seq<string>, dropped: nat)
    ensures compacted == Compacted(out) && dropped == |out| - |compacted|
  {
    compacted := [];
    dropped := 0;
    var blankRun := 0;
    var i := 0;
    while i < |out|
      invariant 0 <= i <= |out|
      invariant compacted == Compacted(out[..i]) && dropped + |compacted| == i
      invariant blankRun > 0 <==> i > 0 && Blank(out[i - 1])
    {
      assert out[..i + 1][..i] == out[..i];
      if Blank(out[i]) {
        blankRun := blankRun + 1;
        if blankRun > 1 {
          dropped := dropped + 1;
          i := i + 1;
          continue;
        }
      } else {
        blankRun := 0;
      }
      compacted := compacted + [out[i]];
      i := i + 1;
    }
    assert out[..i] == out;
  }

  /** The search loop for the title line. */
  method TitleSearch(lines: seq<string>) returns (firstIdx: int)
    ensures firstIdx == TitleIndex(lines)
  {
    firstIdx := -1;
    var i := 0;
    while i < |lines|
      invariant 0 <= i <= |lines|
      invariant forall j :: 0 <= j < i ==> Blank(lines[j])
    {
      var s := Strip(lines[i]);
      if s == "" {
        i := i + 1;
        continue;
      }
      FirstNonBlankIs(lines, i);
      if ListLike(s) {
        return;
      }
      if |s| <= 80 {
        firstIdx := i;
      }
      return;
    }
    FirstNonBlankIs(lines, i);
  }

  lemma {:induction false} FirstNonBlankIs(lines: seq<string>, i: nat)
    requires i <= |lines| && (i < |lines| ==> !Blank(lines[i]))
    requires forall j :: 0 <= j < i ==> Blank(lines[j])
    ensures FirstNonBlank(lines) == i
  {
    if lines != [] && i > 0 {
      FirstNonBlankIs(lines[1..], i - 1);
    }
  }

  /** `normalize_markdown_structure`. */
  method NormalizeStructure(text: string) returns (r: Normalized)
    ensures r == Normalize(text)
    ensures r.changed <==> r.text != text
  {
    var st := RewriteLoop(SplitLines(text));
    var compacted, dropped := CompactLoop(st.out);
    var promoted := compacted;
    var headings := ScanHeadingsLoop(Join(compacted, "\n"));
    if headings == [] {
      var firstIdx := TitleSearch(compacted);
      if firstIdx >= 0 {
        promoted := compacted[firstIdx := "# " + Strip(compacted[firstIdx])];
      }
    }
    var result := Join(promoted, "\n");
    var report := InspectStructure(result);
    var changes := Changes(st.normalized, st.filled, dropped, if promoted == compacted then 0 else 1);
    r := Normalized(result, report, changes, result != text);
  }

  // ---------------------------------------------------------------------
  // properties of the normalisation

  /** After compaction no two consecutive lines are blank. */
  lemma {:induction false} CompactedNoDoubleBlank(out: seq<string>)
    ensures var c := Compacted(out);
      forall i :: 0 <= i < |c| - 1 ==> !(Blank(c[i]) && Blank(c[i + 1]))
    ensures Compacted(out) != [] ==> (Compacted(out)[|Compacted(out)| - 1] == out[|out| - 1] ||
      (|out| >= 2 && Blank(out[|out| - 1]) && Blank(out[|out| - 2]) && Blank(Compacted(out)[|Compacted(out)| - 1])))
  {
    if out != [] {
      var i := |out| - 1;
      CompactedNoDoubleBlank(out[..i]);
      var cf := Compacted(out[..i]);
      var c := Compacted(out);
      if i > 0 {
        assert out[..i][i - 1] == out[i - 1];
        if i >= 2 { assert out[..i][i - 2] == out[i - 2]; }
      }
      forall k | 0 <= k < |c| - 1 ensures !(Blank(c[k]) && Blank(c[k + 1])) {
        if k + 1 < |cf| {
          assert c[k] == cf[k] && c[k + 1] == cf[k + 1];
        }
      }
    }
  }

  /** The promoted title line is not blank, so promotion keeps blank lines apart. */
  lemma PromotedNoDoubleBlank(compacted: seq<string>)
    requires forall i :: 0 <= i < |compacted| - 1 ==> !(Blank(compacted[i]) && Blank(compacted[i + 1]))
    ensures var p := Promoted(compacted);
      forall i :: 0 <= i < |p| - 1 ==> !(Blank(p[i]) && Blank(p[i + 1]))
  {
    var p := Promoted(compacted);
    if p != compacted {
      var t := TitleIndex(compacted);
      var line := "# " + Strip(compacted[t]);
      assert line[0] == '#';
      StripNonEmpty(line);
      assert !Blank(p[t]);
      forall i | 0 <= i < |p| - 1 ensures !(Blank(p[i]) && Blank(p[i + 1])) {
        if i != t && i + 1 != t {
          assert p[i] == compacted[i] && p[i + 1] == compacted[i + 1];
        }
      }
    }
  }

  /**
   * The normalised lines never hold two consecutive blank lines, the
   * compaction counter is the number of lines dropped, and a promoted title
   * is the stripped first non-blank line, short and not list-like, of a text
   * without headings.
   */
  lemma NormalizeSpec(text: string)
    ensures var st := Rewritten(SplitLines(text));
      var p := Promoted(Compacted(st.out));
      var n := Normalize(text);
      n.text == Join(p, "\n") &&
      (forall i :: 0 <= i < |p| - 1 ==> !(Blank(p[i]) && Blank(p[i + 1]))) &&
      n.changes.blanklineCompacted == |st.out| - |Compacted(st.out)| &&
      (n.changes.titlePromoted == 1 ==>
        var c := Compacted(st.out);
        var i := FirstNonBlank(c);
        ScanHeadings(Join(c, "\n")) == [] && i < |c| && p[i] == "# " + Strip(c[i]) &&
        |Strip(c[i])| <= 80 && !ListLike(Strip(c[i])))
  {
    var st := Rewritten(SplitLines(text));
    CompactedNoDoubleBlank(st.out);
    PromotedNoDoubleBlank(Compacted(st.out));
  }

  /** A title with no surrounding whitespace survives the space after the hashes. */
  lemma SpacedTitle(title: string)
    requires title != [] && !IsSpace(title[0]) && !IsSpace(title[|title| - 1])
    ensures Strip(" " + title) == title
  {
    var s := " " + title;
    assert s[|s| - 1] == title[|title| - 1];
    assert RStrip(s) == s;
    assert s[1..] == title;
    assert LStrip(s) == LStrip(title);
  }

  /**
   * A normal heading line is a fixed point: it matches with the same level
   * and title, and rewriting it gives it back unchanged.
   */
  lemma NormalHeadingFixed(level: nat, title: string)
    requires 1 <= level <= 5
    requires title != [] && !IsSpace(title[0]) && !IsSpace(title[|title| - 1])
    ensures HeadingMatch(NormalHeading(level, title)) == Some((level, title))
    ensures RStrip(NormalHeading(level, title)) == NormalHeading(level, title)
  {
    var line := NormalHeading(level, title);
    var rest := " " + title;
    assert line == Repeat('#', level) + rest;
    assert line[0] == '#';
    assert LStrip(line) == line;
    RunOfStops(Repeat('#', level), '#', rest);
    assert line[level..] == rest;
    SpacedTitle(title);
    assert line[|line| - 1] == title[|title| - 1];
  }
}
